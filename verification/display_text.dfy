/**
  String facts about the calculator display: the `indexOf` search the decimal
  key relies on, the shape of a typed-in number, and what a run of digit keys
  leaves on the display.
*/
module DisplayText {

  predicate IsDigit(c: char) {
    '0' <= c <= '9'
  }

  /** Position of the first `c` in `s`, or -1 when there is none (`String.prototype.indexOf`). */
  function IndexOf(s: string, c: char): (r: int)
    ensures -1 <= r < |s|
    ensures r == -1 <==> c !in s
    ensures 0 <= r ==> s[r] == c && forall i :: 0 <= i < r ==> s[i] != c
  {
    if s == [] then -1
    else if s[0] == c then 0
    else
      var k := IndexOf(s[1..], c);
      if k == -1 then -1 else k + 1
  }

  /** Number of decimal points in `s`. */
  function Dots(s: string): nat {
    multiset(s)['.']
  }

  /**
    The text a user can type: non-empty, only digits and decimal points,
    and at most one decimal point.
  */
  predicate NumericText(s: string) {
    && |s| > 0
    && (forall i :: 0 <= i < |s| ==> IsDigit(s[i]) || s[i] == '.')
    && Dots(s) <= 1
  }

  /** `ds` with its leading `'0'` characters removed. */
  function DropLeadingZeros(ds: string): (r: string)
    ensures |r| <= |ds| && r == ds[|ds| - |r|..]
    ensures forall i :: 0 <= i < |ds| - |r| ==> ds[i] == '0'
    ensures r == [] || r[0] != '0'
  {
    if ds != [] && ds[0] == '0' then DropLeadingZeros(ds[1..]) else ds
  }

  /**
    What the display shows after the digits `ds` are typed onto a display of
    `"0"`: the digits without their leading zeros, or `"0"` when nothing is left.
  */
  function Typed(ds: string): (r: string)
    ensures |r| > 0
    ensures r != "0" ==> |r| <= |ds| && r[0] != '0' && r == ds[|ds| - |r|..]
    ensures r != "0" ==> forall i :: 0 <= i < |ds| - |r| ==> ds[i] == '0'
    ensures (forall i :: 0 <= i < |ds| ==> ds[i] == '0') <==> r == "0"
  {
    var t := DropLeadingZeros(ds);
    if t == [] then "0" else t
  }

}
