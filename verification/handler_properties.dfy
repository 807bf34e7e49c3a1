/**
  Properties of the individual handlers: when they do nothing, how they
  compose with themselves, and that the entry handlers keep the display a
  well-formed typed number.
*/
module HandlerProperties {
  import opened Options
  import opened DisplayText
  import opened Arithmetic
  import opened Calculator

  /** Digit entry with a single digit keeps a typed number typed. */
  lemma InputNumberKeepsNumericText<N>(s: State<N>, d: char)
    requires IsDigit(d)
    requires s.waitingForOperand || NumericText(s.display)
    ensures NumericText(InputNumber(s, [d]).display)
  {
  }

  /** Decimal entry keeps a typed number typed. */
  lemma InputDecimalKeepsNumericText<N>(s: State<N>)
    requires s.waitingForOperand || NumericText(s.display)
    ensures NumericText(InputDecimal(s).display)
  {
  }

  /** Clear always leaves a typed number on the display. */
  lemma ClearKeepsNumericText<N>(s: State<N>)
    ensures NumericText(Clear(s).display)
  {
  }

  /** Pressing the decimal key twice is the same as pressing it once. */
  lemma InputDecimalIdempotent<N>(s: State<N>)
    ensures InputDecimal(InputDecimal(s)) == InputDecimal(s)
  {
  }

  /** The decimal key is ignored exactly when a point is already being typed. */
  lemma InputDecimalNoOpIff<N>(s: State<N>)
    ensures InputDecimal(s) == s <==> !s.waitingForOperand && '.' in s.display
  {
  }

  /** Clear forgets the state entirely, so clearing twice is clearing once. */
  lemma ClearForgets<N>(s: State<N>, t: State<N>)
    ensures Clear(s) == Clear(t)
    ensures Clear(Clear(s)) == Clear(s)
  {
  }

  /** `=` changes the state exactly when an operand and a truthy operator are pending. */
  lemma CalculateResultNoOpIff<N>(ar: Arith<N>, s: State<N>)
    ensures CalculateResult(ar, s) == s <==> !(s.previousValue.Some? && Truthy(s.operation))
  {
  }

  /**
    With no operand pending, a non-empty operator followed directly by `=`
    combines the displayed value with itself.
  */
  lemma OperateThenEvaluate<N>(ar: Arith<N>, s: State<N>, op: string)
    requires s.previousValue.None? && op != ""
    ensures var r := CalculateResult(ar, PerformOperation(ar, s, op));
            var x := ar.parse(s.display);
            && r.display == ar.show(Calculate(ar, x, x, op))
            && r.previousValue.None? && r.operation.None? && r.waitingForOperand
  {
  }

  /**
    Operations chain left to right without precedence: a second operator
    folds the pending one first, and `=` then applies the second operator to
    that intermediate result.
  */
  lemma ChainLeftToRight<N>(ar: Arith<N>, s: State<N>, next: string, num: string)
    requires s.previousValue.Some? && Truthy(s.operation) && next != ""
    ensures var r := CalculateResult(ar, InputNumber(PerformOperation(ar, s, next), num));
            var first := Calculate(ar, Coerce(ar, s.previousValue.value), ar.parse(s.display), s.operation.value);
            r.display == ar.show(Calculate(ar, first, ar.parse(num), next))
  {
  }

}
