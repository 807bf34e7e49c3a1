/**
  Properties of key sequences: what a run of digits leaves on the display,
  the invariant every reachable state satisfies, and the worked examples of
  the calculator's behaviour.
*/
module KeypadProperties {
  import opened Options
  import opened DisplayText
  import opened Arithmetic
  import opened Calculator
  import opened HandlerProperties
  import opened Keypad

  /** Pressing `k` and then `rest` is stepping once and running the rest. */
  lemma RunCons<N>(ar: Arith<N>, s: State<N>, k: Key, rest: seq<Key>)
    ensures Run(ar, s, [k] + rest) == Run(ar, Step(ar, s, k), rest)
  {
  }

  /** Pressing `a` and then `b` is running `b` from where `a` left off. */
  lemma {:induction false} RunAppend<N>(ar: Arith<N>, s: State<N>, a: seq<Key>, b: seq<Key>)
    ensures Run(ar, s, a + b) == Run(ar, Run(ar, s, a), b)
    decreases |a|
  {
    if a == [] {
      assert a + b == b;
    } else {
      assert a + b == [a[0]] + (a[1..] + b);
      RunCons(ar, s, a[0], a[1..] + b);
      RunAppend(ar, Step(ar, s, a[0]), a[1..], b);
    }
  }

  /** The first digit key, pressed, and the remaining digit keys. */
  lemma DigitRunCons<N>(ar: Arith<N>, s: State<N>, ds: string)
    requires ds != []
    ensures Run(ar, s, DigitKeys(ds)) == Run(ar, InputNumber(s, [ds[0]]), DigitKeys(ds[1..]))
  {
  }

  /**
    Typing digits while no operand is awaited onto a display other than
    `"0"` appends them; nothing but the display changes.
  */
  lemma {:induction false} DigitRunAppends<N>(ar: Arith<N>, s: State<N>, ds: string)
    requires !s.waitingForOperand && s.display != "" && s.display != "0"
    ensures var r := Run(ar, s, DigitKeys(ds));
            && r.display == s.display + ds
            && r.previousValue == s.previousValue && r.operation == s.operation
            && !r.waitingForOperand
    decreases |ds|
  {
    if ds == [] {
      assert s.display + ds == s.display;
    } else {
      var s1 := InputNumber(s, [ds[0]]);
      assert s1.display == s.display + [ds[0]];
      assert |s1.display| >= 2;
      DigitRunCons(ar, s, ds);
      DigitRunAppends(ar, s1, ds[1..]);
      assert s.display + [ds[0]] + ds[1..] == s.display + ds;
    }
  }

  /**
    Typing digits while no operand is awaited onto a display of `"0"`
    replaces it: leading zeros vanish and the rest of the digits follow.
  */
  lemma {:induction false} DigitRunFromZero<N>(ar: Arith<N>, s: State<N>, ds: string)
    requires !s.waitingForOperand && s.display == "0"
    ensures var r := Run(ar, s, DigitKeys(ds));
            && r.display == Typed(ds)
            && r.previousValue == s.previousValue && r.operation == s.operation
            && !r.waitingForOperand
    decreases |ds|
  {
    if ds != [] {
      var s1 := InputNumber(s, [ds[0]]);
      assert s1.display == [ds[0]];
      DigitRunCons(ar, s, ds);
      if ds[0] == '0' {
        DigitRunFromZero(ar, s1, ds[1..]);
      } else {
        assert s1.display != "0";
        DigitRunAppends(ar, s1, ds[1..]);
        assert [ds[0]] + ds[1..] == ds;
      }
    }
  }

  /**
    Typing a non-empty run of digits right after an operator or `=` shows
    exactly those digits, leading zeros dropped.
  */
  lemma {:induction false} DigitRunAfterOperator<N>(ar: Arith<N>, s: State<N>, ds: string)
    requires s.waitingForOperand && ds != []
    ensures var r := Run(ar, s, DigitKeys(ds));
            && r.display == Typed(ds)
            && r.previousValue == s.previousValue && r.operation == s.operation
            && !r.waitingForOperand
  {
    var s1 := InputNumber(s, [ds[0]]);
    assert s1.display == [ds[0]];
    DigitRunCons(ar, s, ds);
    if ds[0] == '0' {
      DigitRunFromZero(ar, s1, ds[1..]);
    } else {
      assert s1.display != "0";
      DigitRunAppends(ar, s1, ds[1..]);
      assert [ds[0]] + ds[1..] == ds;
    }
  }

  /** From a freshly mounted calculator, digits show their concatenation without leading zeros. */
  lemma DigitsFromStart<N>(ar: Arith<N>, ds: string)
    ensures Run(ar, Initial(), DigitKeys(ds)).display == Typed(ds)
  {
    DigitRunFromZero(ar, Initial(), ds);
  }

  /**
    The invariant of every state the keypad can reach:
    - while a number is being typed, the display is a typed number;
    - an operand is pending exactly when an operator is;
    - a pending operator is one of the four arithmetic ones.
  */
  predicate Invariant<N>(s: State<N>) {
    && (!s.waitingForOperand ==> NumericText(s.display))
    && (s.previousValue.Some? <==> s.operation.Some?)
    && (s.operation.Some? ==> Recognise(s.operation.value).Some?)
  }

  lemma StepPreservesInvariant<N>(ar: Arith<N>, s: State<N>, k: Key)
    requires Invariant(s) && ValidKey(k)
    ensures Invariant(Step(ar, s, k))
  {
    match k
    case Digit(d) => InputNumberKeepsNumericText(s, d);
    case Point => InputDecimalKeepsNumericText(s);
    case ClearAll =>
    case Operator(op) =>
    case Equals =>
  }

  lemma {:induction false} RunPreservesInvariant<N>(ar: Arith<N>, s: State<N>, keys: seq<Key>)
    requires Invariant(s) && AllValid(keys)
    ensures Invariant(Run(ar, s, keys))
    decreases |keys|
  {
    if keys != [] {
      StepPreservesInvariant(ar, s, keys[0]);
      assert AllValid(keys[1..]) by {
        forall i | 0 <= i < |keys[1..]|
          ensures ValidKey(keys[1..][i])
        {
          assert keys[1..][i] == keys[i + 1];
        }
      }
      RunPreservesInvariant(ar, Step(ar, s, keys[0]), keys[1..]);
    }
  }

  /** Every button of the grid sends a valid key. */
  lemma ButtonsAreValid()
    ensures AllValid(Buttons)
  {
  }

  /** Each digit has its button. */
  lemma DigitButton(d: char)
    requires IsDigit(d)
    ensures Digit(d) in Buttons
  {
    var i := [15, 11, 12, 13, 7, 8, 9, 3, 4, 5][d as int - '0' as int];
    assert Buttons[i] == Digit(d);
  }

  /** Each arithmetic operator has its button. */
  lemma OperatorButton(o: BinOp)
    ensures Operator(Symbol(o)) in Buttons
  {
    match o
    case Add => assert Buttons[10] == Operator("+");
    case Sub => assert Buttons[6] == Operator("-");
    case Mul => assert Buttons[2] == Operator("*");
    case Div => assert Buttons[1] == Operator("/");
  }

  /**
    The grid has one button per digit, one per arithmetic operator, and the
    decimal, clear and `=` buttons: seventeen in all.
  */
  lemma ButtonsCoverKeys()
    ensures |Buttons| == 17
    ensures forall d :: IsDigit(d) ==> Digit(d) in Buttons
    ensures forall o :: Operator(Symbol(o)) in Buttons
    ensures Point in Buttons && ClearAll in Buttons && Equals in Buttons
  {
    forall d | IsDigit(d)
      ensures Digit(d) in Buttons
    {
      DigitButton(d);
    }
    forall o: BinOp
      ensures Operator(Symbol(o)) in Buttons
    {
      OperatorButton(o);
    }
    assert Buttons[16] == Point && Buttons[0] == ClearAll && Buttons[14] == Equals;
  }

  /**
    Whatever buttons are pressed from mount, the state satisfies the
    invariant; in particular `=` with a pending operand always computes
    with one of the four operators.
  */
  lemma Reachable<N>(ar: Arith<N>, keys: seq<Key>)
    requires AllValid(keys)
    ensures var r := Run(ar, Initial(), keys);
            && Invariant(r)
            && (r.previousValue.Some? ==> Truthy(r.operation))
  {
    RunPreservesInvariant(ar, Initial(), keys);
  }

  predicate NoOperator(keys: seq<Key>) {
    forall i :: 0 <= i < |keys| ==> !keys[i].Operator?
  }

  /** Without an operator key, no operand becomes pending, so `=` does nothing. */
  lemma {:induction false} NoOperatorNoPending<N>(ar: Arith<N>, s: State<N>, keys: seq<Key>)
    requires s.previousValue.None? && NoOperator(keys)
    ensures var r := Run(ar, s, keys);
            r.previousValue.None? && CalculateResult(ar, r) == r
    decreases |keys|
  {
    if keys != [] {
      assert !keys[0].Operator?;
      assert NoOperator(keys[1..]) by {
        forall i | 0 <= i < |keys[1..]|
          ensures !keys[1..][i].Operator?
        {
          assert keys[1..][i] == keys[i + 1];
        }
      }
      NoOperatorNoPending(ar, Step(ar, s, keys[0]), keys[1..]);
    }
  }

  /** 5 + 3 = shows the sum of 5 and 3. */
  lemma FivePlusThree<N>(ar: Arith<N>)
    ensures var r := Run(ar, Initial(), [Digit('5'), Operator("+"), Digit('3'), Equals]);
            && r.display == ar.show(ar.add(ar.parse("5"), ar.parse("3")))
            && r.previousValue.None? && r.operation.None? && r.waitingForOperand
  {
    var s1 := Step(ar, Initial(), Digit('5'));
    var s2 := Step(ar, s1, Operator("+"));
    var s3 := Step(ar, s2, Digit('3'));
    RunCons(ar, Initial(), Digit('5'), [Operator("+"), Digit('3'), Equals]);
    RunCons(ar, s1, Operator("+"), [Digit('3'), Equals]);
    RunCons(ar, s2, Digit('3'), [Equals]);
    RunCons(ar, s3, Equals, []);
  }

  /** 1 + 2 * 3 = evaluates as (1 + 2) * 3: no operator precedence. */
  lemma OnePlusTwoTimesThree<N>(ar: Arith<N>)
    ensures var r := Run(ar, Initial(), [Digit('1'), Operator("+"), Digit('2'), Operator("*"), Digit('3'), Equals]);
            r.display == ar.show(ar.mul(ar.add(Coerce(ar, ar.parse("1")), ar.parse("2")), ar.parse("3")))
  {
    var s1 := Step(ar, Initial(), Digit('1'));
    var s2 := Step(ar, s1, Operator("+"));
    var s3 := Step(ar, s2, Digit('2'));
    var s4 := Step(ar, s3, Operator("*"));
    var s5 := Step(ar, s4, Digit('3'));
    RunCons(ar, Initial(), Digit('1'), [Operator("+"), Digit('2'), Operator("*"), Digit('3'), Equals]);
    RunCons(ar, s1, Operator("+"), [Digit('2'), Operator("*"), Digit('3'), Equals]);
    RunCons(ar, s2, Digit('2'), [Operator("*"), Digit('3'), Equals]);
    RunCons(ar, s3, Operator("*"), [Digit('3'), Equals]);
    RunCons(ar, s4, Digit('3'), [Equals]);
    RunCons(ar, s5, Equals, []);
  }

  /** 7 / 0 = shows whatever the platform makes of the quotient; no error state exists. */
  lemma SevenOverZero<N>(ar: Arith<N>)
    ensures var r := Run(ar, Initial(), [Digit('7'), Operator("/"), Digit('0'), Equals]);
            && r.display == ar.show(ar.div(ar.parse("7"), ar.parse("0")))
            && r.previousValue.None? && r.operation.None? && r.waitingForOperand
  {
    var s1 := Step(ar, Initial(), Digit('7'));
    var s2 := Step(ar, s1, Operator("/"));
    var s3 := Step(ar, s2, Digit('0'));
    RunCons(ar, Initial(), Digit('7'), [Operator("/"), Digit('0'), Equals]);
    RunCons(ar, s1, Operator("/"), [Digit('0'), Equals]);
    RunCons(ar, s2, Digit('0'), [Equals]);
    RunCons(ar, s3, Equals, []);
  }

}
