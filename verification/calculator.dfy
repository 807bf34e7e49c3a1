/**
  The calculator component's state and its five event handlers. Each
  handler reads the state of the current render and writes new field
  values, so each is a total function from state to state.
*/
module Calculator {
  import opened Options
  import opened DisplayText
  import opened Arithmetic

  /**
    The four fields of the component:
    - `display`: the text shown, also the buffer being typed into;
    - `previousValue`: the left operand of a pending operation;
    - `operation`: the pending operator string;
    - `waitingForOperand`: the next digit starts a new number.
  */
  datatype State<N> = State(
    display: string,
    previousValue: Option<N>,
    operation: Option<string>,
    waitingForOperand: bool)

  /** The state the component is mounted with. */
  function Initial<N>(): (r: State<N>)
    ensures r.display == "0" && NumericText(r.display)
    ensures r.previousValue.None? && r.operation.None? && !r.waitingForOperand
  {
    State("0", None, None, false)
  }

  /** JavaScript truthiness of `operation`: set and not the empty string. */
  predicate Truthy(op: Option<string>) {
    op.Some? && op.value != ""
  }

  /** `inputNumber(num)`: start a new number, or replace a lone `"0"`, or append. */
  function InputNumber<N>(s: State<N>, num: string): (r: State<N>)
    ensures r.previousValue == s.previousValue && r.operation == s.operation
    ensures !r.waitingForOperand
    ensures s.waitingForOperand ==> r.display == num
    ensures !s.waitingForOperand && s.display == "0" ==> r.display == num
    ensures !s.waitingForOperand && s.display != "0" ==> r.display == s.display + num
  {
    if s.waitingForOperand then
      s.(display := num, waitingForOperand := false)
    else
      s.(display := if s.display == "0" then num else s.display + num)
  }

  /** `inputDecimal()`: start `"0."`, or append a point unless there is one already. */
  function InputDecimal<N>(s: State<N>): (r: State<N>)
    ensures r.previousValue == s.previousValue && r.operation == s.operation
    ensures !r.waitingForOperand
    ensures s.waitingForOperand ==> r.display == "0."
    ensures !s.waitingForOperand && '.' !in s.display ==> r.display == s.display + "."
    ensures !s.waitingForOperand && '.' in s.display ==> r == s
    ensures Dots(r.display) <= 1 || r.display == s.display
  {
    if s.waitingForOperand then
      s.(display := "0.", waitingForOperand := false)
    else if IndexOf(s.display, '.') == -1 then
      assert Dots(s.display + ".") == Dots(s.display) + Dots(".") by {
        assert multiset(s.display + ".") == multiset(s.display) + multiset(".");
      }
      s.(display := s.display + ".")
    else
      s
  }

  /** `clear()`: back to the mount state, whatever the state was. */
  function Clear<N>(s: State<N>): (r: State<N>)
    ensures r == Initial()
  {
    State("0", None, None, false)
  }

  /**
    `performOperation(nextOperation)`: capture the display as the left
    operand, or fold the pending operation into it, then await the next
    operand of `next`.
  */
  function PerformOperation<N>(ar: Arith<N>, s: State<N>, next: string): (r: State<N>)
    ensures r.waitingForOperand && r.operation == Some(next)
    ensures s.previousValue.None? ==>
              r.display == s.display && r.previousValue == Some(ar.parse(s.display))
    ensures s.previousValue.Some? && !Truthy(s.operation) ==>
              r.display == s.display && r.previousValue == s.previousValue
    ensures s.previousValue.Some? && Truthy(s.operation) ==>
              var v := Calculate(ar, Coerce(ar, s.previousValue.value), ar.parse(s.display), s.operation.value);
              r.display == ar.show(v) && r.previousValue == Some(v)
  {
    var inputValue := ar.parse(s.display);
    var s' :=
      if s.previousValue.None? then
        s.(previousValue := Some(inputValue))
      else if Truthy(s.operation) then
        var currentValue := Coerce(ar, s.previousValue.value);
        var newValue := Calculate(ar, currentValue, inputValue, s.operation.value);
        s.(display := ar.show(newValue), previousValue := Some(newValue))
      else
        s;
    s'.(waitingForOperand := true, operation := Some(next))
  }

  /**
    `calculateResult()`: when an operand and a truthy operator are pending,
    show the result and forget both; otherwise nothing happens.
  */
  function CalculateResult<N>(ar: Arith<N>, s: State<N>): (r: State<N>)
    ensures !(s.previousValue.Some? && Truthy(s.operation)) ==> r == s
    ensures s.previousValue.Some? && Truthy(s.operation) ==>
              && r.display == ar.show(Calculate(ar, s.previousValue.value, ar.parse(s.display), s.operation.value))
              && r.previousValue.None? && r.operation.None? && r.waitingForOperand
  {
    var inputValue := ar.parse(s.display);
    if s.previousValue.Some? && Truthy(s.operation) then
      var newValue := Calculate(ar, s.previousValue.value, inputValue, s.operation.value);
      State(ar.show(newValue), None, None, true)
    else
      s
  }

}
