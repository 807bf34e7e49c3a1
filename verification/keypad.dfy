/**
  The keypad: each button of the component sends one event to one handler.
  A run of button presses is a fold of `Step` over the key sequence.
*/
module Keypad {
  import opened Options
  import opened DisplayText
  import opened Arithmetic
  import opened Calculator

  /** One button press. */
  datatype Key = Digit(d: char) | Point | ClearAll | Operator(op: string) | Equals

  /** The button grid, row by row: C, /, *, 7, 8, 9, -, 4, 5, 6, +, 1, 2, 3, =, 0, `.`. */
  const Buttons: seq<Key> := [
    ClearAll, Operator("/"), Operator("*"),
    Digit('7'), Digit('8'), Digit('9'), Operator("-"),
    Digit('4'), Digit('5'), Digit('6'), Operator("+"),
    Digit('1'), Digit('2'), Digit('3'), Equals,
    Digit('0'), Point]

  /** A key the button grid can send: a decimal digit, or one of the four operators. */
  predicate ValidKey(k: Key) {
    match k
    case Digit(d) => IsDigit(d)
    case Operator(op) => Recognise(op).Some?
    case _ => true
  }

  predicate AllValid(keys: seq<Key>) {
    forall i :: 0 <= i < |keys| ==> ValidKey(keys[i])
  }

  /**
    Dispatch a button press to its handler. Digit and decimal keys only
    edit the number being typed; an operator key always leaves that
    operator pending; clear always remounts; `=` either changes nothing or
    leaves nothing pending.
  */
  function Step<N>(ar: Arith<N>, s: State<N>, k: Key): (r: State<N>)
    ensures (k.Digit? || k.Point?) ==>
              r.previousValue == s.previousValue && r.operation == s.operation && !r.waitingForOperand
    ensures k.Operator? ==> r.operation == Some(k.op) && r.previousValue.Some? && r.waitingForOperand
    ensures k.ClearAll? ==> r == Initial()
    ensures k.Equals? ==> r == s || (r.previousValue.None? && r.operation.None? && r.waitingForOperand)
  {
    match k
    case Digit(d) => InputNumber(s, [d])
    case Point => InputDecimal(s)
    case ClearAll => Clear(s)
    case Operator(op) => PerformOperation(ar, s, op)
    case Equals => CalculateResult(ar, s)
  }

  /** The state after pressing `keys` in order, starting from `s`. */
  function Run<N>(ar: Arith<N>, s: State<N>, keys: seq<Key>): State<N>
    decreases |keys|
  {
    if keys == [] then s else Run(ar, Step(ar, s, keys[0]), keys[1..])
  }

  /** The key presses that type the characters of `ds`: `Digit(ds[i])`, in order, one per character. */
  function DigitKeys(ds: string): (r: seq<Key>)
    ensures |r| == |ds|
  {
    if ds == [] then [] else [Digit(ds[0])] + DigitKeys(ds[1..])
  }

}
