/**
  The arithmetic the calculator delegates to the JavaScript number type,
  kept abstract: a number type `N` together with the operations the
  component uses on it.
*/
module Arithmetic {
  import opened Options

  /**
    The number operations of the platform.
    - `parse` is `Number.parseFloat`, `show` is `String(number)`;
    - `add`, `sub`, `mul`, `div` are the four binary operators;
    - `truthy` and `zero` give `x || 0` its meaning (`Coerce`).
  */
  datatype Arith<!N> = Arith(
    parse: string -> N,
    show: N -> string,
    add: (N, N) -> N,
    sub: (N, N) -> N,
    mul: (N, N) -> N,
    div: (N, N) -> N,
    truthy: N -> bool,
    zero: N)

  /** The value of `x || 0`. */
  function Coerce<N>(ar: Arith<N>, x: N): N {
    if ar.truthy(x) then x else ar.zero
  }

  /** The four arithmetic operators the keypad offers. */
  datatype BinOp = Add | Sub | Mul | Div

  /** The operator string the keypad sends for each operator. */
  function Symbol(o: BinOp): string {
    match o
    case Add => "+"
    case Sub => "-"
    case Mul => "*"
    case Div => "/"
  }

  /** The arithmetic operator an operator string names, if any. */
  function Recognise(op: string): (r: Option<BinOp>)
    ensures r.Some? ==> Symbol(r.value) == op
    ensures r.None? ==> forall o :: Symbol(o) != op
  {
    if op == "+" then Some(Add)
    else if op == "-" then Some(Sub)
    else if op == "*" then Some(Mul)
    else if op == "/" then Some(Div)
    else None
  }

  lemma RecogniseSymbol(o: BinOp)
    ensures Recognise(Symbol(o)) == Some(o)
  {
  }

  /** Apply one arithmetic operator. */
  function Apply<N>(ar: Arith<N>, o: BinOp, a: N, b: N): N {
    match o
    case Add => ar.add(a, b)
    case Sub => ar.sub(a, b)
    case Mul => ar.mul(a, b)
    case Div => ar.div(a, b)
  }

  /**
    `calculate(firstValue, secondValue, operation)`: the four arithmetic
    operators dispatch to the platform operation; `"="` and every other
    string give back the second operand.
  */
  function Calculate<N>(ar: Arith<N>, a: N, b: N, op: string): (r: N)
    ensures Recognise(op).Some? ==> r == Apply(ar, Recognise(op).value, a, b)
    ensures Recognise(op).None? ==> r == b
  {
    if op == "+" then ar.add(a, b)
    else if op == "-" then ar.sub(a, b)
    else if op == "*" then ar.mul(a, b)
    else if op == "/" then ar.div(a, b)
    else if op == "=" then b
    else b
  }

}
