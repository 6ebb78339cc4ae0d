/** Shared result wrappers and the machine's fault taxonomy. */
module Base {

  datatype Option<+T> = None | Some(value: T)

  /** The ways a run can stop other than by `halt`. */
  datatype FaultKind =
    | InvalidOperand     // a raw operand in 32776.. or a destination that is not allowed
    | InvalidOpcode      // an opcode number outside 0..21
    | StackUnderflow     // `pop` or `ret` on an empty stack
    | DivideByZero       // `mod` with a zero divisor
    | UndefinedAddress   // a read of a memory key that was never loaded or written
    | InputExhausted     // `in` when the scripted input has no further non-empty line

  /** A failure-compatible result: either a value or the fault that stopped the computation. */
  datatype Result<+T> = Ok(value: T) | Err(fault: FaultKind) {
    predicate IsFailure() { Err? }

    function PropagateFailure<U>(): Result<U>
      requires Err?
    {
      Err(fault)
    }

    function Extract(): T
      requires Ok?
    {
      value
    }
  }

  /** Turns an absent value into the given fault. */
  function OrFail<T>(o: Option<T>, kind: FaultKind): (r: Result<T>)
    ensures r.Ok? <==> o.Some?
    ensures r.Ok? ==> r.value == o.value
    ensures r.Err? ==> r.fault == kind
  {
    match o
    case Some(v) => Ok(v)
    case None => Err(kind)
  }
}
