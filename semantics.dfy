/** What one instruction does (the `execute` method of every opcode class in opcode.py),
    stated on values: the machine state is a record, and `Exec` maps it to its successor. */
module Semantics {
  import opened Base
  import opened Words
  import opened Operands
  import opened Opcodes
  import opened InOut

  /** The whole machine: program counter, the eight registers, the stack (top at the end, as
      a deque used with `append`/`pop`), the sparse memory, and the terminal. */
  datatype State = State(pc: nat, regs: seq<nat>, stack: seq<nat>, mem: map<nat, nat>, term: TermState)

  predicate WellFormed(s: State)
  {
    |s.regs| == RegisterCount
  }

  /** The machine right after loading: registers zero, stack empty, `pc` at 0. */
  function Initial(memory: map<nat, nat>, script: seq<string>): (s: State)
    ensures WellFormed(s)
  {
    State(0, [0, 0, 0, 0, 0, 0, 0, 0], [], memory, TermState("", script, []))
  }

  datatype Outcome = Continue | Halted | Fault(kind: FaultKind, at: nat)

  datatype StepResult = StepResult(outcome: Outcome, next: State)

  /** How an instruction that does not fault at once ends: the run goes on in `t`, stops in
      `t`, or faults after having changed `t` (only `in`, whose console read consumes lines). */
  datatype Transition = Next(t: State) | Stop(t: State) | Abort(t: State, kind: FaultKind)

  /** Operand word `memory[pc + k]`; a missing key is the dictionary's `KeyError`. */
  function Word(s: State, k: nat): Result<nat>
  {
    if s.pc + k in s.mem then Ok(s.mem[s.pc + k]) else Err(UndefinedAddress)
  }

  /** A source operand, `read_interpret`. */
  function Value(raw: nat, s: State): Result<nat>
    requires WellFormed(s)
  {
    OrFail(ReadInterpret(raw, s.regs), InvalidOperand)
  }

  /** A destination operand, `imm_interpret` followed by the register/memory test. */
  function Target(raw: nat): Result<Dest>
  {
    var a :- OrFail(ImmInterpret(raw), InvalidOperand);
    Ok(DestOf(a))
  }

  /** Writes `v` to a register or a memory key. */
  function Store(s: State, d: Dest, v: nat): (t: State)
    requires WellFormed(s)
    ensures WellFormed(t)
  {
    match d
    case Reg(i) => s.(regs := s.regs[i := v])
    case Cell(a) => s.(mem := s.mem[a := v])
  }

  /** The content of a location, if it has one. */
  function Load(s: State, d: Dest): Option<nat>
    requires WellFormed(s)
  {
    match d
    case Reg(i) => Some(s.regs[i])
    case Cell(a) => if a in s.mem then Some(s.mem[a]) else None
  }

  predicate IsBinary(op: Op)
  {
    op in {Eq, Gt, Add, Mult, Mod, And, Or}
  }

  /** The value a three-operand opcode stores, computed as the source computes it. */
  function Compute(op: Op, b: nat, c: nat): (r: Result<nat>)
    requires IsBinary(op)
    ensures r.Err? <==> op == Mod && c == 0
    ensures r.Err? ==> r.fault == DivideByZero
    ensures r.Ok? ==> IsWord(r.value)
  {
    match op
    case Eq => Ok(if b == c then 1 else 0)
    case Gt => Ok(if b > c then 1 else 0)
    case Add => Ok((b + c) % Modulus)
    case Mult => Ok((b * c) % Modulus)
    case Mod => if c == 0 then Err(DivideByZero) else Ok((b % c) % Modulus)
    case And => Ok(BitAnd(b, c) % Modulus)
    case Or => Ok(BitOr(b, c) % Modulus)
  }

  /** The instruction set's own definition of those results on words, without the source's
      extra reductions. For `eq`, `gt`, `add` and `mult` this is the same expression as in
      `Compute`; it departs from it for `mod`, `and` and `or`, where `Compute` reduces once
      more modulo 32768. */
  function IsaValue(op: Op, b: nat, c: nat): nat
    requires IsBinary(op) && (op == Mod ==> c != 0)
  {
    match op
    case Eq => if b == c then 1 else 0
    case Gt => if b > c then 1 else 0
    case Add => (b + c) % Modulus
    case Mult => (b * c) % Modulus
    case Mod => b % c
    case And => BitAnd(b, c)
    case Or => BitOr(b, c)
  }

  /** The effect of a three-operand opcode: destination, two source operands, width 4. */
  function BinaryEffect(op: Op, s: State): (r: Result<Transition>)
    requires WellFormed(s) && IsBinary(op)
    ensures r.Ok? ==> WellFormed(r.value.t)
  {
    var ra :- Word(s, 1);
    var rb :- Word(s, 2);
    var rc :- Word(s, 3);
    var d :- Target(ra);
    var b :- Value(rb, s);
    var c :- Value(rc, s);
    var v :- Compute(op, b, c);
    Ok(Next(Store(s, d, v).(pc := s.pc + 4)))
  }

  /** The effect of executing `op` at `s.pc`. Operand words are fetched in order first
      (a missing one fails like the dictionary lookup), then decoded. */
  function Effect(op: Op, s: State): (r: Result<Transition>)
    requires WellFormed(s)
    ensures r.Ok? ==> WellFormed(r.value.t)
  {
    match op
    case Halt => Ok(Stop(s.(pc := s.pc + 1)))
    case Noop => Ok(Next(s.(pc := s.pc + 1)))
    case Set =>
      var ra :- Word(s, 1);
      var a :- OrFail(ImmInterpret(ra), InvalidOperand);
      var rb :- Word(s, 2);
      var b :- Value(rb, s);
      // opcode.py:35,38 indexes `registers` with `a - 32768`; only a register is a destination.
      if !IsRegisterRef(a) then Err(InvalidOperand)
      else Ok(Next(Store(s, Reg(a - RegisterBase), b).(pc := s.pc + 3)))
    case Push =>
      var ra :- Word(s, 1);
      var a :- Value(ra, s);
      Ok(Next(s.(stack := s.stack + [a], pc := s.pc + 2)))
    case Pop =>
      var ra :- Word(s, 1);
      var d :- Target(ra);
      // opcode.py:66-68 stores 0 and stops on an empty stack; that is `PopAsWritten`.
      if s.stack == [] then Err(StackUnderflow)
      else
        var top := s.stack[|s.stack| - 1];
        Ok(Next(Store(s.(stack := s.stack[..|s.stack| - 1], pc := s.pc + 2), d, top)))
    case Eq | Gt | Add | Mult | Mod | And | Or => BinaryEffect(op, s)
    case Jmp =>
      var ra :- Word(s, 1);
      var a :- Value(ra, s);
      Ok(Next(s.(pc := a)))
    case Jt =>
      var ra :- Word(s, 1);
      var rb :- Word(s, 2);
      var a :- Value(ra, s);
      var b :- Value(rb, s);
      Ok(Next(s.(pc := if a != 0 then b else s.pc + 3)))
    case Jf =>
      var ra :- Word(s, 1);
      var rb :- Word(s, 2);
      var a :- Value(ra, s);
      var b :- Value(rb, s);
      Ok(Next(s.(pc := if a == 0 then b else s.pc + 3)))
    case Not =>
      var ra :- Word(s, 1);
      var rb :- Word(s, 2);
      var d :- Target(ra);
      var b :- Value(rb, s);
      Ok(Next(Store(s, d, Not15(b)).(pc := s.pc + 3)))
    case Rmem =>
      var ra :- Word(s, 1);
      var rb :- Word(s, 2);
      var d :- Target(ra);
      var b :- Value(rb, s);
      if b !in s.mem then Err(UndefinedAddress)
      else Ok(Next(Store(s, d, s.mem[b] % Modulus).(pc := s.pc + 3)))
    case Wmem =>
      var ra :- Word(s, 1);
      var rb :- Word(s, 2);
      var a :- Value(ra, s);
      var b :- Value(rb, s);
      // The target is decoded in value mode (opcode.py:302) and then checked against the register range.
      Ok(Next(Store(s, DestOf(a), b % Modulus).(pc := s.pc + 3)))
    case Call =>
      var ra :- Word(s, 1);
      var a :- Value(ra, s);
      Ok(Next(s.(stack := s.stack + [s.pc + 2], pc := a)))
    case Ret =>
      // opcode.py:335-337 falls through to pc + 1 on an empty stack; that is `RetAsWritten`.
      if s.stack == [] then Err(StackUnderflow)
      else Ok(Next(s.(stack := s.stack[..|s.stack| - 1], pc := s.stack[|s.stack| - 1])))
    case Out =>
      var ra :- Word(s, 1);
      // opcode.py:349 decodes in raw mode; that is `OutAsWritten`.
      var a :- Value(ra, s);
      Ok(Next(s.(term := s.term.(written := s.term.written + [a]), pc := s.pc + 2)))
    case In =>
      var ra :- Word(s, 1);
      var d :- Target(ra);
      // opcode.py:362-364 is a stub that stops the run; that is `InAsWritten`.
      var (w, t) := ReadWord(s.term);
      if w.None? then Ok(Abort(s.(term := t), InputExhausted))
      else Ok(Next(Store(s.(term := t), d, w.value).(pc := s.pc + 2)))
    case Undefined => Err(InvalidOpcode)
  }

  /** One fetch-dispatch-execute step. A fault reports the instruction's address. */
  function Exec(s: State): (r: StepResult)
    requires WellFormed(s)
    ensures WellFormed(r.next)
  {
    match Dispatch(s.pc, s.mem)
    case Err(k) => StepResult(Fault(k, s.pc), s)
    case Ok(op) =>
      match Effect(op, s)
      case Err(k) => StepResult(Fault(k, s.pc), s)
      case Ok(Next(t)) => StepResult(Continue, t)
      case Ok(Stop(t)) => StepResult(Halted, t)
      case Ok(Abort(t, k)) => StepResult(Fault(k, s.pc), t)
  }

  /** One unfolding of `RunSpec`, so that callers need not look into `Exec`. */
  lemma RunSpecUnfold(s: State, fuel: nat)
    requires WellFormed(s) && fuel > 0
    ensures RunSpec(s, fuel) == if Exec(s).outcome.Continue? then RunSpec(Exec(s).next, fuel - 1) else Exec(s)
  {
  }

  /** Up to `fuel` steps, stopping at the first halt or fault. */
  function RunSpec(s: State, fuel: nat): (r: StepResult)
    requires WellFormed(s)
    ensures WellFormed(r.next)
    ensures fuel == 0 ==> r == StepResult(Continue, s)
    ensures fuel > 0 && !Exec(s).outcome.Continue? ==> r == Exec(s)
    decreases fuel, 0
  {
    if fuel == 0 then StepResult(Continue, s) else RunFrom(Exec(s), fuel - 1)
  }

  /** The rest of a run after a step with result `r`, with `fuel` steps left. */
  function RunFrom(r: StepResult, fuel: nat): (q: StepResult)
    requires WellFormed(r.next)
    ensures WellFormed(q.next)
    decreases fuel, 1
  {
    if r.outcome.Continue? then RunSpec(r.next, fuel) else r
  }

  /** A step that continues hands the rest of the run to its result. */
  lemma RunFromStep(s: State, r: StepResult, fuel: nat)
    requires WellFormed(s) && fuel > 0 && r == Exec(s)
    ensures RunFrom(StepResult(Continue, s), fuel) == RunFrom(r, fuel - 1)
  {
  }

  /** With no fuel left, or once the run has halted or faulted, the rest of the run is the
      step result itself. */
  lemma RunFromDone(r: StepResult, fuel: nat)
    requires WellFormed(r.next) && (fuel == 0 || !r.outcome.Continue?)
    ensures RunFrom(r, fuel) == r
  {
  }

  // ---------------------------------------------------------------------------------------
  // The source as written, where it departs from the instruction set

  /** The register `SetOpcode.execute` writes for a raw-mode destination `a`: Python indexes
      the 8-element list with `a - 32768`, and a negative index counts from the end. */
  function SetIndexAsWritten(a: nat): (r: Option<RegIndex>)
    ensures r.Some? <==> RegisterBase - RegisterCount <= a < RegisterBase + RegisterCount
    ensures IsRegisterRef(a) ==> r == Some(a - RegisterBase)
    ensures r.Some? && a < RegisterBase ==> r.value == a - (RegisterBase - RegisterCount)
  {
    var index := a - RegisterBase;
    if -8 <= index < 0 then Some(index + 8)
    else if 0 <= index < 8 then Some(index)
    else None
  }

  /** `PopOpcode.execute` as written: on an empty stack it stores 0 at the destination and
      stops the run (opcode.py:66-75). */
  function PopAsWritten(s: State): (r: Result<Transition>)
    requires WellFormed(s)
    ensures s.stack != [] ==> r == Effect(Pop, s)
    ensures s.stack == [] && r.Ok? ==> r.value.Stop? && r.value.t.stack == [] && r.value.t.pc == s.pc + 2
    ensures s.stack == [] ==> (r.Ok? <==> Effect(Pop, s) == Err(StackUnderflow))
  {
    var ra :- Word(s, 1);
    var d :- Target(ra);
    if s.stack == [] then Ok(Stop(Store(s, d, 0).(pc := s.pc + 2)))
    else
      var top := s.stack[|s.stack| - 1];
      Ok(Next(Store(s.(stack := s.stack[..|s.stack| - 1], pc := s.pc + 2), d, top)))
  }

  /** `OutOpcode.execute` as written: the operand in raw mode (opcode.py:349). */
  function OutAsWritten(s: State): (r: Result<Transition>)
    requires WellFormed(s)
    ensures r.Ok? <==> Effect(Out, s).Ok?
    ensures Word(s, 1).Ok? && Word(s, 1).value <= MaxWord ==> r == Effect(Out, s)
    ensures r.Ok? ==> r.value == Next(s.(term := s.term.(written := s.term.written + [s.mem[s.pc + 1]]), pc := s.pc + 2))
  {
    var ra :- Word(s, 1);
    var a :- OrFail(ImmInterpret(ra), InvalidOperand);
    Ok(Next(s.(term := s.term.(written := s.term.written + [a]), pc := s.pc + 2)))
  }

  /** `ReturnOpcode.execute` as written: an empty stack continues at pc + 1 (opcode.py:335-337). */
  function RetAsWritten(s: State): (r: Result<Transition>)
    requires WellFormed(s)
    ensures r.Ok? && r.value.Next?
    ensures s.stack != [] ==> r == Effect(Ret, s)
    ensures s.stack == [] ==> r.value.t == s.(pc := s.pc + 1) && Effect(Ret, s) == Err(StackUnderflow)
  {
    if s.stack == [] then Ok(Next(s.(pc := s.pc + 1)))
    else Ok(Next(s.(stack := s.stack[..|s.stack| - 1], pc := s.stack[|s.stack| - 1])))
  }

  /** `InOpcode.execute` as written: reads its operand word and stops (opcode.py:362-364). */
  function InAsWritten(s: State): (r: Result<Transition>)
    ensures r.Ok? <==> s.pc + 1 in s.mem
    ensures r.Ok? ==> r.value.Stop? && r.value.t.term == s.term && r.value.t.pc == s.pc + 2
  {
    var _ :- Word(s, 1);
    Ok(Stop(s.(pc := s.pc + 2)))
  }
}
