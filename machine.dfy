/** The machine as the source holds it: registers in a fixed array, the stack and memory
    reassigned in place, and one `execute` method per opcode class, each proved to do what
    `Semantics.Effect` says. */
module Vm {
  import opened Base
  import opened Words
  import opened Operands
  import opened Opcodes
  import opened InOut
  import opened Semantics

  /** How an `execute` method ends: the run goes on, stops, or fails. */
  datatype Status = Running | Stopped | Failed(kind: FaultKind)

  /** `status` and `after` are what effect `e` promises for a step that starts in `before`. */
  ghost predicate Performs(e: Result<Transition>, before: State, status: Status, after: State)
  {
    match e
    case Err(k) => status == Failed(k) && after == before
    case Ok(Next(t)) => status == Running && after == t
    case Ok(Stop(t)) => status == Stopped && after == t
    case Ok(Abort(t, k)) => status == Failed(k) && after == t
  }

  class Machine {
    var pc: nat
    const registers: array<nat>
    var stack: seq<nat>
    var memory: map<nat, nat>
    const term: Terminal

    ghost predicate Valid()
      reads this
    {
      registers.Length == RegisterCount
    }

    /** The machine's state as a value. */
    function Snapshot(): (s: State)
      requires Valid()
      reads this, registers, term
      ensures WellFormed(s)
    {
      State(pc, registers[..], stack, memory, term.State())
    }

    /** A machine over a loaded memory image, talking to a terminal fed by `script`. */
    constructor (image: map<nat, nat>, script: seq<string>)
      ensures Valid() && fresh(registers) && fresh(term)
      ensures Snapshot() == Initial(image, script)
    {
      pc := 0;
      registers := new nat[RegisterCount](_ => 0);
      stack := [];
      memory := image;
      term := new Terminal(script);
      new;
      assert registers[..] == [0, 0, 0, 0, 0, 0, 0, 0];
    }

    /** `memory[pc + k]`. */
    method Fetch(k: nat) returns (r: Result<nat>)
      requires Valid()
      ensures r == Word(Snapshot(), k)
    {
      if pc + k in memory {
        r := Ok(memory[pc + k]);
      } else {
        r := Err(UndefinedAddress);
      }
    }

    /** The write of a result: `registers[a - 32768] = res` or `memory[a] = res`. */
    method StoreAt(d: Dest, v: nat)
      requires Valid()
      modifies this, registers
      ensures Valid()
      ensures Snapshot() == Store(old(Snapshot()), d, v)
    {
      match d
      case Reg(i) =>
        registers[i] := v;
      case Cell(a) =>
        memory := memory[a := v];
    }

    /** `SetOpcode.execute`. */
    method ExecSet() returns (status: Status)
      requires Valid()
      modifies this, registers
      ensures Valid()
      ensures Performs(Effect(Set, old(Snapshot())), old(Snapshot()), status, Snapshot())
    {
      var ra := Fetch(1);
      if ra.Err? { return Failed(ra.fault); }
      var a := ImmInterpret(ra.value);
      if a.None? { return Failed(InvalidOperand); }
      var rb := Fetch(2);
      if rb.Err? { return Failed(rb.fault); }
      var b := ReadInterpret(rb.value, registers[..]);
      if b.None? { return Failed(InvalidOperand); }
      if !IsRegisterRef(a.value) { return Failed(InvalidOperand); }
      registers[a.value - RegisterBase] := b.value;
      pc := pc + 3;
      status := Running;
    }

    /** `PushOpcode.execute`. */
    method ExecPush() returns (status: Status)
      requires Valid()
      modifies this
      ensures Valid()
      ensures Performs(Effect(Push, old(Snapshot())), old(Snapshot()), status, Snapshot())
    {
      var ra := Fetch(1);
      if ra.Err? { return Failed(ra.fault); }
      var a := ReadInterpret(ra.value, registers[..]);
      if a.None? { return Failed(InvalidOperand); }
      stack := stack + [a.value];
      pc := pc + 2;
      status := Running;
    }

    /** `PopOpcode.execute`. */
    method ExecPop() returns (status: Status)
      requires Valid()
      modifies this, registers
      ensures Valid()
      ensures Performs(Effect(Pop, old(Snapshot())), old(Snapshot()), status, Snapshot())
    {
      var ra := Fetch(1);
      if ra.Err? { return Failed(ra.fault); }
      var a := ImmInterpret(ra.value);
      if a.None? { return Failed(InvalidOperand); }
      if stack == [] { return Failed(StackUnderflow); }
      var top := stack[|stack| - 1];
      stack := stack[..|stack| - 1];
      pc := pc + 2;
      StoreAt(DestOf(a.value), top);
      status := Running;
    }

    /** `execute` of `eq`, `gt`, `add`, `mult`, `mod`, `and` and `or`. */
    method ExecBinary(op: Op) returns (status: Status)
      requires Valid() && IsBinary(op)
      modifies this, registers
      ensures Valid()
      ensures Performs(Effect(op, old(Snapshot())), old(Snapshot()), status, Snapshot())
    {
      assert Effect(op, Snapshot()) == BinaryEffect(op, Snapshot());
      var ra := Fetch(1);
      if ra.Err? { return Failed(ra.fault); }
      var rb := Fetch(2);
      if rb.Err? { return Failed(rb.fault); }
      var rc := Fetch(3);
      if rc.Err? { return Failed(rc.fault); }
      var a := ImmInterpret(ra.value);
      if a.None? { return Failed(InvalidOperand); }
      var b := ReadInterpret(rb.value, registers[..]);
      if b.None? { return Failed(InvalidOperand); }
      var c := ReadInterpret(rc.value, registers[..]);
      if c.None? { return Failed(InvalidOperand); }
      var x, y := b.value, c.value;
      var res: nat;
      match op {
        case Eq => res := if x == y then 1 else 0;
        case Gt => res := if x > y then 1 else 0;
        case Add => res := (x + y) % Modulus;
        case Mult => res := (x * y) % Modulus;
        case Mod =>
          if y == 0 { return Failed(DivideByZero); }
          res := (x % y) % Modulus;
        case And => res := BitAnd(x, y) % Modulus;
        case Or => res := BitOr(x, y) % Modulus;
      }
      StoreAt(DestOf(a.value), res);
      pc := pc + 4;
      status := Running;
    }

    /** `execute` of `jmp`, `jt` and `jf`. */
    method ExecJump(op: Op) returns (status: Status)
      requires Valid() && op in {Jmp, Jt, Jf}
      modifies this
      ensures Valid()
      ensures Performs(Effect(op, old(Snapshot())), old(Snapshot()), status, Snapshot())
    {
      var ra := Fetch(1);
      if ra.Err? { return Failed(ra.fault); }
      if op == Jmp {
        var a := ReadInterpret(ra.value, registers[..]);
        if a.None? { return Failed(InvalidOperand); }
        pc := a.value;
        return Running;
      }
      var rb := Fetch(2);
      if rb.Err? { return Failed(rb.fault); }
      var a := ReadInterpret(ra.value, registers[..]);
      if a.None? { return Failed(InvalidOperand); }
      var b := ReadInterpret(rb.value, registers[..]);
      if b.None? { return Failed(InvalidOperand); }
      if (op == Jt && a.value != 0) || (op == Jf && a.value == 0) {
        pc := b.value;
      } else {
        pc := pc + 3;
      }
      status := Running;
    }

    /** `execute` of `not` and `rmem`, which store a function of one source operand. */
    method ExecUnary(op: Op) returns (status: Status)
      requires Valid() && op in {Not, Rmem}
      modifies this, registers
      ensures Valid()
      ensures Performs(Effect(op, old(Snapshot())), old(Snapshot()), status, Snapshot())
    {
      var ra := Fetch(1);
      if ra.Err? { return Failed(ra.fault); }
      var rb := Fetch(2);
      if rb.Err? { return Failed(rb.fault); }
      var a := ImmInterpret(ra.value);
      if a.None? { return Failed(InvalidOperand); }
      var b := ReadInterpret(rb.value, registers[..]);
      if b.None? { return Failed(InvalidOperand); }
      var res: nat;
      if op == Not {
        res := Not15(b.value);
      } else {
        if b.value !in memory { return Failed(UndefinedAddress); }
        res := memory[b.value] % Modulus;
      }
      StoreAt(DestOf(a.value), res);
      pc := pc + 3;
      status := Running;
    }

    /** `WriteMemOpcode.execute`. */
    method ExecWmem() returns (status: Status)
      requires Valid()
      modifies this, registers
      ensures Valid()
      ensures Performs(Effect(Wmem, old(Snapshot())), old(Snapshot()), status, Snapshot())
    {
      var ra := Fetch(1);
      if ra.Err? { return Failed(ra.fault); }
      var rb := Fetch(2);
      if rb.Err? { return Failed(rb.fault); }
      var a := ReadInterpret(ra.value, registers[..]);
      if a.None? { return Failed(InvalidOperand); }
      var b := ReadInterpret(rb.value, registers[..]);
      if b.None? { return Failed(InvalidOperand); }
      StoreAt(DestOf(a.value), b.value % Modulus);
      pc := pc + 3;
      status := Running;
    }

    /** `CallOpcode.execute`. */
    method ExecCall() returns (status: Status)
      requires Valid()
      modifies this
      ensures Valid()
      ensures Performs(Effect(Call, old(Snapshot())), old(Snapshot()), status, Snapshot())
    {
      var ra := Fetch(1);
      if ra.Err? { return Failed(ra.fault); }
      var a := ReadInterpret(ra.value, registers[..]);
      if a.None? { return Failed(InvalidOperand); }
      stack := stack + [pc + 2];
      pc := a.value;
      status := Running;
    }

    /** `ReturnOpcode.execute`, with the empty stack a fault. */
    method ExecRet() returns (status: Status)
      requires Valid()
      modifies this
      ensures Valid()
      ensures Performs(Effect(Ret, old(Snapshot())), old(Snapshot()), status, Snapshot())
    {
      if stack == [] { return Failed(StackUnderflow); }
      pc := stack[|stack| - 1];
      stack := stack[..|stack| - 1];
      status := Running;
    }

    /** `OutOpcode.execute`, with its operand read in value mode. */
    method ExecOut() returns (status: Status)
      requires Valid()
      modifies this, term
      ensures Valid()
      ensures Performs(Effect(Out, old(Snapshot())), old(Snapshot()), status, Snapshot())
    {
      var ra := Fetch(1);
      if ra.Err? { return Failed(ra.fault); }
      var a := ReadInterpret(ra.value, registers[..]);
      if a.None? { return Failed(InvalidOperand); }
      term.written := term.written + [a.value];
      pc := pc + 2;
      status := Running;
    }

    /** `InOpcode.execute`, reading one word from the terminal into its destination. */
    method ExecIn() returns (status: Status)
      requires Valid()
      modifies this, registers, term
      ensures Valid()
      ensures Performs(Effect(In, old(Snapshot())), old(Snapshot()), status, Snapshot())
    {
      var ra := Fetch(1);
      if ra.Err? { return Failed(ra.fault); }
      var a := ImmInterpret(ra.value);
      if a.None? { return Failed(InvalidOperand); }
      var w := term.InputWord();
      if w.None? { return Failed(InputExhausted); }
      StoreAt(DestOf(a.value), w.value);
      pc := pc + 2;
      status := Running;
    }

    /** One step: `dispatch`, then the opcode's `execute`. */
    method Step() returns (outcome: Outcome)
      requires Valid()
      modifies this, registers, term
      ensures Valid()
      ensures StepResult(outcome, Snapshot()) == Exec(old(Snapshot()))
    {
      var at := pc;
      if pc !in memory { return Fault(UndefinedAddress, at); }
      var op := Table(memory[pc]);
      var status: Status;
      match op {
        case Halt =>
          pc := pc + 1;
          status := Stopped;
        case Noop =>
          pc := pc + 1;
          status := Running;
        case Set => status := ExecSet();
        case Push => status := ExecPush();
        case Pop => status := ExecPop();
        case Eq => status := ExecBinary(op);
        case Gt => status := ExecBinary(op);
        case Add => status := ExecBinary(op);
        case Mult => status := ExecBinary(op);
        case Mod => status := ExecBinary(op);
        case And => status := ExecBinary(op);
        case Or => status := ExecBinary(op);
        case Jmp => status := ExecJump(op);
        case Jt => status := ExecJump(op);
        case Jf => status := ExecJump(op);
        case Not => status := ExecUnary(op);
        case Rmem => status := ExecUnary(op);
        case Wmem => status := ExecWmem();
        case Call => status := ExecCall();
        case Ret => status := ExecRet();
        case Out => status := ExecOut();
        case In => status := ExecIn();
        case Undefined => status := Failed(InvalidOpcode);
      }
      match status {
        case Running => outcome := Continue;
        case Stopped => outcome := Halted;
        case Failed(k) => outcome := Fault(k, at);
      }
    }

    /** Steps until a halt, a fault, or `fuel` steps have run. */
    method Run(fuel: nat) returns (outcome: Outcome)
      requires Valid()
      modifies this, registers, term
      ensures Valid()
      ensures StepResult(outcome, Snapshot()) == RunSpec(old(Snapshot()), fuel)
    {
      ghost var start := Snapshot();
      outcome := Continue;
      var left := fuel;
      while left > 0 && outcome == Continue
        invariant Valid() && start == old(Snapshot())
        invariant RunSpec(start, fuel) == RunFrom(StepResult(outcome, Snapshot()), left)
        decreases left
      {
        ghost var before := Snapshot();
        outcome := Step();
        RunFromStep(before, StepResult(outcome, Snapshot()), left);
        left := left - 1;
      }
      RunFromDone(StepResult(outcome, Snapshot()), left);
    }
  }
}
