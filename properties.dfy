/** What the instruction set promises about single steps and short sequences of steps,
    proved about `Semantics.Exec`. */
module Properties {
  import opened Base
  import opened Words
  import opened Operands
  import opened Opcodes
  import opened InOut
  import opened Semantics

  /** `op` is the instruction at `s.pc`. */
  predicate Fetches(s: State, op: Op)
  {
    WellFormed(s) && s.pc in s.mem && Table(s.mem[s.pc]) == op
  }

  /** Operand word `k` exists and decodes (it is below 32776). */
  predicate Decodes(s: State, k: nat)
  {
    WellFormed(s) && s.pc + k in s.mem && s.mem[s.pc + k] < RegisterBase + RegisterCount
  }

  /** Operand `k` read in value mode. */
  function Src(s: State, k: nat): nat
    requires Decodes(s, k)
  {
    ReadInterpret(s.mem[s.pc + k], s.regs).value
  }

  /** Operand `k` read as a destination. */
  function Dst(s: State, k: nat): Dest
    requires Decodes(s, k)
  {
    DestOf(s.mem[s.pc + k])
  }

  /** A store changes exactly the one location it names. */
  lemma StoreWritesOneLocation(s: State, d: Dest, v: nat)
    requires WellFormed(s)
    ensures Load(Store(s, d, v), d) == Some(v)
    ensures forall i: RegIndex :: Reg(i) != d ==> Store(s, d, v).regs[i] == s.regs[i]
    ensures forall a :: Cell(a) != d ==> (a in Store(s, d, v).mem <==> a in s.mem)
    ensures forall a :: Cell(a) != d && a in s.mem ==> Store(s, d, v).mem[a] == s.mem[a]
    ensures d.Reg? ==> Store(s, d, v).mem == s.mem
    ensures d.Cell? ==> Store(s, d, v).regs == s.regs
    ensures Store(s, d, v).pc == s.pc && Store(s, d, v).stack == s.stack && Store(s, d, v).term == s.term
  {
  }

  /** `eq`, `gt`, `add`, `mult`, `mod`, `and`, `or`: the source's result is stored at the
      destination and the machine moves on four words. */
  lemma BinaryStep(s: State, op: Op)
    requires Fetches(s, op) && IsBinary(op)
    requires Decodes(s, 1) && Decodes(s, 2) && Decodes(s, 3)
    requires op == Mod ==> Src(s, 3) != 0
    ensures Compute(op, Src(s, 2), Src(s, 3)).Ok?
    ensures Exec(s) ==
      StepResult(Continue, Store(s, Dst(s, 1), Compute(op, Src(s, 2), Src(s, 3)).value).(pc := s.pc + 4))
  {
    assert Effect(op, s) == BinaryEffect(op, s);
  }

  /** The remainder of a word is a word already, so `mod`'s extra reduction changes nothing. */
  lemma ModStaysWord(b: nat, c: nat)
    requires c != 0
    ensures IsWord((b % c) % Modulus)
    ensures IsWord(b) ==> (b % c) % Modulus == b % c
  {
    var q, r := b / c, b % c;
    assert b == q * c + r && 0 <= r < c;
    assert q * c >= 0;
    assert r <= b;
  }

  /** The stored result is always a word, and on word operands it is the instruction set's
      value: the source's extra `% 32768` after `mod`, `and` and `or` changes nothing. */
  lemma ComputeIsIsaValue(op: Op, b: nat, c: nat)
    requires IsBinary(op) && (op == Mod ==> c != 0)
    ensures Compute(op, b, c).Ok?
    ensures IsWord(Compute(op, b, c).value)
    ensures IsWord(b) && IsWord(c) ==> Compute(op, b, c).value == IsaValue(op, b, c)
  {
    match op
    case Eq =>
    case Gt =>
    case Add =>
    case Mult =>
    case Mod =>
      ModStaysWord(b, c);
    case And =>
      if IsWord(b) && IsWord(c) {
        BitOpsOnWords(b, c);
      }
    case Or =>
      if IsWord(b) && IsWord(c) {
        BitOpsOnWords(b, c);
      }
  }

  /** `mod` by zero faults, and the machine is left as it was. */
  lemma ModByZeroFaults(s: State)
    requires Fetches(s, Mod) && Decodes(s, 1) && Decodes(s, 2) && Decodes(s, 3)
    requires Src(s, 3) == 0
    ensures Exec(s) == StepResult(Fault(DivideByZero, s.pc), s)
  {
    assert Effect(Mod, s) == BinaryEffect(Mod, s);
  }

  /** `not` stores the 15-bit complement `32767 - b` of a word. */
  lemma NotStep(s: State)
    requires Fetches(s, Not) && Decodes(s, 1) && Decodes(s, 2)
    requires IsWord(Src(s, 2))
    ensures Exec(s) == StepResult(Continue, Store(s, Dst(s, 1), MaxWord - Src(s, 2)).(pc := s.pc + 3))
  {
    NotIsComplement(Src(s, 2));
  }

  /** Two consecutive `not r r` instructions give register `r` its word back and change
      nothing else but the program counter. */
  lemma NotTwiceRestores(s: State, r: RegIndex)
    requires WellFormed(s) && IsWord(s.regs[r])
    requires forall a :: s.pc <= a < s.pc + 6 ==> a in s.mem
    requires s.mem[s.pc] == 14 && s.mem[s.pc + 1] == RegisterBase + r && s.mem[s.pc + 2] == RegisterBase + r
    requires s.mem[s.pc + 3] == 14 && s.mem[s.pc + 4] == RegisterBase + r && s.mem[s.pc + 5] == RegisterBase + r
    ensures Exec(s).outcome == Continue
    ensures Exec(Exec(s).next) == StepResult(Continue, s.(pc := s.pc + 6))
  {
    var b := s.regs[r];
    NotIsComplement(b);
    NotInvolution(b);
    var t := Exec(s).next;
    assert t == s.(regs := s.regs[r := Not15(b)], pc := s.pc + 3);
    assert Exec(t).next.regs == s.regs[r := Not15(b)][r := Not15(Not15(b))];
    assert s.regs[r := Not15(b)][r := Not15(Not15(b))] == s.regs;
  }

  /** `push a` puts a's value on top of the stack and moves on two words. */
  lemma PushStep(s: State)
    requires Fetches(s, Push) && Decodes(s, 1)
    ensures Exec(s) == StepResult(Continue, s.(stack := s.stack + [Src(s, 1)], pc := s.pc + 2))
  {
    assert Dispatch(s.pc, s.mem) == Ok(Push);
  }

  /** `pop a` on a non-empty stack takes the top off, stores it at a and moves on two words. */
  lemma PopStep(s: State)
    requires Fetches(s, Pop) && Decodes(s, 1) && s.stack != []
    ensures Exec(s) ==
      StepResult(Continue, Store(s.(stack := s.stack[..|s.stack| - 1], pc := s.pc + 2), Dst(s, 1), s.stack[|s.stack| - 1]))
  {
    assert Dispatch(s.pc, s.mem) == Ok(Pop);
  }

  /** `push` then `pop`: the popped value is the pushed one and the stack is as before. */
  lemma PushThenPop(s: State)
    requires Fetches(s, Push) && Decodes(s, 1)
    requires s.pc + 2 in s.mem && Table(s.mem[s.pc + 2]) == Pop && Decodes(s, 3)
    ensures Exec(s) == StepResult(Continue, s.(stack := s.stack + [Src(s, 1)], pc := s.pc + 2))
    ensures Exec(Exec(s).next) ==
      StepResult(Continue, Store(s.(pc := s.pc + 4), Dst(s, 3), Src(s, 1)))
  {
    PushStep(s);
    var t := s.(stack := s.stack + [Src(s, 1)], pc := s.pc + 2);
    assert Decodes(t, 1) && Dst(t, 1) == Dst(s, 3);
    PopStep(t);
    assert t.stack[..|t.stack| - 1] == s.stack;
  }

  /** `call` pushes the address after itself and jumps to its operand. */
  lemma CallStep(s: State)
    requires Fetches(s, Call) && Decodes(s, 1)
    ensures Exec(s) == StepResult(Continue, s.(stack := s.stack + [s.pc + 2], pc := Src(s, 1)))
  {
  }

  /** `ret` pops the top of a non-empty stack and jumps there. */
  lemma RetStep(s: State)
    requires Fetches(s, Ret) && s.stack != []
    ensures Exec(s) == StepResult(Continue, s.(stack := s.stack[..|s.stack| - 1], pc := s.stack[|s.stack| - 1]))
  {
  }

  /** `call` pushes its return address and jumps; a `ret` at the target resumes right after
      the `call`, with the stack and everything else as before. */
  lemma CallThenRet(s: State)
    requires Fetches(s, Call) && Decodes(s, 1)
    requires Src(s, 1) in s.mem && Table(s.mem[Src(s, 1)]) == Ret
    ensures Exec(s) == StepResult(Continue, s.(stack := s.stack + [s.pc + 2], pc := Src(s, 1)))
    ensures Exec(Exec(s).next) == StepResult(Continue, s.(pc := s.pc + 2))
  {
    var t := Exec(s).next;
    assert t.stack[..|t.stack| - 1] == s.stack;
  }

  /** `pop` and `ret` on an empty stack fault and remove nothing. */
  lemma EmptyStackFaults(s: State)
    requires WellFormed(s) && s.stack == []
    requires Fetches(s, Ret) || (Fetches(s, Pop) && Decodes(s, 1))
    ensures Exec(s) == StepResult(Fault(StackUnderflow, s.pc), s)
  {
  }

  /** `AdvancesByWidth` for the three-operand opcodes. */
  lemma BinaryAdvances(s: State)
    requires WellFormed(s) && s.pc in s.mem && IsBinary(Table(s.mem[s.pc]))
    ensures var op := Table(s.mem[s.pc]);
      !Exec(s).outcome.Fault? ==>
        Exec(s).outcome == Continue && Exec(s).next.pc == s.pc + Width(op) && Exec(s).next.pc == ListNext(op, s.pc)
  {
    var op := Table(s.mem[s.pc]);
    assert Dispatch(s.pc, s.mem) == Ok(op);
    assert Effect(op, s) == BinaryEffect(op, s);
  }

  /** `AdvancesByWidth` for the other opcodes that store a value. */
  lemma StoreAdvances(s: State)
    requires WellFormed(s) && s.pc in s.mem && Table(s.mem[s.pc]) in {Set, Push, Pop, Not, Rmem, Wmem}
    ensures var op := Table(s.mem[s.pc]);
      !Exec(s).outcome.Fault? ==>
        Exec(s).outcome == Continue && Exec(s).next.pc == s.pc + Width(op) && Exec(s).next.pc == ListNext(op, s.pc)
  {
    assert Dispatch(s.pc, s.mem) == Ok(Table(s.mem[s.pc]));
  }

  /** `AdvancesByWidth` for `halt`, `noop`, `out`, `in` and an undefined opcode. */
  lemma OtherAdvances(s: State)
    requires WellFormed(s) && s.pc in s.mem && Table(s.mem[s.pc]) in {Halt, Noop, Out, In, Undefined}
    ensures var op := Table(s.mem[s.pc]);
      !Exec(s).outcome.Fault? ==>
        && Exec(s).next.pc == s.pc + Width(op)
        && Exec(s).next.pc == ListNext(op, s.pc)
        && (Exec(s).outcome.Halted? <==> op == Halt)
  {
    assert Dispatch(s.pc, s.mem) == Ok(Table(s.mem[s.pc]));
  }

  /** Every instruction that is not a jump, call or return and does not fault moves the
      program counter by its width, to where the listing puts the next instruction; only
      `halt` stops the run. */
  lemma AdvancesByWidth(s: State)
    requires WellFormed(s) && s.pc in s.mem
    requires !IsControlTransfer(Table(s.mem[s.pc]))
    ensures var op := Table(s.mem[s.pc]);
      !Exec(s).outcome.Fault? ==>
        && Exec(s).next.pc == s.pc + Width(op)
        && Exec(s).next.pc == ListNext(op, s.pc)
        && (Exec(s).outcome.Halted? <==> op == Halt)
  {
    var op := Table(s.mem[s.pc]);
    if IsBinary(op) {
      BinaryAdvances(s);
    } else if op in {Set, Push, Pop, Not, Rmem, Wmem} {
      StoreAdvances(s);
    } else {
      OtherAdvances(s);
    }
  }

  /** `jmp` goes to its operand; `jt` to its second operand when the first is non-zero and
      `jf` when it is zero, else both fall through three words; nothing else changes. */
  lemma JumpTargets(s: State)
    requires WellFormed(s) && s.pc in s.mem
    ensures Fetches(s, Jmp) && Decodes(s, 1) ==>
      Exec(s) == StepResult(Continue, s.(pc := Src(s, 1)))
    ensures Fetches(s, Jt) && Decodes(s, 1) && Decodes(s, 2) ==>
      Exec(s) == StepResult(Continue, s.(pc := if Src(s, 1) != 0 then Src(s, 2) else s.pc + 3))
    ensures Fetches(s, Jf) && Decodes(s, 1) && Decodes(s, 2) ==>
      Exec(s) == StepResult(Continue, s.(pc := if Src(s, 1) == 0 then Src(s, 2) else s.pc + 3))
  {
  }

  /** A fault reports the instruction's address and leaves registers, stack, memory and
      program counter as they were; only an `in` that runs out of input has consumed the
      empty lines it read. */
  lemma FaultsLeaveStateUnchanged(s: State)
    requires WellFormed(s)
    requires Exec(s).outcome.Fault?
    ensures Exec(s).outcome.at == s.pc
    ensures Exec(s).next.(term := s.term) == s
    ensures Exec(s).next.term != s.term ==>
      Fetches(s, In) && Exec(s).outcome.kind == InputExhausted && Exec(s).next.term == ReadWord(s.term).1
  {
    if s.pc in s.mem && IsBinary(Table(s.mem[s.pc])) {
      assert Effect(Table(s.mem[s.pc]), s) == BinaryEffect(Table(s.mem[s.pc]), s);
    }
  }

  /** A missing instruction address and an opcode number above 21 fault at once. */
  lemma DispatchFaults(s: State)
    requires WellFormed(s)
    ensures s.pc !in s.mem ==> Exec(s) == StepResult(Fault(UndefinedAddress, s.pc), s)
    ensures s.pc in s.mem && s.mem[s.pc] > 21 ==> Exec(s) == StepResult(Fault(InvalidOpcode, s.pc), s)
  {
    if s.pc in s.mem {
      TableDefinedRange(s.mem[s.pc]);
    }
  }

  /** `halt` stops after one word; `noop` (21) changes nothing but the program counter. */
  lemma HaltAndNoop(s: State)
    requires WellFormed(s) && s.pc in s.mem
    ensures s.mem[s.pc] == 0 ==> Exec(s) == StepResult(Halted, s.(pc := s.pc + 1))
    ensures s.mem[s.pc] == 21 ==> Exec(s) == StepResult(Continue, s.(pc := s.pc + 1))
  {
  }

  /** `set` writes the register its first operand names and faults on any other destination. */
  lemma SetWritesNamedRegister(s: State)
    requires Fetches(s, Set) && Decodes(s, 1) && Decodes(s, 2)
    ensures IsRegisterRef(s.mem[s.pc + 1]) ==>
      Exec(s) == StepResult(Continue, s.(regs := s.regs[s.mem[s.pc + 1] - RegisterBase := Src(s, 2)], pc := s.pc + 3))
    ensures !IsRegisterRef(s.mem[s.pc + 1]) ==> Exec(s) == StepResult(Fault(InvalidOperand, s.pc), s)
  {
  }

  /** `in` stores the terminal's next word at its destination, or faults when the script has
      no more non-empty lines; with characters buffered, the word is the first of them. */
  lemma InStoresInputWord(s: State)
    requires Fetches(s, In) && Decodes(s, 1)
    ensures ReadWord(s.term).0.Some? ==>
      Exec(s) == StepResult(Continue, Store(s.(term := ReadWord(s.term).1), Dst(s, 1), ReadWord(s.term).0.value).(pc := s.pc + 2))
    ensures ReadWord(s.term).0.None? ==>
      Exec(s) == StepResult(Fault(InputExhausted, s.pc), s.(term := ReadWord(s.term).1))
    ensures s.term.buffer != "" ==>
      Exec(s).next == Store(s.(term := s.term.(buffer := s.term.buffer[1..])), Dst(s, 1), CodeOf(s.term.buffer[0])).(pc := s.pc + 2)
  {
  }

  /** `out` writes one code point, its operand's value, after everything written before. */
  lemma OutWritesValue(s: State)
    requires Fetches(s, Out) && Decodes(s, 1)
    ensures Exec(s) == StepResult(Continue, s.(term := s.term.(written := s.term.written + [Src(s, 1)]), pc := s.pc + 2))
  {
  }

  /** `wmem a b` stores `b % 32768` at the address a's value names and moves on three words;
      a value in the register range names that register instead. */
  lemma WmemStep(s: State)
    requires Fetches(s, Wmem) && Decodes(s, 1) && Decodes(s, 2)
    ensures Exec(s) == StepResult(Continue, Store(s, DestOf(Src(s, 1)), Src(s, 2) % Modulus).(pc := s.pc + 3))
  {
    assert Dispatch(s.pc, s.mem) == Ok(Wmem);
  }

  /** `rmem a b` stores the memory word at b, reduced to 15 bits, at a and moves on three words;
      a missing address faults. */
  lemma RmemStep(s: State)
    requires Fetches(s, Rmem) && Decodes(s, 1) && Decodes(s, 2)
    ensures Src(s, 2) in s.mem ==>
      Exec(s) == StepResult(Continue, Store(s, Dst(s, 1), s.mem[Src(s, 2)] % Modulus).(pc := s.pc + 3))
    ensures Src(s, 2) !in s.mem ==> Exec(s) == StepResult(Fault(UndefinedAddress, s.pc), s)
  {
    assert Dispatch(s.pc, s.mem) == Ok(Rmem);
  }

  /** `rmem R<r> a` from a literal address a that holds a word copies that word into R<r>. */
  lemma RmemIntoRegister(t: State, r: RegIndex, a: nat)
    requires Fetches(t, Rmem) && t.pc + 1 in t.mem && t.mem[t.pc + 1] == RegisterBase + r
    requires t.pc + 2 in t.mem && t.mem[t.pc + 2] == a && a <= MaxWord && a in t.mem
    ensures Exec(t) == StepResult(Continue, t.(regs := t.regs[r := t.mem[a] % Modulus], pc := t.pc + 3))
  {
    RmemStep(t);
  }

  /** `wmem` to an address followed by `rmem` from it reads back the stored word. */
  lemma WriteThenRead(s: State)
    requires Fetches(s, Wmem) && Decodes(s, 1) && Decodes(s, 2) && !IsRegisterRef(Src(s, 1))
    requires s.pc + 3 in s.mem && Table(s.mem[s.pc + 3]) == Rmem
    requires s.pc + 4 in s.mem && IsRegisterRef(s.mem[s.pc + 4])
    requires Src(s, 1) != s.pc + 3 && Src(s, 1) != s.pc + 4 && Src(s, 1) != s.pc + 5
    requires s.pc + 5 in s.mem && s.mem[s.pc + 5] <= MaxWord && s.mem[s.pc + 5] == Src(s, 1)
    ensures Exec(s).outcome == Continue
    ensures var t := Exec(s).next;
      && t.mem == s.mem[Src(s, 1) := Src(s, 2) % Modulus]
      && Exec(t).outcome == Continue
      && Exec(t).next.regs == s.regs[s.mem[s.pc + 4] - RegisterBase := Src(s, 2) % Modulus]
  {
    var a, v := Src(s, 1), Src(s, 2) % Modulus;
    var r: RegIndex := s.mem[s.pc + 4] - RegisterBase;
    WmemStep(s);
    var t := s.(mem := s.mem[a := v], pc := s.pc + 3);
    assert Exec(s) == StepResult(Continue, t);
    RmemIntoRegister(t, r, a);
    ReduceToWord(Src(s, 2));
  }

  // ---------------------------------------------------------------------------------------
  // The source as written, next to the instruction set

  /** opcode.py:413 binds 21 to `HaltOpcode`: as written, a `noop` stops the run. */
  lemma Opcode21AsWritten(s: State)
    requires WellFormed(s) && s.pc in s.mem && s.mem[s.pc] == 21
    ensures Effect(TableAsWritten(s.mem[s.pc]), s) == Ok(Stop(s.(pc := s.pc + 1)))
    ensures Exec(s).outcome == Continue
  {
    assert TableAsWritten(21) == Halt;
    assert Dispatch(s.pc, s.mem) == Ok(Noop);
  }

  /** opcode.py:35,38: a literal destination silently writes a register when it lies in
      32760..32767, through Python's negative indexing, and is an index error below. */
  lemma SetLiteralDestinationAsWritten()
    ensures SetIndexAsWritten(32767) == Some(7) && SetIndexAsWritten(32760) == Some(0)
    ensures forall a: nat :: a <= MaxWord ==> (SetIndexAsWritten(a).Some? <==> a >= 32760)
    ensures forall a: nat :: IsRegisterRef(a) ==> SetIndexAsWritten(a) == Some(a - RegisterBase)
  {
  }

  /** opcode.py:66-75: `pop R0` on an empty stack as written overwrites R0 with 0 before it
      stops; the engine faults and leaves R0 as it was. */
  lemma PopEmptyAsWritten()
    ensures var s := State(0, [5, 0, 0, 0, 0, 0, 0, 0], [], map[0 := 3, 1 := 32768], TermState("", [], []));
      && PopAsWritten(s) == Ok(Stop(s.(regs := [0, 0, 0, 0, 0, 0, 0, 0], pc := 2)))
      && Exec(s) == StepResult(Fault(StackUnderflow, 0), s)
  {
    var regs := [5, 0, 0, 0, 0, 0, 0, 0];
    assert regs[0 := 0] == [0, 0, 0, 0, 0, 0, 0, 0];
  }

  /** opcode.py:349: `out R0` as written writes code 32768 instead of the content of R0. */
  lemma OutRegisterAsWritten()
    ensures var s := State(0, [65, 0, 0, 0, 0, 0, 0, 0], [], map[0 := 19, 1 := 32768], TermState("", [], []));
      && OutAsWritten(s) == Ok(Next(s.(term := s.term.(written := [32768]), pc := 2)))
      && Exec(s) == StepResult(Continue, s.(term := s.term.(written := [65]), pc := 2))
  {
    var s := State(0, [65, 0, 0, 0, 0, 0, 0, 0], [], map[0 := 19, 1 := 32768], TermState("", [], []));
    assert Word(s, 1) == Ok(32768);
    assert ImmInterpret(32768) == Some(32768);
    assert OrFail(ImmInterpret(32768), InvalidOperand) == Ok(32768);
    assert s.term.written + [32768] == [32768];
  }

  /** opcode.py:335-337: `ret` on an empty stack as written carries on at pc + 1. */
  lemma RetEmptyAsWritten()
    ensures var s := State(0, [0, 0, 0, 0, 0, 0, 0, 0], [], map[0 := 18, 1 := 0], TermState("", [], []));
      && RetAsWritten(s) == Ok(Next(s.(pc := 1)))
      && Exec(s) == StepResult(Fault(StackUnderflow, 0), s)
  {
  }

  /** opcode.py:362-364: `in` as written stops the run even with input waiting. */
  lemma InStubAsWritten()
    ensures var s := State(0, [0, 0, 0, 0, 0, 0, 0, 0], [], map[0 := 20, 1 := 32768], TermState("A", [], []));
      && InAsWritten(s) == Ok(Stop(s.(pc := 2)))
      && Exec(s) == StepResult(Continue, State(2, [65, 0, 0, 0, 0, 0, 0, 0], [], s.mem, TermState("", [], [])))
  {
    var s := State(0, [0, 0, 0, 0, 0, 0, 0, 0], [], map[0 := 20, 1 := 32768], TermState("A", [], []));
    assert s.term.buffer[0] == 'A' && s.term.buffer[1..] == "" && CodeOf('A') == 65;
    assert ReadWord(s.term) == (Some(65), TermState("", [], []));
    assert Dispatch(0, s.mem) == Ok(In);
    assert s.regs[0 := 65] == [65, 0, 0, 0, 0, 0, 0, 0];
  }

  /** opcode.py:275: after a `not`, the listing resumes one word past where execution does. */
  lemma NotListingAsWritten(s: State)
    requires Fetches(s, Not) && Decodes(s, 1) && Decodes(s, 2)
    ensures Exec(s).outcome == Continue
    ensures ListNext(Not, s.pc) == Exec(s).next.pc
    ensures ListNextAsWritten(Not, s.pc) == Exec(s).next.pc + 1
  {
  }
}
