/** Whole runs of small programs on the engine, from the state right after loading. A run is
    shown by its trace: the states it passes through, one `Exec` step apart. */
module Programs {
  import opened Base
  import opened Words
  import opened InOut
  import opened Semantics
  import opened Properties

  /** A step that continues hands the rest of the run to its successor. */
  lemma Continues(s: State, t: State, fuel: nat)
    requires WellFormed(s) && fuel > 0 && Exec(s) == StepResult(Continue, t)
    ensures RunSpec(s, fuel) == RunSpec(t, fuel - 1)
  {
    RunSpecUnfold(s, fuel);
  }

  /** A step that halts or faults ends the run, however much fuel is left. */
  lemma Ends(s: State, r: StepResult, fuel: nat)
    requires WellFormed(s) && fuel > 0 && Exec(s) == r && !r.outcome.Continue?
    ensures RunSpec(s, fuel) == r
  {
    RunSpecUnfold(s, fuel);
  }

  // ---------------------------------------------------------------------------------------
  // add R0 R1 4; out R0 (the example program of the architecture notes)

  predicate ExampleCode(mem: map<nat, nat>)
  {
    && (forall a :: 0 <= a < 6 ==> a in mem)
    && mem[0] == 9 && mem[1] == 32768 && mem[2] == 32769 && mem[3] == 4 && mem[4] == 19 && mem[5] == 32768
  }

  /** `add R0 R1 4` stores R1 + 4 = 4 in R0. */
  lemma ExampleAdd(mem: map<nat, nat>)
    requires ExampleCode(mem)
    ensures Exec(Initial(mem, [])) == StepResult(Continue, State(4, [4, 0, 0, 0, 0, 0, 0, 0], [], mem, TermState("", [], [])))
  {
    var s0 := Initial(mem, []);
    assert Dst(s0, 1) == Operands.Reg(0) && Src(s0, 2) == 0 && Src(s0, 3) == 4;
    BinaryStep(s0, Opcodes.Add);
    assert s0.regs[0 := 4] == [4, 0, 0, 0, 0, 0, 0, 0];
  }

  /** `add R0 R1 4` stores 4 in R0; `out R0` then writes 4. */
  lemma ExampleTrace(mem: map<nat, nat>)
    requires ExampleCode(mem)
    ensures Exec(Initial(mem, [])) == StepResult(Continue, State(4, [4, 0, 0, 0, 0, 0, 0, 0], [], mem, TermState("", [], [])))
    ensures Exec(State(4, [4, 0, 0, 0, 0, 0, 0, 0], [], mem, TermState("", [], []))) ==
      StepResult(Continue, State(6, [4, 0, 0, 0, 0, 0, 0, 0], [], mem, TermState("", [], [4])))
  {
    ExampleAdd(mem);
    OutWritesValue(State(4, [4, 0, 0, 0, 0, 0, 0, 0], [], mem, TermState("", [], [])));
  }

  /** With a `halt` after it, the example prints 4 and halts at address 6. */
  lemma ExampleHalts(mem: map<nat, nat>, fuel: nat)
    requires ExampleCode(mem) && 6 in mem && mem[6] == 0 && fuel >= 3
    ensures RunSpec(Initial(mem, []), fuel) ==
      StepResult(Halted, State(7, [4, 0, 0, 0, 0, 0, 0, 0], [], mem, TermState("", [], [4])))
  {
    var s2 := State(6, [4, 0, 0, 0, 0, 0, 0, 0], [], mem, TermState("", [], [4]));
    ExampleTrace(mem);
    HaltAndNoop(s2);
    Continues(Initial(mem, []), State(4, [4, 0, 0, 0, 0, 0, 0, 0], [], mem, TermState("", [], [])), fuel);
    Continues(State(4, [4, 0, 0, 0, 0, 0, 0, 0], [], mem, TermState("", [], [])), s2, fuel - 1);
    Ends(s2, StepResult(Halted, s2.(pc := 7)), fuel - 2);
  }

  /** Without one, it prints 4 and then runs off the end of memory, faulting at address 6. */
  lemma ExampleRunsOffTheEnd(mem: map<nat, nat>, fuel: nat)
    requires ExampleCode(mem) && 6 !in mem && fuel >= 3
    ensures RunSpec(Initial(mem, []), fuel) ==
      StepResult(Fault(UndefinedAddress, 6), State(6, [4, 0, 0, 0, 0, 0, 0, 0], [], mem, TermState("", [], [4])))
  {
    var s2 := State(6, [4, 0, 0, 0, 0, 0, 0, 0], [], mem, TermState("", [], [4]));
    ExampleTrace(mem);
    DispatchFaults(s2);
    Continues(Initial(mem, []), State(4, [4, 0, 0, 0, 0, 0, 0, 0], [], mem, TermState("", [], [])), fuel);
    Continues(State(4, [4, 0, 0, 0, 0, 0, 0, 0], [], mem, TermState("", [], [])), s2, fuel - 1);
    Ends(s2, StepResult(Fault(UndefinedAddress, 6), s2), fuel - 2);
  }

  // ---------------------------------------------------------------------------------------
  // add R0 4 5; out R0

  predicate AddCode(mem: map<nat, nat>)
  {
    && (forall a :: 0 <= a < 6 ==> a in mem)
    && mem[0] == 9 && mem[1] == 32768 && mem[2] == 4 && mem[3] == 5 && mem[4] == 19 && mem[5] == 32768
  }

  /** `add R0 4 5` stores 9 in R0; `out R0` then writes 9. */
  lemma AddTrace(mem: map<nat, nat>)
    requires AddCode(mem)
    ensures Exec(Initial(mem, [])) == StepResult(Continue, State(4, [9, 0, 0, 0, 0, 0, 0, 0], [], mem, TermState("", [], [])))
    ensures Exec(State(4, [9, 0, 0, 0, 0, 0, 0, 0], [], mem, TermState("", [], []))) ==
      StepResult(Continue, State(6, [9, 0, 0, 0, 0, 0, 0, 0], [], mem, TermState("", [], [9])))
  {
    var s0 := Initial(mem, []);
    BinaryStep(s0, Opcodes.Add);
    assert s0.regs[0 := 9] == [9, 0, 0, 0, 0, 0, 0, 0];
    OutWritesValue(State(4, [9, 0, 0, 0, 0, 0, 0, 0], [], mem, TermState("", [], [])));
  }

  /** Whatever follows it, the program prints the character with code point 9 in its first
      two steps and carries on at address 6 with R0 holding 9. */
  lemma AddPrintsNine(mem: map<nat, nat>, fuel: nat)
    requires AddCode(mem) && fuel >= 2
    ensures RunSpec(Initial(mem, []), fuel) ==
      RunSpec(State(6, [9, 0, 0, 0, 0, 0, 0, 0], [], mem, TermState("", [], [9])), fuel - 2)
  {
    var s1 := State(4, [9, 0, 0, 0, 0, 0, 0, 0], [], mem, TermState("", [], []));
    AddTrace(mem);
    Continues(Initial(mem, []), s1, fuel);
    Continues(s1, State(6, [9, 0, 0, 0, 0, 0, 0, 0], [], mem, TermState("", [], [9])), fuel - 1);
  }

  // ---------------------------------------------------------------------------------------
  // set R0 3; out R0; halt

  predicate SetCode(mem: map<nat, nat>)
  {
    && (forall a :: 0 <= a < 6 ==> a in mem)
    && mem[0] == 1 && mem[1] == 32768 && mem[2] == 3 && mem[3] == 19 && mem[4] == 32768 && mem[5] == 0
  }

  /** `set R0 3` stores 3 in R0. */
  lemma SetFirst(mem: map<nat, nat>)
    requires SetCode(mem)
    ensures Exec(Initial(mem, [])) == StepResult(Continue, State(3, [3, 0, 0, 0, 0, 0, 0, 0], [], mem, TermState("", [], [])))
  {
    var s0 := Initial(mem, []);
    assert Src(s0, 2) == 3;
    SetWritesNamedRegister(s0);
    assert s0.regs[0 := 3] == [3, 0, 0, 0, 0, 0, 0, 0];
  }

  /** `set R0 3` stores 3 in R0 and `out R0` writes 3. */
  lemma SetTrace(mem: map<nat, nat>)
    requires SetCode(mem)
    ensures Exec(Initial(mem, [])) == StepResult(Continue, State(3, [3, 0, 0, 0, 0, 0, 0, 0], [], mem, TermState("", [], [])))
    ensures Exec(State(3, [3, 0, 0, 0, 0, 0, 0, 0], [], mem, TermState("", [], []))) ==
      StepResult(Continue, State(5, [3, 0, 0, 0, 0, 0, 0, 0], [], mem, TermState("", [], [3])))
  {
    SetFirst(mem);
    OutWritesValue(State(3, [3, 0, 0, 0, 0, 0, 0, 0], [], mem, TermState("", [], [])));
  }

  /** The program sets R0 to 3, prints code point 3 and halts on the opcode at address 5. */
  lemma SetPrintsAndHalts(mem: map<nat, nat>, fuel: nat)
    requires SetCode(mem) && fuel >= 3
    ensures RunSpec(Initial(mem, []), fuel) ==
      StepResult(Halted, State(6, [3, 0, 0, 0, 0, 0, 0, 0], [], mem, TermState("", [], [3])))
  {
    var s1 := State(3, [3, 0, 0, 0, 0, 0, 0, 0], [], mem, TermState("", [], []));
    var s2 := State(5, [3, 0, 0, 0, 0, 0, 0, 0], [], mem, TermState("", [], [3]));
    SetTrace(mem);
    HaltAndNoop(s2);
    Continues(Initial(mem, []), s1, fuel);
    Continues(s1, s2, fuel - 1);
    Ends(s2, StepResult(Halted, s2.(pc := 6)), fuel - 2);
  }

  // ---------------------------------------------------------------------------------------
  // call 5; out 66; halt; out 65; ret

  predicate CallCode(mem: map<nat, nat>)
  {
    && (forall a :: 0 <= a < 8 ==> a in mem)
    && mem[0] == 17 && mem[1] == 5 && mem[2] == 19 && mem[3] == 66
    && mem[4] == 0 && mem[5] == 19 && mem[6] == 65 && mem[7] == 18
  }

  /** The subroutine runs with the return address on the stack and prints 65; `ret` takes the
      address off again. */
  lemma SubroutineTrace(mem: map<nat, nat>)
    requires CallCode(mem)
    ensures Exec(Initial(mem, [])) == StepResult(Continue, State(5, [0, 0, 0, 0, 0, 0, 0, 0], [2], mem, TermState("", [], [])))
    ensures Exec(State(5, [0, 0, 0, 0, 0, 0, 0, 0], [2], mem, TermState("", [], []))) ==
      StepResult(Continue, State(7, [0, 0, 0, 0, 0, 0, 0, 0], [2], mem, TermState("", [], [65])))
    ensures Exec(State(7, [0, 0, 0, 0, 0, 0, 0, 0], [2], mem, TermState("", [], [65]))) ==
      StepResult(Continue, State(2, [0, 0, 0, 0, 0, 0, 0, 0], [], mem, TermState("", [], [65])))
  {
    CallStep(Initial(mem, []));
    OutWritesValue(State(5, [0, 0, 0, 0, 0, 0, 0, 0], [2], mem, TermState("", [], [])));
    RetStep(State(7, [0, 0, 0, 0, 0, 0, 0, 0], [2], mem, TermState("", [], [65])));
  }

  /** Back in the caller: `out 66` and `halt`. */
  lemma CallerTrace(mem: map<nat, nat>)
    requires CallCode(mem)
    ensures Exec(State(2, [0, 0, 0, 0, 0, 0, 0, 0], [], mem, TermState("", [], [65]))) ==
      StepResult(Continue, State(4, [0, 0, 0, 0, 0, 0, 0, 0], [], mem, TermState("", [], [65, 66])))
    ensures Exec(State(4, [0, 0, 0, 0, 0, 0, 0, 0], [], mem, TermState("", [], [65, 66]))) ==
      StepResult(Halted, State(5, [0, 0, 0, 0, 0, 0, 0, 0], [], mem, TermState("", [], [65, 66])))
  {
    OutWritesValue(State(2, [0, 0, 0, 0, 0, 0, 0, 0], [], mem, TermState("", [], [65])));
    HaltAndNoop(State(4, [0, 0, 0, 0, 0, 0, 0, 0], [], mem, TermState("", [], [65, 66])));
  }

  /** The subroutine prints first, then the caller resumes after the `call` with an empty
      stack, prints, and halts. */
  lemma CallReturns(mem: map<nat, nat>, fuel: nat)
    requires CallCode(mem) && fuel >= 5
    ensures RunSpec(Initial(mem, []), fuel) ==
      StepResult(Halted, State(5, [0, 0, 0, 0, 0, 0, 0, 0], [], mem, TermState("", [], [65, 66])))
  {
    var s1 := State(5, [0, 0, 0, 0, 0, 0, 0, 0], [2], mem, TermState("", [], []));
    var s2 := State(7, [0, 0, 0, 0, 0, 0, 0, 0], [2], mem, TermState("", [], [65]));
    var s3 := State(2, [0, 0, 0, 0, 0, 0, 0, 0], [], mem, TermState("", [], [65]));
    var s4 := State(4, [0, 0, 0, 0, 0, 0, 0, 0], [], mem, TermState("", [], [65, 66]));
    SubroutineRuns(mem, fuel);
    CallerTrace(mem);
    Continues(s3, s4, fuel - 3);
    Ends(s4, StepResult(Halted, s4.(pc := 5)), fuel - 4);
  }

  /** `call 5` and the subroutine's `out 65`. */
  lemma SubroutinePrints(mem: map<nat, nat>, fuel: nat)
    requires CallCode(mem) && fuel >= 2
    ensures RunSpec(Initial(mem, []), fuel) == RunSpec(State(7, [0, 0, 0, 0, 0, 0, 0, 0], [2], mem, TermState("", [], [65])), fuel - 2)
  {
    var s1 := State(5, [0, 0, 0, 0, 0, 0, 0, 0], [2], mem, TermState("", [], []));
    SubroutineTrace(mem);
    Continues(Initial(mem, []), s1, fuel);
    Continues(s1, State(7, [0, 0, 0, 0, 0, 0, 0, 0], [2], mem, TermState("", [], [65])), fuel - 1);
  }

  /** The subroutine's run ends with `ret`, back at address 2 with an empty stack. */
  lemma SubroutineRuns(mem: map<nat, nat>, fuel: nat)
    requires CallCode(mem) && fuel >= 3
    ensures RunSpec(Initial(mem, []), fuel) == RunSpec(State(2, [0, 0, 0, 0, 0, 0, 0, 0], [], mem, TermState("", [], [65])), fuel - 3)
  {
    var s2 := State(7, [0, 0, 0, 0, 0, 0, 0, 0], [2], mem, TermState("", [], [65]));
    SubroutinePrints(mem, fuel);
    SubroutineTrace(mem);
    Continues(s2, State(2, [0, 0, 0, 0, 0, 0, 0, 0], [], mem, TermState("", [], [65])), fuel - 2);
  }

  // ---------------------------------------------------------------------------------------
  // in R0; out R0; jmp 0

  predicate EchoCode(mem: map<nat, nat>)
  {
    && (forall a :: 0 <= a < 6 ==> a in mem)
    && mem[0] == 20 && mem[1] == 32768 && mem[2] == 19 && mem[3] == 32768 && mem[4] == 6 && mem[5] == 0
  }

  /** `in R0` stores the word read. */
  lemma EchoIn(s: State, w: nat, after: TermState)
    requires WellFormed(s) && s.pc == 0 && EchoCode(s.mem)
    requires ReadWord(s.term) == (Some(w), after)
    ensures Exec(s) == StepResult(Continue, s.(regs := s.regs[0 := w], term := after, pc := 2))
  {
    InStoresInputWord(s);
  }

  /** `out R0` writes it. */
  lemma EchoOut(s: State)
    requires WellFormed(s) && s.pc == 2 && EchoCode(s.mem)
    ensures Exec(s) == StepResult(Continue, s.(term := s.term.(written := s.term.written + [s.regs[0]]), pc := 4))
  {
    OutWritesValue(s);
  }

  /** `jmp 0` goes back to the start. */
  lemma EchoJmp(s: State)
    requires WellFormed(s) && s.pc == 4 && EchoCode(s.mem)
    ensures Exec(s) == StepResult(Continue, s.(pc := 0))
  {
    JumpTargets(s);
  }

  /** `in R0; out R0`: the word read is stored in R0 and written out. */
  lemma EchoCopies(s: State, w: nat, after: TermState, fuel: nat)
    requires WellFormed(s) && s.pc == 0 && EchoCode(s.mem) && fuel >= 2
    requires ReadWord(s.term) == (Some(w), after)
    ensures RunSpec(s, fuel) == RunSpec(s.(regs := s.regs[0 := w], term := after.(written := after.written + [w]), pc := 4), fuel - 2)
  {
    var t1 := s.(regs := s.regs[0 := w], term := after, pc := 2);
    EchoIn(s, w, after);
    Continues(s, t1, fuel);
    EchoOut(t1);
    Continues(t1, t1.(term := after.(written := after.written + [w]), pc := 4), fuel - 1);
  }

  /** One round of the echo program: the word read is stored in R0 and written out, and the
      program is back at its start. */
  lemma EchoRoundRuns(s: State, w: nat, after: TermState, fuel: nat)
    requires WellFormed(s) && s.pc == 0 && EchoCode(s.mem) && fuel >= 3
    requires ReadWord(s.term) == (Some(w), after)
    ensures RunSpec(s, fuel) == RunSpec(s.(regs := s.regs[0 := w], term := after.(written := after.written + [w])), fuel - 3)
  {
    var t2 := s.(regs := s.regs[0 := w], term := after.(written := after.written + [w]), pc := 4);
    EchoCopies(s, w, after, fuel);
    EchoJmp(t2);
    Continues(t2, t2.(pc := 0), fuel - 2);
  }

  /** With nothing left to read, the echo program's `in` faults. */
  lemma EchoEnds(s: State, fuel: nat)
    requires WellFormed(s) && s.pc == 0 && EchoCode(s.mem) && s.term.buffer == "" && s.term.lines == []
    requires fuel > 0
    ensures RunSpec(s, fuel) == StepResult(Fault(InputExhausted, 0), s)
  {
    InStoresInputWord(s);
    RunSpecUnfold(s, fuel);
  }

  /** The echo program's state after one round on a non-empty buffer. */
  function EchoNext(s: State): (t: State)
    requires WellFormed(s) && s.term.buffer != ""
    ensures WellFormed(t) && t.pc == s.pc && t.mem == s.mem && t.term.lines == s.term.lines
    ensures |t.term.buffer| == |s.term.buffer| - 1
  {
    var w := CodeOf(s.term.buffer[0]);
    s.(regs := s.regs[0 := w], term := s.term.(buffer := s.term.buffer[1..], written := s.term.written + [w]))
  }

  /** The state a round leads to when the buffer is empty and the script holds one non-empty
      line: the line's first character is in R0 and written out, the rest of the line and its
      newline are buffered, and the program is back at address 0. */
  function LineRound(s: State): (t: State)
    requires WellFormed(s) && s.term.buffer == "" && |s.term.lines| == 1 && s.term.lines[0] != ""
    ensures WellFormed(t) && t.pc == s.pc && t.mem == s.mem && t.term.lines == []
  {
    var full := s.term.lines[0] + "\n";
    s.(regs := s.regs[0 := CodeOf(full[0])], term := TermState(full[1..], [], s.term.written + [CodeOf(full[0])]))
  }

  /** One round on a buffered character copies it to the output. */
  lemma EchoDrainStep(s: State, fuel: nat)
    requires WellFormed(s) && s.pc == 0 && EchoCode(s.mem) && s.term.buffer != "" && fuel >= 3
    ensures RunSpec(s, fuel) == RunSpec(EchoNext(s), fuel - 3)
  {
    ReadWordBuffered(s.term);
    EchoRoundRuns(s, CodeOf(s.term.buffer[0]), s.term.(buffer := s.term.buffer[1..]), fuel);
  }

  /** One round on an empty buffer reads the script's last line and copies its first
      character to the output. */
  lemma EchoLineStep(s: State, fuel: nat)
    requires WellFormed(s) && s.pc == 0 && EchoCode(s.mem) && fuel >= 3
    requires s.term.buffer == "" && |s.term.lines| == 1 && s.term.lines[0] != ""
    ensures RunSpec(s, fuel) == RunSpec(LineRound(s), fuel - 3)
  {
    var full := s.term.lines[0] + "\n";
    assert s.term.lines[1..] == [];
    assert ReadWord(s.term) == (Some(CodeOf(full[0])), TermState(full[1..], [], s.term.written));
    EchoRoundRuns(s, CodeOf(full[0]), TermState(full[1..], [], s.term.written), fuel);
  }

  /** `RunSpec` made total, so that it can stand for the runs of a program in the lemmas below,
      which hold for any run function whose rounds behave as stated. */
  ghost function RunAny(s: State, fuel: nat): StepResult
  {
    if WellFormed(s) then RunSpec(s, fuel) else StepResult(Continue, s)
  }

  /** Under `run`, a program at address 0 copies a buffered character in a round: it leads to
      `EchoNext`, three steps later. */
  ghost predicate CopiesBuffered(run: (State, nat) -> StepResult, mem: map<nat, nat>)
  {
    forall s: State, fuel: nat {:trigger EchoNext(s), run(s, fuel)} ::
      WellFormed(s) && s.pc == 0 && s.mem == mem && fuel >= 3 && s.term.buffer != "" ==>
        run(s, fuel) == run(EchoNext(s), fuel - 3)
  }

  /** Under `run`, a program at address 0 copies the first character of a last non-empty line
      in a round: it leads to `LineRound`, three steps later. */
  ghost predicate CopiesLine(run: (State, nat) -> StepResult, mem: map<nat, nat>)
  {
    forall s: State, fuel: nat {:trigger LineRound(s), run(s, fuel)} ::
      WellFormed(s) && s.pc == 0 && s.mem == mem && fuel >= 3 &&
      s.term.buffer == "" && |s.term.lines| == 1 && s.term.lines[0] != "" ==>
        run(s, fuel) == run(LineRound(s), fuel - 3)
  }

  /** Under `run`, a program at address 0 faults there, leaving the state as it is, once the
      script and the buffer are both empty. */
  ghost predicate StopsWhenDry(run: (State, nat) -> StepResult, mem: map<nat, nat>)
  {
    forall s: State, fuel: nat {:trigger run(s, fuel)} ::
      WellFormed(s) && s.pc == 0 && s.mem == mem && s.term.buffer == "" && s.term.lines == [] && fuel > 0 ==>
        run(s, fuel) == StepResult(Fault(InputExhausted, 0), s)
  }

  /** The echo program's rounds behave so in every state it can be in at address 0. */
  lemma EchoProgramRounds(mem: map<nat, nat>)
    requires EchoCode(mem)
    ensures CopiesBuffered(RunAny, mem)
    ensures CopiesLine(RunAny, mem)
    ensures StopsWhenDry(RunAny, mem)
  {
    forall s: State, fuel: nat | WellFormed(s) && s.pc == 0 && s.mem == mem && fuel >= 3 && s.term.buffer != ""
      ensures RunAny(s, fuel) == RunAny(EchoNext(s), fuel - 3)
    {
      EchoDrainStep(s, fuel);
    }
    forall s: State, fuel: nat | WellFormed(s) && s.pc == 0 && s.mem == mem && fuel >= 3 &&
        s.term.buffer == "" && |s.term.lines| == 1 && s.term.lines[0] != ""
      ensures RunAny(s, fuel) == RunAny(LineRound(s), fuel - 3)
    {
      EchoLineStep(s, fuel);
    }
    forall s: State, fuel: nat | WellFormed(s) && s.pc == 0 && s.mem == mem && s.term.buffer == "" && s.term.lines == [] && fuel > 0
      ensures RunAny(s, fuel) == StepResult(Fault(InputExhausted, 0), s)
    {
      EchoEnds(s, fuel);
    }
  }

  /** The state after draining the buffer one character per round. */
  function EchoFinal(s: State): (t: State)
    requires WellFormed(s)
    ensures WellFormed(t)
    decreases |s.term.buffer|
  {
    if s.term.buffer == "" then s else EchoFinal(EchoNext(s))
  }

  /** Writing a string's first code point and then the codes of its rest writes its codes. */
  lemma CodesAfterFirst(w: seq<nat>, x: string)
    requires x != ""
    ensures (w + [CodeOf(x[0])]) + Codes(x[1..]) == w + Codes(x)
  {
    assert Codes(x) == [CodeOf(x[0])] + Codes(x[1..]);
  }

  /** Draining writes the buffered characters after what was written before. */
  lemma {:induction false} EchoFinalWrites(s: State)
    requires WellFormed(s)
    ensures EchoFinal(s).term.written == s.term.written + Codes(s.term.buffer)
    ensures EchoFinal(s).term.buffer == "" && EchoFinal(s).term.lines == s.term.lines
    ensures EchoFinal(s).pc == s.pc && EchoFinal(s).mem == s.mem
    decreases |s.term.buffer|
  {
    if s.term.buffer != "" {
      EchoFinalWrites(EchoNext(s));
      CodesAfterFirst(s.term.written, s.term.buffer);
    }
  }

  /** A program whose rounds copy buffered characters and which stops when dry, started on a
      buffer with no script left, copies every buffered character and then faults, three steps
      per character. */
  lemma {:induction false} DrainsBuffer(run: (State, nat) -> StepResult, s: State, fuel: nat)
    requires WellFormed(s) && s.pc == 0 && s.term.lines == []
    requires CopiesBuffered(run, s.mem) && StopsWhenDry(run, s.mem)
    requires fuel > 3 * |s.term.buffer|
    ensures run(s, fuel) == StepResult(Fault(InputExhausted, 0), EchoFinal(s))
    decreases |s.term.buffer|
  {
    if s.term.buffer != "" {
      DrainsBuffer(run, EchoNext(s), fuel - 3);
    }
  }

  /** The state after the line's first round and the draining of its buffer has written the
      line and its newline, and has nothing left to read. */
  lemma LineWritten(s: State)
    requires WellFormed(s) && s.term.buffer == "" && |s.term.lines| == 1 && s.term.lines[0] != ""
    ensures EchoFinal(LineRound(s)).term.written == s.term.written + Codes(s.term.lines[0] + "\n")
    ensures EchoFinal(LineRound(s)).term.buffer == "" && EchoFinal(LineRound(s)).term.lines == []
  {
    var full := s.term.lines[0] + "\n";
    var s1 := LineRound(s);
    EchoFinalWrites(s1);
    assert s1.term.written == s.term.written + [CodeOf(full[0])] && s1.term.buffer == full[1..];
    CodesAfterFirst(s.term.written, full);
  }

  /** Such a program, whose rounds also copy from a fresh line, given one non-empty line on an
      empty buffer, copies its first character and drains the rest, then faults at address 0
      for want of input. */
  lemma EchoesOneLine(run: (State, nat) -> StepResult, s: State, fuel: nat)
    requires WellFormed(s) && s.pc == 0 && s.term.buffer == "" && |s.term.lines| == 1 && s.term.lines[0] != ""
    requires CopiesBuffered(run, s.mem) && CopiesLine(run, s.mem) && StopsWhenDry(run, s.mem)
    requires fuel > 3 * |s.term.lines[0]| + 3
    ensures run(s, fuel) == StepResult(Fault(InputExhausted, 0), EchoFinal(LineRound(s)))
  {
    assert run(s, fuel) == run(LineRound(s), fuel - 3);
    DrainsBuffer(run, LineRound(s), fuel - 3);
  }

  /** The echo program, given one non-empty line, writes its characters and the newline, then
      faults at the `in` for want of input. */
  lemma EchoesLine(mem: map<nat, nat>, line: string, fuel: nat)
    requires EchoCode(mem) && line != "" && fuel > 3 * |line| + 3
    ensures RunSpec(Initial(mem, [line]), fuel).outcome == Fault(InputExhausted, 0)
    ensures RunSpec(Initial(mem, [line]), fuel).next.term.written == Codes(line + "\n")
  {
    EchoProgramRounds(mem);
    EchoesOneLine(RunAny, Initial(mem, [line]), fuel);
    LineWritten(Initial(mem, [line]));
    assert RunAny(Initial(mem, [line]), fuel) == RunSpec(Initial(mem, [line]), fuel);
  }

  // ---------------------------------------------------------------------------------------
  // Programs that fault at once

  /** An opcode number of 22 or more faults at once where it stands. */
  lemma UnknownOpcodeFaults(mem: map<nat, nat>, fuel: nat)
    requires 0 in mem && mem[0] > 21 && fuel > 0
    ensures RunSpec(Initial(mem, []), fuel) == StepResult(Fault(InvalidOpcode, 0), Initial(mem, []))
  {
    DispatchFaults(Initial(mem, []));
    RunSpecUnfold(Initial(mem, []), fuel);
  }

  /** A program that starts with `ret` has nothing to return to. */
  lemma RetFirstFaults(mem: map<nat, nat>, fuel: nat)
    requires 0 in mem && mem[0] == 18 && fuel > 0
    ensures RunSpec(Initial(mem, []), fuel) == StepResult(Fault(StackUnderflow, 0), Initial(mem, []))
  {
    EmptyStackFaults(Initial(mem, []));
    RunSpecUnfold(Initial(mem, []), fuel);
  }
}
