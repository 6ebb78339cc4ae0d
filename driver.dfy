/** The interpreter loop of main.py: a stand-alone fetch/execute loop that handles `halt`,
    `set`, `jmp`, `jt`, `jf`, `out` and `noop`, reports every other opcode and moves on one
    word. It keeps its own `interpret` and has no stack. */
module Driver {
  import opened Base
  import opened Words
  import opened Operands
  import opened Opcodes
  import opened InOut
  import opened Semantics

  /** `interpret` (main.py:68-77). */
  function Interpret(num: nat, registers: seq<nat>): (r: Option<nat>)
    requires |registers| == RegisterCount
    ensures r.Some? <==> num < RegisterBase + RegisterCount
    ensures r.Some? && num <= MaxWord ==> r.value == num
    ensures r.Some? && num > MaxWord ==> r.value in registers
  {
    if num <= MaxWord then Some(num)
    else if num < RegisterBase + RegisterCount then Some(registers[num - RegisterBase])
    else None
  }

  /** `interpret` decodes exactly as `read_interpret` does. */
  lemma InterpretIsValueMode(num: nat, registers: seq<nat>)
    requires |registers| == RegisterCount
    ensures Interpret(num, registers) == ReadInterpret(num, registers)
    ensures Interpret(num, registers).None? <==> num >= RegisterBase + RegisterCount
  {
  }

  /** What the loop keeps between iterations: `pc`, `registers`, and the characters printed. */
  datatype Loop = Loop(pc: nat, regs: seq<nat>, written: seq<nat>)

  datatype LoopResult = LoopResult(outcome: Outcome, next: Loop)

  /** The loop's variables before the first iteration (main.py:22-24). */
  function Start(): (l: Loop)
    ensures |l.regs| == RegisterCount && l.pc == 0 && l.written == []
  {
    Loop(0, [0, 0, 0, 0, 0, 0, 0, 0], [])
  }

  /** `memory[a]`, the dictionary lookup. */
  function Fetch(memory: map<nat, nat>, a: nat): Result<nat>
  {
    if a in memory then Ok(memory[a]) else Err(UndefinedAddress)
  }

  function Decode(num: nat, registers: seq<nat>): Result<nat>
    requires |registers| == RegisterCount
  {
    OrFail(Interpret(num, registers), InvalidOperand)
  }

  /** The body of `while True` on one opcode: `Ok((true, l'))` for the `break`. The
      destination of `set` is `interpret` of its operand, so it names a register by content
      (main.py:35-37); an index of 8 or more is Python's IndexError. */
  function Iteration(memory: map<nat, nat>, l: Loop): (r: Result<(bool, Loop)>)
    requires |l.regs| == RegisterCount
    ensures r.Ok? ==> |r.value.1.regs| == RegisterCount
    ensures r.Ok? ==> l.written <= r.value.1.written
  {
    var opcode :- Fetch(memory, l.pc);
    var pc := l.pc + 1;
    if opcode == 0 then Ok((true, l.(pc := pc)))
    else if opcode == 1 then
      var ra :- Fetch(memory, pc);
      var rb :- Fetch(memory, pc + 1);
      var a :- Decode(ra, l.regs);
      var b :- Decode(rb, l.regs);
      if a >= RegisterCount then Err(InvalidOperand)
      else Ok((false, l.(regs := l.regs[a := b], pc := pc + 2)))
    else if opcode == 6 then
      var ra :- Fetch(memory, pc);
      var a :- Decode(ra, l.regs);
      Ok((false, l.(pc := a)))
    else if opcode == 7 || opcode == 8 then
      var ra :- Fetch(memory, pc);
      var rb :- Fetch(memory, pc + 1);
      var a :- Decode(ra, l.regs);
      var b :- Decode(rb, l.regs);
      var taken := if opcode == 7 then a != 0 else a == 0;
      Ok((false, l.(pc := if taken then b else pc + 2)))
    else if opcode == 19 then
      var ra :- Fetch(memory, pc);
      var a :- Decode(ra, l.regs);
      Ok((false, l.(written := l.written + [a], pc := pc + 1)))
    else
      // 21 (`pass`) and every unhandled opcode: only the fetch has moved `pc`.
      Ok((false, l.(pc := pc)))
  }

  /** One iteration as a step result; a failure reports the opcode's address and changes nothing. */
  function LoopStep(memory: map<nat, nat>, l: Loop): (r: LoopResult)
    requires |l.regs| == RegisterCount
    ensures |r.next.regs| == RegisterCount
    ensures r.outcome.Fault? ==> r.next == l && r.outcome.at == l.pc
    ensures r.outcome.Halted? <==> l.pc in memory && memory[l.pc] == 0
    ensures l.written <= r.next.written
  {
    match Iteration(memory, l)
    case Err(k) => LoopResult(Fault(k, l.pc), l)
    case Ok((stop, t)) => LoopResult(if stop then Halted else Continue, t)
  }

  /** Up to `fuel` iterations, ending at the `break` or the first failure. */
  function LoopRun(memory: map<nat, nat>, l: Loop, fuel: nat): (r: LoopResult)
    requires |l.regs| == RegisterCount
    ensures |r.next.regs| == RegisterCount
    ensures fuel == 0 ==> r == LoopResult(Continue, l)
    ensures r.outcome.Fault? ==> r.outcome.at == r.next.pc
    ensures l.written <= r.next.written
    decreases fuel
  {
    if fuel == 0 then LoopResult(Continue, l)
    else
      var r := LoopStep(memory, l);
      if r.outcome.Continue? then LoopRun(memory, r.next, fuel - 1) else r
  }

  lemma LoopRunUnfold(memory: map<nat, nat>, l: Loop, fuel: nat)
    requires |l.regs| == RegisterCount && fuel > 0
    ensures LoopRun(memory, l, fuel) ==
      if LoopStep(memory, l).outcome.Continue? then LoopRun(memory, LoopStep(memory, l).next, fuel - 1)
      else LoopStep(memory, l)
  {
  }

  /** One pass through the body of `while True` (main.py:27-65), on the loop's variables. */
  method RunIteration(memory: map<nat, nat>, pc0: nat, registers0: seq<nat>, written0: seq<nat>)
    returns (outcome: Outcome, pc: nat, registers: seq<nat>, written: seq<nat>)
    requires |registers0| == RegisterCount
    ensures LoopResult(outcome, Loop(pc, registers, written)) == LoopStep(memory, Loop(pc0, registers0, written0))
  {
    outcome, pc, registers, written := Continue, pc0, registers0, written0;
    var here := pc;
    if pc !in memory {
      outcome := Fault(UndefinedAddress, here);
    } else {
      var opcode := memory[pc];
      pc := pc + 1;
      if opcode == 0 {
        outcome := Halted;
      } else if opcode == 1 || opcode == 7 || opcode == 8 {
        if pc !in memory || pc + 1 !in memory {
          outcome, pc := Fault(UndefinedAddress, here), here;
        } else {
          var a := Interpret(memory[pc], registers);
          var b := Interpret(memory[pc + 1], registers);
          pc := pc + 2;
          if a.None? || b.None? {
            outcome, pc := Fault(InvalidOperand, here), here;
          } else if opcode == 1 {
            if a.value >= RegisterCount {
              outcome, pc := Fault(InvalidOperand, here), here;
            } else {
              registers := registers[a.value := b.value];
            }
          } else if (opcode == 7 && a.value != 0) || (opcode == 8 && a.value == 0) {
            pc := b.value;
          }
        }
      } else if opcode == 6 || opcode == 19 {
        if pc !in memory {
          outcome, pc := Fault(UndefinedAddress, here), here;
        } else {
          var a := Interpret(memory[pc], registers);
          pc := pc + 1;
          if a.None? {
            outcome, pc := Fault(InvalidOperand, here), here;
          } else if opcode == 6 {
            pc := a.value;
          } else {
            written := written + [a.value];
          }
        }
      }
    }
  }

  /** `main` from line 22 on, with at most `fuel` iterations of `while True`. */
  method MainLoop(memory: map<nat, nat>, fuel: nat) returns (outcome: Outcome, pc: nat, registers: seq<nat>, written: seq<nat>)
    ensures LoopResult(outcome, Loop(pc, registers, written)) == LoopRun(memory, Start(), fuel)
  {
    registers := [0, 0, 0, 0, 0, 0, 0, 0];
    pc := 0;
    written := [];
    outcome := Continue;
    var left := fuel;
    while left > 0 && outcome == Continue
      invariant |registers| == RegisterCount
      invariant outcome == Continue ==> LoopRun(memory, Start(), fuel) == LoopRun(memory, Loop(pc, registers, written), left)
      invariant outcome != Continue ==> LoopRun(memory, Start(), fuel) == LoopResult(outcome, Loop(pc, registers, written))
      decreases left
    {
      LoopRunUnfold(memory, Loop(pc, registers, written), left);
      outcome, pc, registers, written := RunIteration(memory, pc, registers, written);
      left := left - 1;
    }
  }


  // ---------------------------------------------------------------------------------------
  // Properties of the loop, and how it relates to the opcode engine

  /** Fetching 0 leaves the loop with `pc` one past it and nothing else changed. */
  lemma HaltExits(memory: map<nat, nat>, l: Loop)
    requires |l.regs| == RegisterCount && l.pc in memory && memory[l.pc] == 0
    ensures LoopStep(memory, l) == LoopResult(Halted, l.(pc := l.pc + 1))
  {
  }

  /** Every other iteration that does not fail moves `pc` past the opcode word before its
      operands are read: by 1 for `noop` and any unhandled opcode, 2 for `out`, 3 for `set` and
      an untaken `jt`/`jf`; only the jumps go elsewhere. */
  lemma IterationAdvances(memory: map<nat, nat>, l: Loop)
    requires |l.regs| == RegisterCount && l.pc in memory && memory[l.pc] != 0
    requires !LoopStep(memory, l).outcome.Fault?
    ensures LoopStep(memory, l).outcome == Continue
    ensures memory[l.pc] !in {1, 6, 7, 8, 19} ==> LoopStep(memory, l).next == l.(pc := l.pc + 1)
    ensures memory[l.pc] == 19 ==> LoopStep(memory, l).next.pc == l.pc + 2
    ensures memory[l.pc] == 1 ==> LoopStep(memory, l).next.pc == l.pc + 3
    ensures memory[l.pc] in {7, 8} ==>
      LoopStep(memory, l).next.pc == l.pc + 3 || LoopStep(memory, l).next.pc == Interpret(memory[l.pc + 2], l.regs).value
  {
  }

  /** `jmp` goes to its decoded operand; `jt`/`jf` read two operand words and go to the second
      when the first is non-zero (zero), else to the word after them. */
  lemma LoopJumps(memory: map<nat, nat>, l: Loop)
    requires |l.regs| == RegisterCount && l.pc in memory && memory[l.pc] in {6, 7, 8}
    requires forall a :: l.pc < a <= l.pc + 2 ==> a in memory && memory[a] < RegisterBase + RegisterCount
    ensures var a := Interpret(memory[l.pc + 1], l.regs).value;
      var b := Interpret(memory[l.pc + 2], l.regs).value;
      && (memory[l.pc] == 6 ==> LoopStep(memory, l) == LoopResult(Continue, l.(pc := a)))
      && (memory[l.pc] == 7 ==> LoopStep(memory, l) == LoopResult(Continue, l.(pc := if a != 0 then b else l.pc + 3)))
      && (memory[l.pc] == 8 ==> LoopStep(memory, l) == LoopResult(Continue, l.(pc := if a == 0 then b else l.pc + 3)))
  {
  }

  /** The loop's view of an engine state. */
  function View(s: State): Loop
  {
    Loop(s.pc, s.regs, s.term.written)
  }

  /** The loop and the engine agree on `halt` and `noop`. */
  lemma AgreeOnHaltNoop(s: State)
    requires WellFormed(s) && s.pc in s.mem && s.mem[s.pc] in {0, 21}
    ensures LoopStep(s.mem, View(s)) == LoopResult(Exec(s).outcome, View(Exec(s).next))
    ensures Exec(s).next.mem == s.mem && Exec(s).next.stack == s.stack
  {
    if s.mem[s.pc] == 0 {
      assert Dispatch(s.pc, s.mem) == Ok(Halt);
    } else {
      assert Dispatch(s.pc, s.mem) == Ok(Noop);
    }
  }

  /** The loop and the engine agree on `jmp`. */
  lemma AgreeOnJmp(s: State)
    requires WellFormed(s) && s.pc in s.mem && s.mem[s.pc] == 6
    ensures LoopStep(s.mem, View(s)) == LoopResult(Exec(s).outcome, View(Exec(s).next))
    ensures Exec(s).next.mem == s.mem && Exec(s).next.stack == s.stack
  {
    assert Dispatch(s.pc, s.mem) == Ok(Jmp);
  }

  /** The loop and the engine agree on `jt`. */
  lemma AgreeOnJt(s: State)
    requires WellFormed(s) && s.pc in s.mem && s.mem[s.pc] == 7
    ensures LoopStep(s.mem, View(s)) == LoopResult(Exec(s).outcome, View(Exec(s).next))
    ensures Exec(s).next.mem == s.mem && Exec(s).next.stack == s.stack
  {
    assert Dispatch(s.pc, s.mem) == Ok(Jt);
  }

  /** The loop and the engine agree on `jf`. */
  lemma AgreeOnJf(s: State)
    requires WellFormed(s) && s.pc in s.mem && s.mem[s.pc] == 8
    ensures LoopStep(s.mem, View(s)) == LoopResult(Exec(s).outcome, View(Exec(s).next))
    ensures Exec(s).next.mem == s.mem && Exec(s).next.stack == s.stack
  {
    assert Dispatch(s.pc, s.mem) == Ok(Jf);
  }

  /** The loop and the engine agree on `out`. */
  lemma AgreeOnOut(s: State)
    requires WellFormed(s) && s.pc in s.mem && s.mem[s.pc] == 19
    ensures LoopStep(s.mem, View(s)) == LoopResult(Exec(s).outcome, View(Exec(s).next))
    ensures Exec(s).next.mem == s.mem && Exec(s).next.stack == s.stack
  {
    assert Dispatch(s.pc, s.mem) == Ok(Out);
  }

  /** On `halt`, `jmp`, `jt`, `jf`, `out` and `noop` the loop and the opcode engine agree in
      every case, faults included, and neither touches memory. */
  lemma LoopAgreesWithEngine(s: State)
    requires WellFormed(s) && s.pc in s.mem && s.mem[s.pc] in {0, 6, 7, 8, 19, 21}
    ensures LoopStep(s.mem, View(s)) == LoopResult(Exec(s).outcome, View(Exec(s).next))
    ensures Exec(s).next.mem == s.mem && Exec(s).next.stack == s.stack
  {
    var code := s.mem[s.pc];
    if code == 6 {
      AgreeOnJmp(s);
    } else if code == 7 {
      AgreeOnJt(s);
    } else if code == 8 {
      AgreeOnJf(s);
    } else if code == 19 {
      AgreeOnOut(s);
    } else {
      AgreeOnHaltNoop(s);
    }
  }

  /** The run of `s` for `fuel` steps uses only the opcodes both loops implement. */
  ghost predicate SharedOpcodesOnly(s: State, fuel: nat)
    requires WellFormed(s)
    decreases fuel
  {
    fuel > 0 ==>
      && s.pc in s.mem && s.mem[s.pc] in {0, 6, 7, 8, 19, 21}
      && (Exec(s).outcome.Continue? ==> SharedOpcodesOnly(Exec(s).next, fuel - 1))
  }

  /** Over any run that uses only those opcodes, the loop of main.py and the engine end alike. */
  lemma {:induction false} LoopRunAgreesWithEngine(s: State, fuel: nat)
    requires WellFormed(s) && SharedOpcodesOnly(s, fuel)
    ensures LoopRun(s.mem, View(s), fuel) == LoopResult(RunSpec(s, fuel).outcome, View(RunSpec(s, fuel).next))
    decreases fuel
  {
    if fuel > 0 {
      LoopAgreesWithEngine(s);
      RunSpecUnfold(s, fuel);
      LoopRunUnfold(s.mem, View(s), fuel);
      if Exec(s).outcome.Continue? {
        LoopRunAgreesWithEngine(Exec(s).next, fuel - 1);
      }
    }
  }

  /** main.py:35-37: `set R1 5` with R0 holding 7 and R1 holding 0 writes R0 and leaves R1
      alone; the engine, as the instruction set defines `set`, writes R1. */
  lemma SetByContentAsWritten()
    ensures var memory := map[0 := 1, 1 := 32769, 2 := 5];
      var regs := [7, 0, 0, 0, 0, 0, 0, 0];
      && LoopStep(memory, Loop(0, regs, [])) == LoopResult(Continue, Loop(3, [5, 0, 0, 0, 0, 0, 0, 0], []))
      && Exec(State(0, regs, [], memory, TermState("", [], []))).next.regs == [7, 5, 0, 0, 0, 0, 0, 0]
  {
    var regs := [7, 0, 0, 0, 0, 0, 0, 0];
    assert regs[0 := 5] == [5, 0, 0, 0, 0, 0, 0, 0];
    assert regs[1 := 5] == [7, 5, 0, 0, 0, 0, 0, 0];
  }
}
