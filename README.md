# Synacor VM core in Dafny

A model of a Python interpreter for the Synacor Challenge virtual machine. It covers the
machine's 15-bit words, its eight registers and its unbounded stack. It covers the sparse
word memory loaded from a little-endian image and the twenty-two opcodes with their three
operand decodings. It also covers the disassembly's address arithmetic, the line-buffered
terminal, and the stand-alone interpreter loop of `main.py`.

The model is built in layers:

- `Base`: the `Option` and `Result` wrappers, and the kinds of fault that stop a run.
- `Words`: the word constants, and Python's `&`, `|` and `~ % 32768` on non-negative integers.
- `Operands`: `read_interpret` (value mode), `imm_interpret` (raw mode) and `list_interpret`
  (listing mode).
- `Opcodes`: the opcode table, `dispatch`, instruction widths, and the next address reported by
  each opcode's `list`.
- `InOut`: the terminal.
  - `TermState` is its abstract state: the unread line buffer, the lines still to be typed, and
    the code points written.
  - `ReadWord` specifies `input_word`.
  - The class `Terminal` holds the state as fields. Its `InputWord` keeps the refill loop of
    `input_word`.
- `Semantics`: the machine as a value.
  - `Effect` gives each opcode's `execute` and `Exec` gives one dispatch-and-execute step.
  - `RunSpec` gives a run of at most `fuel` steps.
  - The functions named `...AsWritten` give the source's own behaviour where it departs from
    the instruction set.
- `Vm`: the machine as the Python code holds it.
  - The class `Machine` has a registers array that is updated in place, and the stack and
    memory as fields that are reassigned.
  - It has one `Exec...` method per opcode class, plus `Step` and `Run`.
  - Each method is proved to do exactly what `Semantics` says.
- `Properties`: what the instruction set promises about single steps and short sequences of
  steps, and the as-written counterexamples.
- `Loader`: the image decoding loop of `main.py`, and its inverse.
- `Driver`: the `while True` loop of `main.py`.
  - It has its own `interpret` and no stack.
  - It handles `halt`, `set`, `jmp`, `jt`, `jf`, `out` and `noop`, and skips one word for every
    other opcode.
  - Lemmas tie it to the engine on the opcodes the two share.
- `Programs`: whole runs of small programs from the state right after loading.
  - `add`/`out` and `set`/`out`/`halt` print and stop.
  - A `call`/`ret` pair prints and returns.
  - An `in`/`out`/`jmp` echo loop copies a whole input line.
  - Runs that begin with an unknown opcode or with `ret` fault.

The engine (`Semantics.Exec`) follows the Synacor instruction set where opcode.py evidently
departs from it. The source's own behaviour is modelled beside it, and each departure is
listed under Findings with both halves. A Python `None` from an operand decoder,
a missing dictionary key, an undefined opcode's exception and `mod` by zero all become faults.
A fault reports the instruction's address and leaves the machine as it was. The one
exception is `in`: the empty lines it read are consumed.

Input and output are parameters of the model. The console input is a script of lines, and
the printed characters are a log of code points in the terminal state.

## Model

| member | source | states |
|---|---|---|
| Words.BitAnd | opcode.py:227 | Python's `b & c` on non-negative integers is at most either operand |
| Words.BitOr | opcode.py:247 | Python's bitwise or of non-negative integers b and c is at least either operand and at most their sum |
| Words.Not15 | opcode.py:265 | Python's `(~x) % 32768` is `32767 - x % 32768` for every non-negative x |
| Words.NotIsComplement | opcode.py:265 | `(~b) % 32768` of a word is `32767 - b`, again a word |
| Words.NotInvolution | opcode.py:265 | applying `not` twice to a word gives the word back |
| Words.BitOpsOnWords | opcode.py:221-252 | bitwise and and bitwise or of two words are words, so the extra `% 32768` changes nothing |
| Words.WordAndComplement | opcode.py:221-270 | a word and its 15-bit complement share no bit and together set all fifteen |
| Operands.ReadInterpret | opcode.py:428-437 | `read_interpret` yields a value exactly below 32776, and the value is the number itself or one of the register contents |
| Operands.ImmInterpret | opcode.py:440-449 | `imm_interpret` yields a value exactly below 32776, and that value is the number unchanged |
| Operands.ListInterpret | opcode.py:452-461 | `list_interpret` yields a token exactly below 32776; a literal token is the number itself, at most 32767, and `R<i>` names 32768 + i |
| Operands.DestOf | opcode.py:71-74 | a store goes to register i exactly when the number is 32768 + i, and otherwise to the memory key equal to the number |
| Operands.ValueModeDecoding | opcode.py:428-437 | value mode yields the literal for 0..32767, the register's content for 32768..32775, and `None` exactly from 32776 on |
| Operands.DestinationDecoding | opcode.py:440-449 | raw mode yields the number itself below 32776 and `None` above; a literal names a memory key and 32768+i names register i |
| Operands.DecodersAgree | opcode.py:428-461 | the three decoders accept the same numbers; a listed literal reads as itself and a listed `R<i>` reads register i and is written as register i |
| Operands.ReadInterpretFrame | opcode.py:428-437 | value mode depends only on the register the operand names |
| Opcodes.TableAsWritten | opcode.py:391-425 | the written table is defined exactly on 0..21, maps each number below 21 to the opcode with that `Code`, and maps 21 to halt |
| Opcodes.Table | opcode.py:391-425 | the corrected table is defined exactly on 0..21 and maps each number to the opcode with that `Code` |
| Opcodes.Dispatch | opcode.py:418-425 | `dispatch` fails, with an undefined address, exactly when pc is not a memory key, and yields the undefined opcode exactly for a number above 21 |
| Opcodes.Width | opcode.py:23-388 | every instruction is one to four words long, and one word exactly for `halt`, `ret`, `noop` and an undefined opcode |
| Opcodes.TableCodeRoundTrip | opcode.py:391-414 | every defined opcode has a number 0..21 that the table maps back to it |
| Opcodes.TableDefinedRange | opcode.py:391-414 | the table defines exactly the numbers 0..21, each the inverse of `Code` |
| Opcodes.TableAsWrittenDiffersOnlyAt21 | opcode.py:391-414 | the table as written differs from the instruction set only at 21, which it maps to halt |
| Opcodes.DispatchOutcomes | opcode.py:418-425 | `dispatch` fails exactly on a missing address, and yields the undefined opcode exactly for a number above 21 |
| Opcodes.OperandTokens | opcode.py:452-461 | the listing tokens of n operands exist exactly when the n following words are loaded, and each is `list_interpret` of its word |
| Opcodes.ListAt | opcode.py:28-388 | a successful listing belongs to a loaded address, names the table's opcode, shows width - 1 operands and continues at pc + width |
| Opcodes.ListNextAsWritten | opcode.py:28-388 | the `list` methods' own return offsets, each one to four words past pc |
| Opcodes.ListingAdvancesByWidth | opcode.py:28-388 | a successful listing names the table's opcode, has width-1 operands and continues at pc + width; it fails exactly on a missing operand word or an `out` operand that is not a literal |
| Opcodes.ListWidthMatchesExecution | opcode.py:28-388 | the offset each `list` method returns equals its instruction's width for every opcode except `not`, whose listing returns one word more |
| InOut.CodeOf | inout.py:14 | `ord(ch) % 32768` is a word, and the code point itself for a character below 32768 |
| InOut.ReadWord | inout.py:6-14 | a word read is a word and nothing written changes; a non-empty buffer always yields a word and loses one character; no word means an empty buffer and an exhausted script |
| InOut.OutputCode | inout.py:17-18 | the code written for a word is a word, and the word itself when it is one |
| InOut.Refill | inout.py:8-11 | a refilled buffer ends in a newline after at least one character, and at least one scripted line is consumed |
| InOut.Terminal.constructor | inout.py:3 | a fresh terminal has an empty buffer, the whole script to read, and nothing written |
| InOut.Terminal.InputWord | inout.py:6-14 | the refill loop and the character read leave the terminal as `ReadWord` says and return its word |
| InOut.Terminal.OutputWord | inout.py:17-19 | writing appends `w % 32768` to the log and changes nothing else |
| InOut.ReadWordIsWord | inout.py:12-14 | a word read is a word, and reading never changes what was written |
| InOut.ReadWordBuffered | inout.py:12-14 | with a non-empty buffer, reading takes its first character and leaves the script alone |
| InOut.RefillSkipsEmptyLines | inout.py:8-11 | refill skips any run of empty lines and takes the first non-empty one with a newline added |
| InOut.RefillOnlyEmptyLines | inout.py:8-11 | a script of only empty lines refills nothing |
| InOut.DrainBuffer | inout.py:12-14 | reading as many words as the buffer holds yields its characters' codes and empties it |
| InOut.ReadsWholeLine | inout.py:6-14 | from an empty buffer, reading one more word than a line's length yields the line and its newline, past any empty lines before it |
| InOut.OutputCodeReduces | inout.py:17-19 | the output code is a word, is the identity on words, and is periodic modulo 32768 |
| Semantics.Initial | main.py:22-24 | the loaded machine has eight registers |
| Semantics.Effect | opcode.py:23-388 | every successful opcode effect keeps the register file eight wide |
| Semantics.Compute | opcode.py:83-252 | the result of a three-operand opcode is always a word, and the only failure is `mod` by zero |
| Semantics.Exec | opcode.py:418-425 | every step, faulting or not, leaves a well-formed machine |
| Semantics.RunSpec | opcode.py:13-16 | a run with no fuel is the state itself; a first step that halts or faults ends the run with that step |
| Semantics.SetIndexAsWritten | opcode.py:35-38 | as written, `set` reaches a register exactly for destinations 32760..32775, its own register for 32768 + i and register a - 32760 below 32768 |
| Semantics.PopAsWritten | opcode.py:62-75 | as written, `pop` agrees with the engine on a non-empty stack; on an empty one it stops at pc + 2 exactly where the engine faults for underflow |
| Semantics.OutAsWritten | opcode.py:346-351 | as written, `out` writes the raw operand word, succeeds exactly when the engine does, and agrees with it on a literal |
| Semantics.RetAsWritten | opcode.py:332-340 | as written, `ret` never fails; it agrees with the engine on a non-empty stack and continues at pc + 1 on an empty one, where the engine faults |
| Semantics.InAsWritten | opcode.py:359-364 | as written, `in` succeeds exactly when its operand word is loaded, then stops at pc + 2 without touching the terminal |
| Vm.Machine.constructor | main.py:22-24 | a new machine is the loaded state with zeroed registers, an empty stack and pc 0 |
| Vm.Machine.Fetch | opcode.py:418-421 | fetching operand k is the memory lookup at pc + k, failing on a missing key |
| Vm.Machine.StoreAt | opcode.py:71-74 | a write changes exactly the named register or memory key |
| Vm.Machine.ExecSet | opcode.py:32-39 | `set` performs `Effect(Set)` on the machine's fields |
| Vm.Machine.ExecPush | opcode.py:48-54 | `push` performs `Effect(Push)` |
| Vm.Machine.ExecPop | opcode.py:62-75 | `pop` performs `Effect(Pop)` |
| Vm.Machine.ExecBinary | opcode.py:83-252 | `eq`, `gt`, `add`, `mult`, `mod`, `and`, `or` perform their effects |
| Vm.Machine.ExecJump | opcode.py:123-153 | `jmp`, `jt`, `jf` perform their effects |
| Vm.Machine.ExecUnary | opcode.py:260-290 | `not` and `rmem` perform their effects |
| Vm.Machine.ExecWmem | opcode.py:299-310 | `wmem` performs `Effect(Wmem)` |
| Vm.Machine.ExecCall | opcode.py:319-324 | `call` performs `Effect(Call)` |
| Vm.Machine.ExecRet | opcode.py:332-340 | `ret` performs `Effect(Ret)` |
| Vm.Machine.ExecOut | opcode.py:346-351 | `out` performs `Effect(Out)` |
| Vm.Machine.ExecIn | opcode.py:359-364 | `in` performs `Effect(In)`, reading through the terminal object |
| Vm.Machine.Step | opcode.py:418-425 | dispatch and execute in place give exactly `Exec` of the state before |
| Vm.Machine.Run | opcode.py:13-16 | executing while the continue flag holds, for at most `fuel` steps, gives exactly `RunSpec` |
| Properties.StoreWritesOneLocation | opcode.py:71-74 | after a write the location holds the value and every other register, key, the pc, stack and terminal are unchanged |
| Properties.BinaryStep | opcode.py:83-252 | a decoded three-operand instruction stores its computed result at its destination and moves on four words |
| Properties.ModStaysWord | opcode.py:201-212 | the remainder's extra reduction yields a word and changes nothing for a word |
| Properties.ComputeIsIsaValue | opcode.py:83-252 | each arithmetic or logic result is a word, and on word operands equals the instruction set's definition |
| Properties.ModByZeroFaults | opcode.py:201-212 | `mod` by zero faults at the instruction and changes nothing |
| Properties.NotStep | opcode.py:260-270 | `not` stores `32767 - b` and moves on three words |
| Properties.NotTwiceRestores | opcode.py:260-270 | two `not`s on a register in a row restore it and move on six words |
| Properties.PushStep | opcode.py:48-54 | `push a` puts a's value on top of the stack and moves on two words |
| Properties.PopStep | opcode.py:62-75 | `pop a` on a non-empty stack removes the top, stores it at a and moves on two words |
| Properties.PushThenPop | opcode.py:48-75 | `push a` then `pop d` stores a at d and leaves the stack as it was |
| Properties.CallStep | opcode.py:319-324 | `call a` pushes pc + 2 and jumps to a |
| Properties.RetStep | opcode.py:332-340 | `ret` pops the top address and jumps there |
| Properties.CallThenRet | opcode.py:319-340 | `call` to a `ret` comes back to pc + 2 with the stack as it was |
| Properties.EmptyStackFaults | opcode.py:332-340 | `ret` or `pop` on an empty stack faults at the instruction, changing nothing |
| Properties.AdvancesByWidth | opcode.py:23-388 | a non-faulting instruction other than a jump, call or return moves pc by its width, the same as the listing, and stops exactly for halt |
| Properties.JumpTargets | opcode.py:123-153 | `jmp` goes to a; `jt`/`jf` go to b exactly when a is non-zero or zero respectively, and to pc + 3 otherwise |
| Properties.FaultsLeaveStateUnchanged | opcode.py:381-425 | a fault is reported at pc, changes nothing but the terminal, and that only for `in` with exhausted input |
| Properties.DispatchFaults | opcode.py:418-425 | a missing address faults as undefined and a number above 21 as an invalid opcode, changing nothing |
| Properties.HaltAndNoop | opcode.py:372-414 | opcode 0 halts after one word and 21 continues after one word with nothing else changed |
| Properties.SetWritesNamedRegister | opcode.py:32-39 | `set` to a register reference writes that register and moves on three words; any other destination faults |
| Properties.InStoresInputWord | opcode.py:359-364 | `in` stores the word the terminal reads and moves on; with no input left it faults, consuming only the empty lines |
| Properties.OutWritesValue | opcode.py:346-351 | `out` appends the operand's value to the output and moves on two words |
| Properties.WmemStep | opcode.py:299-310 | `wmem a b` stores `b % 32768` where a's value points, a register for 32768..32775 and memory otherwise, and moves on three words |
| Properties.RmemStep | opcode.py:279-290 | `rmem a b` stores the 15-bit reduction of the word at b at a and moves on three words; a missing address faults with nothing changed |
| Properties.RmemIntoRegister | opcode.py:279-290 | `rmem R<r> a` from a loaded literal address copies its word, reduced to 15 bits, into register r and moves on three words |
| Properties.WriteThenRead | opcode.py:279-310 | `wmem a b` then `rmem r a` leaves `b % 32768` in memory at a and in register r |
| Properties.Opcode21AsWritten | opcode.py:413 | the table as written stops the run at opcode 21, where the engine continues |
| Properties.SetLiteralDestinationAsWritten | opcode.py:35-38 | a literal destination 32760..32767 selects register 0..7 by negative indexing, and a register reference its own register |
| Properties.PopEmptyAsWritten | opcode.py:66-75 | as written, `pop R0` on an empty stack overwrites R0 with 0 and stops, where the engine faults with R0 intact |
| Properties.OutRegisterAsWritten | opcode.py:349-350 | as written, `out R0` prints the character 32768 and not R0's content |
| Properties.RetEmptyAsWritten | opcode.py:335-337 | as written, `ret` on an empty stack continues at pc + 1, where the engine faults |
| Properties.InStubAsWritten | opcode.py:362-364 | as written, `in R0` stops the run without reading; the engine stores the typed character |
| Properties.NotListingAsWritten | opcode.py:272-276 | the listing as written places the instruction after `not` one word beyond where execution continues |
| Loader.Le16 | main.py:17 | a 16-bit word whose low and high bytes are the two given bytes |
| Loader.Bytes | main.py:17 | the two bytes of a 16-bit word decode back to it |
| Loader.Encode | main.py:15-18 | the image of a word list has two bytes per word, each pair decoding to its word |
| Loader.Load | main.py:15-18 | an even-length image yields its memory, whose keys are exactly the word indices; an odd length yields nothing |
| Loader.LoadedWordsAre16Bit | main.py:17 | every loaded word is below 65536 |
| Loader.LoadEncodeRoundTrip | main.py:15-18 | loading the image of a word list gives back the same words at their indices |
| Loader.MemoryOfIsUnique | main.py:15-18 | an image has one memory, so the loader's result is determined |
| Driver.Interpret | main.py:68-77 | `interpret` yields a value exactly below 32776: the number itself for a literal, else one of the register contents |
| Driver.InterpretIsValueMode | main.py:68-77 | the loop's `interpret` decodes exactly as value mode does |
| Driver.Start | main.py:22-24 | the loop starts at pc 0 with eight registers and nothing printed |
| Driver.Iteration | main.py:27-65 | an iteration that does not fail keeps the register list eight long and only appends to the output |
| Driver.LoopStep | main.py:26-65 | one iteration breaks exactly on opcode 0, a failure reports the opcode's address and changes nothing, and output is only appended |
| Driver.LoopRun | main.py:26-65 | a run with no fuel changes nothing, a failing run reports the address it stopped at, and output is only appended |
| Driver.RunIteration | main.py:27-65 | one pass through the loop body on its variables ends exactly as `LoopStep` says |
| Driver.MainLoop | main.py:26-65 | the imperative loop ends in the state `LoopRun` gives from the start |
| Driver.HaltExits | main.py:27-31 | opcode 0 leaves the loop with pc one past it |
| Driver.IterationAdvances | main.py:27-65 | a non-failing iteration continues; unhandled opcodes and `noop` move one word, `out` two, `set` three, and `jt`/`jf` three or to their target |
| Driver.LoopJumps | main.py:38-54 | `jmp`, `jt` and `jf` in the loop go where their interpreted operands say |
| Driver.LoopAgreesWithEngine | main.py:26-65 | on `halt`, `jmp`, `jt`, `jf`, `out` and `noop` the loop steps exactly as the engine, which leaves memory and stack alone |
| Driver.LoopRunAgreesWithEngine | main.py:26-65 | a run that meets only those opcodes ends the same in the loop and in the engine |
| Driver.SetByContentAsWritten | main.py:35-37 | the loop's `set R1 5` with R1 = 0 writes R0, the register R1's content names, where the engine writes R1 |
| Programs.ExampleTrace | opcode.py:161-172 | `add R0 R1 4` stores 4 in R0, and `out R0` writes 4 |
| Programs.ExampleHalts | opcode.py:23-26 | followed by `halt`, the program stops at address 7 having printed 4 |
| Programs.ExampleRunsOffTheEnd | opcode.py:418-420 | without a word at address 6, the run faults there as undefined after printing 4 |
| Programs.AddTrace | opcode.py:161-172 | `add R0 4 5` stores 9 in R0, and `out R0` writes 9 |
| Programs.AddPrintsNine | opcode.py:161-172 | whatever follows, the run reaches address 6 with R0 = 9 and 9 printed |
| Programs.SetTrace | opcode.py:32-39 | `set R0 3` stores 3, and `out R0` writes 3 |
| Programs.SetPrintsAndHalts | opcode.py:32-39 | `set R0 3; out R0; halt` halts at address 6 having printed 3 |
| Programs.SubroutineTrace | opcode.py:319-340 | `call 5` pushes 2, the subroutine prints 65, and `ret` returns to 2 with an empty stack |
| Programs.CallerTrace | opcode.py:346-351 | back in the caller, `out 66` prints and `halt` stops |
| Programs.SubroutineRuns | opcode.py:319-340 | the run reaches the caller's address 2 three steps in, having printed 65 |
| Programs.CallReturns | opcode.py:319-340 | the whole program halts at 5 with 65 then 66 printed and the stack empty |
| Programs.EchoRoundRuns | opcode.py:359-364 | one round of `in R0; out R0; jmp 0` stores and prints the word read and is back at 0 |
| Programs.EchoEnds | opcode.py:359-364 | at 0 with no input left the echo loop faults there, changing nothing |
| Programs.EchoProgramRounds | opcode.py:359-364 | the echo loop's rounds copy a buffered character, copy a line's first character, and stop when dry, in every state at 0 |
| Programs.DrainsBuffer | inout.py:12-14 | a run that copies a character per round and stops when dry empties the buffer into the output |
| Programs.LineWritten | inout.py:6-14 | copying a line's first character and then its buffered rest writes the whole line and its newline |
| Programs.EchoesOneLine | inout.py:6-14 | such a run on one scripted line ends by faulting for input, after copying that whole line |
| Programs.EchoesLine | opcode.py:359-364 | the echo program, given one non-empty line, prints that line and a newline and then faults for input |
| Programs.UnknownOpcodeFaults | opcode.py:381-388 | a program starting with a number above 21 faults at once as an invalid opcode |
| Programs.RetFirstFaults | opcode.py:332-340 | a program starting with `ret` faults at once on the empty stack |

## Left out

- The command line, opening the image file and the status messages `main.py` prints are not modelled; the image is a byte sequence parameter.
- The messages the source prints before failing are not modelled, such as "interpret: unhandled number" or "Error: Popping from empty stack"; only the fault kind remains.
- A Python `None` from an operand decoder is a fault `InvalidOperand` at once. The source carries the `None` on, and what happens then differs by opcode and operand. As a source operand of `eq` it stores 0 when the other operand is a number and 1 when both are `None` (opcode.py:89); `jt` jumps to b and `jf` falls through (opcode.py:140, 153); `set` and `push` store it as the value; `gt` and arithmetic raise `TypeError`. As a destination it raises `TypeError`, at `None - 32768` in `set` (opcode.py:35) and at the range test `32768 <= a` in every opcode that stores a result (opcode.py:90 and the like).
- Runs are bounded by a `fuel` count of steps, because a run of the source need not end; an unbounded run is not modelled.
- Characters are their code points; `chr`, `ord` beyond that, and terminal encodings are not modelled.
- The abstract base class `Opcode` and its abstract methods are not modelled; the opcode classes become variants of `Opcodes.Op` and methods of `Vm.Machine`.
- The `main` function of opcode.py (opcode.py:464-465) does nothing and is not modelled.
- The text of each listing line (the decimal fields, `ljust` padding, `ascii(chr(...))`) is not modelled; only the next address and the operand tokens are.
- The faulty return tuple of `NoopOpcode.execute` (opcode.py:375, missing the stack) is not modelled: opcode 21 maps to `HaltOpcode`, so that method is never called.
- The "Unhandled opcode" message of main.py:65 is not modelled; the loop just moves on one word.
- The listing of the undefined opcode (opcode.py:386-388) is modelled only through the table's `Undefined` width.
- Semantics.Effect: `pop` on an empty stack faults without the source's store of 0 and its stop; that store is `Semantics.PopAsWritten`.
- inout.py's `output_word` is not called by opcode.py (`out` prints `chr(a)` directly). `InOut.Terminal.OutputWord` models it on its own and the engine writes the value unreduced.
- End of input is the fault `InputExhausted` where Python's `input()` would raise `EOFError`.
- Concurrency and timing do not arise; the console is the only side effect.

## Findings

| source | as written | input that shows it | evidently intended | confidence | as-written member | corrected member |
|---|---|---|---|---|---|---|
| opcode.py:413 | `21: HaltOpcode()` | memory `[21, ...]`: the run stops at address 0 | 21 is `noop` and continues | high, not executed | Properties.Opcode21AsWritten | Properties.HaltAndNoop |
| opcode.py:35-38 | destination `imm_interpret(a) - 32768` indexes the register list | `set 32767 5` writes R7 through index -1 | only 32768..32775 name a destination | high, not executed | Properties.SetLiteralDestinationAsWritten | Properties.SetWritesNamedRegister |
| opcode.py:66-75 | an empty stack stores 0 at the destination and stops | `pop R0` with R0 = 5 and an empty stack leaves R0 = 0 | stop with an error, leaving R0 alone | medium, not executed | Properties.PopEmptyAsWritten | Properties.EmptyStackFaults |
| opcode.py:349-350 | `out` decodes its operand raw | `out R0` with R0 = 65 prints character 32768 | print the value of R0, 65 | high, not executed | Properties.OutRegisterAsWritten | Properties.OutWritesValue |
| opcode.py:335-337 | `ret` on an empty stack continues at pc + 1 | memory `[18, 0]`: execution continues at 1 | an empty stack ends the run | high, not executed | Properties.RetEmptyAsWritten | Properties.EmptyStackFaults |
| opcode.py:362-364 | `in` prints a message and stops | `in R0` with typed input "A" stops without storing | store the next input character in R0 | high, not executed | Properties.InStubAsWritten | Properties.InStoresInputWord |
| opcode.py:275 | the listing of `not` returns pc + 4 | `not R0 R1` at 0: the listing continues at 4, execution at 3 | pc + 3, the width of `not` | high, not executed | Properties.NotListingAsWritten | Opcodes.ListingAdvancesByWidth |
| main.py:35-37 | `set` decodes its destination in value mode | `set R1 5` with R1 = 0 writes R0, the register R1's content names | write the register the operand names | high, not executed | Driver.SetByContentAsWritten | Properties.SetWritesNamedRegister |
