/** The opcode table (opcode.py `_table`, `dispatch`), instruction widths, and the address
    arithmetic of the disassembly (`list` of every opcode class). */
module Opcodes {
  import opened Base
  import opened Words
  import opened Operands

  /** One variant per opcode class of the source; `Undefined` is `_undefined_opcode`. */
  datatype Op =
    | Halt | Set | Push | Pop | Eq | Gt | Jmp | Jt | Jf
    | Add | Mult | Mod | And | Or | Not | Rmem | Wmem
    | Call | Ret | Out | In | Noop
    | Undefined

  /** The opcode table with 21 mapped to `noop`, as the instruction set defines it. */
  function Table(code: nat): (op: Op)
    ensures op == Undefined <==> code > 21
    ensures op != Undefined ==> Code(op) == code
  {
    if code == 21 then Noop else TableAsWritten(code)
  }

  /** The table exactly as opcode.py:391-414 writes it: 21 is bound to a second `HaltOpcode`. */
  function TableAsWritten(code: nat): (op: Op)
    ensures op == Undefined <==> code > 21
    ensures op != Undefined && code != 21 ==> Code(op) == code
    ensures code == 21 ==> op == Halt
  {
    match code
    case 0 => Halt
    case 1 => Set
    case 2 => Push
    case 3 => Pop
    case 4 => Eq
    case 5 => Gt
    case 6 => Jmp
    case 7 => Jt
    case 8 => Jf
    case 9 => Add
    case 10 => Mult
    case 11 => Mod
    case 12 => And
    case 13 => Or
    case 14 => Not
    case 15 => Rmem
    case 16 => Wmem
    case 17 => Call
    case 18 => Ret
    case 19 => Out
    case 20 => In
    case 21 => Halt
    case _ => Undefined
  }

  /** The opcode number of each defined opcode. */
  function Code(op: Op): nat
    requires op != Undefined
  {
    match op
    case Halt => 0
    case Set => 1
    case Push => 2
    case Pop => 3
    case Eq => 4
    case Gt => 5
    case Jmp => 6
    case Jt => 7
    case Jf => 8
    case Add => 9
    case Mult => 10
    case Mod => 11
    case And => 12
    case Or => 13
    case Not => 14
    case Rmem => 15
    case Wmem => 16
    case Call => 17
    case Ret => 18
    case Out => 19
    case In => 20
    case Noop => 21
  }

  /** Instruction width in words, the opcode word included. The listing steps over an
      undefined opcode one word at a time. */
  function Width(op: Op): (n: nat)
    ensures 1 <= n <= 4
    ensures n == 1 <==> op in {Halt, Ret, Noop, Undefined}
  {
    match op
    case Halt | Ret | Noop | Undefined => 1
    case Push | Pop | Jmp | Call | Out | In => 2
    case Set | Jt | Jf | Not | Rmem | Wmem => 3
    case Eq | Gt | Add | Mult | Mod | And | Or => 4
  }

  /** Opcodes whose successor address is not simply the next instruction. */
  predicate IsControlTransfer(op: Op)
  {
    op in {Jmp, Jt, Jf, Call, Ret}
  }

  /** `dispatch`: fails when `pc` is not a memory key, else the table entry of `memory[pc]`. */
  function Dispatch(pc: nat, memory: map<nat, nat>): (r: Result<Op>)
    ensures r.Err? <==> pc !in memory
    ensures r.Err? ==> r.fault == UndefinedAddress
    ensures r.Ok? ==> (r.value == Undefined <==> memory[pc] > 21)
  {
    if pc !in memory then Err(UndefinedAddress) else Ok(Table(memory[pc]))
  }

  /** Decoding a table entry and encoding it again gives the entry back. */
  lemma {:induction false} TableCodeRoundTrip(op: Op)
    requires op != Undefined
    ensures Code(op) <= 21
    ensures Table(Code(op)) == op
  {
  }

  /** The table defines exactly the opcode numbers 0..21, each with its own code. */
  lemma TableDefinedRange(code: nat)
    ensures Table(code) != Undefined <==> code <= 21
    ensures Table(code) != Undefined ==> Code(Table(code)) == code
  {
  }

  /** `dispatch` faults exactly when `pc` is not a memory key, and otherwise yields the
      undefined opcode exactly for numbers above 21. */
  lemma DispatchOutcomes(pc: nat, memory: map<nat, nat>)
    ensures Dispatch(pc, memory).Err? <==> pc !in memory
    ensures Dispatch(pc, memory).Err? ==> Dispatch(pc, memory).fault == UndefinedAddress
    ensures pc in memory ==> (Dispatch(pc, memory) == Ok(Undefined) <==> memory[pc] > 21)
  {
    TableDefinedRange(if pc in memory then memory[pc] else 0);
  }

  /** The written table agrees with the instruction set everywhere except on 21. */
  lemma TableAsWrittenDiffersOnlyAt21(code: nat)
    ensures TableAsWritten(code) == Table(code) <==> code != 21
    ensures TableAsWritten(21) == Halt && Table(21) == Noop
  {
  }

  // ---------------------------------------------------------------------------------------
  // Listing (disassembly)

  /** What a `list` call yields, without its text padding: the next address, the opcode and
      each operand as `list_interpret` classifies it. */
  datatype Listing = Listing(next: nat, op: Op, operands: seq<Option<Token>>)

  /** The address after an instruction in the listing, with `not` stepping 3 words. */
  function ListNext(op: Op, pc: nat): nat
  {
    pc + Width(op)
  }

  /** The address after an instruction as each `list` method returns it, offset by offset
      (opcode.py:29, 44, 59, 80, 99, 119, 132, 145, 158, 177, 197, 217, 237, 257, 275, 295,
      315, 329, 343, 356, 369, 378, 388). */
  function ListNextAsWritten(op: Op, pc: nat): (next: nat)
    ensures pc < next <= pc + 4
  {
    match op
    case Halt => pc + 1
    case Set => pc + 3
    case Push => pc + 2
    case Pop => pc + 2
    case Eq => pc + 4
    case Gt => pc + 4
    case Jmp => pc + 2
    case Jt => pc + 3
    case Jf => pc + 3
    case Add => pc + 4
    case Mult => pc + 4
    case Mod => pc + 4
    case And => pc + 4
    case Or => pc + 4
    case Not => pc + 4
    case Rmem => pc + 3
    case Wmem => pc + 3
    case Call => pc + 2
    case Ret => pc + 1
    case Out => pc + 2
    case In => pc + 2
    case Noop => pc + 1
    case Undefined => pc + 1
  }

  /** The operand words `memory[pc + 1] .. memory[pc + n]`, each classified for display. */
  function OperandTokens(pc: nat, memory: map<nat, nat>, n: nat): (r: Result<seq<Option<Token>>>)
    ensures r.Ok? ==> |r.value| == n
    ensures r.Ok? <==> forall a :: pc < a <= pc + n ==> a in memory
    ensures r.Ok? ==> forall a :: pc < a <= pc + n ==> r.value[a - pc - 1] == ListInterpret(memory[a])
    decreases n
  {
    if n == 0 then Ok([])
    else
      var init :- OperandTokens(pc, memory, n - 1);
      if pc + n in memory then Ok(init + [ListInterpret(memory[pc + n])]) else Err(UndefinedAddress)
  }

  /** The listing of the instruction at `pc`. `OutOpcode.list` applies `int()` to the rendered
      operand (opcode.py:354-355), which fails unless it is a literal. */
  function ListAt(pc: nat, memory: map<nat, nat>): (r: Result<Listing>)
    ensures r.Err? && pc !in memory ==> r.fault == UndefinedAddress
    ensures r.Ok? ==> pc in memory && r.value.op == Table(memory[pc])
    ensures r.Ok? ==> r.value.next == pc + Width(r.value.op) && |r.value.operands| == Width(r.value.op) - 1
  {
    var op :- Dispatch(pc, memory);
    var tokens :- OperandTokens(pc, memory, Width(op) - 1);
    if op == Out && !(tokens[0].Some? && tokens[0].value.Literal?) then Err(InvalidOperand)
    else Ok(Listing(ListNext(op, pc), op, tokens))
  }

  /** Every listing advances by the width of its instruction and shows one operand per
      operand word, and it fails only on a missing word or a non-literal `out` operand. */
  lemma ListingAdvancesByWidth(pc: nat, memory: map<nat, nat>)
    requires pc in memory
    ensures var op := Table(memory[pc]);
      ListAt(pc, memory).Ok? ==>
        && ListAt(pc, memory).value.op == op
        && ListAt(pc, memory).value.next == pc + Width(op)
        && |ListAt(pc, memory).value.operands| == Width(op) - 1
    ensures var op := Table(memory[pc]);
      ListAt(pc, memory).Err? <==>
        || (exists a :: pc < a < pc + Width(op) && a !in memory)
        || (op == Out && pc + 1 in memory && memory[pc + 1] > MaxWord)
  {
    var op := Table(memory[pc]);
    var r := OperandTokens(pc, memory, Width(op) - 1);
    if op == Out && r.Ok? {
      assert r.value[0] == ListInterpret(memory[pc + 1]);
    }
  }

  /** The offsets the `list` methods return agree with the instruction widths for every
      opcode but `not`, whose listing (opcode.py:275) overshoots its three words by one. */
  lemma ListWidthMatchesExecution(op: Op, pc: nat)
    ensures ListNextAsWritten(op, pc) == pc + Width(op) <==> op != Not
    ensures ListNextAsWritten(Not, pc) == pc + Width(Not) + 1
  {
  }
}
