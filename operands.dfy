/** Operand decoding (opcode.py `read_interpret`, `imm_interpret`, `list_interpret`).
    A raw operand 0..32767 is a literal, 32768..32775 names register 0..7, anything larger is
    invalid. Where the source prints a message and yields Python's `None`, these yield `None`. */
module Operands {
  import opened Base
  import opened Words

  /** How the listing renders an operand: its decimal value or `R<n>`. */
  datatype Token = Literal(value: nat) | Register(index: RegIndex)

  /** A resolved write target: a register, or a memory key. */
  datatype Dest = Reg(index: RegIndex) | Cell(addr: nat)

  /** Value mode: a literal is itself, a register reference is that register's content. */
  function ReadInterpret(num: nat, registers: seq<nat>): (r: Option<nat>)
    requires |registers| == RegisterCount
    ensures r.Some? <==> num < RegisterBase + RegisterCount
    ensures r.Some? ==> r.value == num || r.value in registers
  {
    if num <= MaxWord then Some(num)
    else if num < RegisterBase + RegisterCount then Some(registers[num - RegisterBase])
    else None
  }

  /** Raw mode: literals and register references are both returned unchanged. */
  function ImmInterpret(num: nat): (r: Option<nat>)
    ensures r.Some? <==> num < RegisterBase + RegisterCount
    ensures r.Some? ==> r.value == num
  {
    if num <= MaxWord then Some(num)
    else if num < RegisterBase + RegisterCount then Some(num)
    else None
  }

  /** Listing mode: the operand as the disassembly shows it. */
  function ListInterpret(num: nat): (r: Option<Token>)
    ensures r.Some? <==> num < RegisterBase + RegisterCount
    ensures r.Some? && r.value.Literal? ==> r.value.value == num && num <= MaxWord
    ensures r.Some? && r.value.Register? ==> RegisterBase + r.value.index == num
  {
    if num <= MaxWord then Some(Literal(num))
    else if num < RegisterBase + RegisterCount then Some(Register(num - RegisterBase))
    else None
  }

  /** Where a store goes: `if 32768 <= a <= 32775: registers[a - 32768] = res else: memory[a] = res`,
      written out in every `execute` that stores a result. */
  function DestOf(a: nat): (d: Dest)
    ensures d.Reg? <==> IsRegisterRef(a)
    ensures d.Reg? ==> RegisterBase + d.index == a
    ensures d.Cell? ==> d.addr == a
  {
    if IsRegisterRef(a) then Reg(a - RegisterBase) else Cell(a)
  }

  /** Value mode on each of the three ranges. */
  lemma ValueModeDecoding(num: nat, registers: seq<nat>)
    requires |registers| == RegisterCount
    ensures num <= MaxWord ==> ReadInterpret(num, registers) == Some(num)
    ensures IsRegisterRef(num) ==> ReadInterpret(num, registers) == Some(registers[num - RegisterBase])
    ensures ReadInterpret(num, registers).None? <==> num >= RegisterBase + RegisterCount
  {
  }

  /** Raw mode followed by `DestOf`: literals are memory keys, register references registers. */
  lemma DestinationDecoding(num: nat)
    ensures ImmInterpret(num).Some? <==> num < RegisterBase + RegisterCount
    ensures num <= MaxWord ==> ImmInterpret(num) == Some(num) && DestOf(num) == Cell(num)
    ensures IsRegisterRef(num) ==> ImmInterpret(num) == Some(num) && DestOf(num) == Reg(num - RegisterBase)
  {
  }

  /** The three decoders classify the same raw values as valid, and value mode reads exactly
      what the listing names: the literal itself or the content of register `R<n>`. */
  lemma DecodersAgree(num: nat, registers: seq<nat>)
    requires |registers| == RegisterCount
    ensures ReadInterpret(num, registers).Some? == ImmInterpret(num).Some? == ListInterpret(num).Some?
    ensures ListInterpret(num) == Some(Literal(num)) ==> ReadInterpret(num, registers) == Some(num)
    ensures forall i: RegIndex :: ListInterpret(num) == Some(Register(i)) ==>
              ReadInterpret(num, registers) == Some(registers[i]) && DestOf(num) == Reg(i)
  {
  }

  /** Value mode reads no register for a literal, and only the named register otherwise. */
  lemma ReadInterpretFrame(num: nat, r1: seq<nat>, r2: seq<nat>)
    requires |r1| == RegisterCount && |r2| == RegisterCount
    requires IsRegisterRef(num) ==> r1[num - RegisterBase] == r2[num - RegisterBase]
    ensures ReadInterpret(num, r1) == ReadInterpret(num, r2)
  {
  }
}
