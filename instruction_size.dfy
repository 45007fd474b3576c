/** The two size tables of src/dex/instruction/size.rs: `size_bytes` per
    variant and `instruction_size_bytes` per opcode byte. */
module InstructionSize {
  import opened Utils
  import opened RustTypes
  import opened Errors
  import opened Instructions

  /** The opcode bytes no Dalvik instruction uses. */
  predicate IsUnusedOpcode(opcode: U8)
  {
    (0x3E <= opcode <= 0x43) || opcode == 0x73 || (0x79 <= opcode <= 0x7A) || (0xE3 <= opcode <= 0xF9)
  }

  /** `instruction_size_bytes`: the size in bytes of the instruction an opcode
      byte starts, or `UnknownOpcode` for exactly the unused opcodes. The
      alternatives are listed in the order of the source. */
  function InstructionSizeBytes(opcode: U8): (r: Result<nat, InstructionError>)
    ensures r.Err? <==> IsUnusedOpcode(opcode)
    ensures r.Err? ==> r.error == UnknownOpcode(opcode)
    ensures r.Ok? ==> r.value in {2, 4, 6, 8, 10}
    ensures r == Ok(10) <==> opcode == 0x18
    ensures r == Ok(8) <==> opcode == 0xFA || opcode == 0xFB
  {
    if opcode == 0x00 || opcode == 0x0E || opcode == 0x21 || opcode == 0x28
       || (0x0A <= opcode <= 0x0D) || (0x0F <= opcode <= 0x11) || (0x1D <= opcode <= 0x1E)
       || opcode == 0x27 || opcode == 0x12 || opcode == 0x01 || opcode == 0x04 || opcode == 0x07
       || (0x7B <= opcode <= 0x8F) || (0xB0 <= opcode <= 0xCF)
    then Ok(2)
    else if opcode == 0x22 || opcode == 0x29 || opcode == 0x1A || opcode == 0x1C
       || (0x1F <= opcode <= 0x1F) || (0x60 <= opcode <= 0x6D) || opcode == 0xFE || opcode == 0xFF
       || opcode == 0x15 || opcode == 0x19 || opcode == 0x13 || opcode == 0x16
       || (0x38 <= opcode <= 0x3D) || (0xD8 <= opcode <= 0xE2) || opcode == 0x20 || opcode == 0x23
       || (0x52 <= opcode <= 0x5F) || (0xD0 <= opcode <= 0xD7) || (0x32 <= opcode <= 0x37)
       || opcode == 0x02 || opcode == 0x05 || opcode == 0x08 || (0x2D <= opcode <= 0x31)
       || (0x44 <= opcode <= 0x51) || (0x90 <= opcode <= 0xAF)
    then Ok(4)
    else if opcode == 0x2A || opcode == 0x1B || opcode == 0x14 || opcode == 0x17 || opcode == 0x26
       || opcode == 0x2B || opcode == 0x2C || opcode == 0x03 || opcode == 0x06 || opcode == 0x09
       || opcode == 0x24 || (0x6E <= opcode <= 0x72) || opcode == 0xFC || opcode == 0x25
       || (0x74 <= opcode <= 0x78) || opcode == 0xFD
    then Ok(6)
    else if opcode == 0xFA || opcode == 0xFB then Ok(8)
    else if opcode == 0x18 then Ok(10)
    else Err(UnknownOpcode(opcode))
  }

  /** `size_bytes`: the size in bytes of a decoded instruction, which depends
      only on its variant: one of 2, 4, 6, 8, 10, so even and at least 2.
      That it is the size the opcode table gives for the variant's opcode
      byte is `InstructionEncode.EncodeShape`. (The move/16 variants are
      corrected to 6 bytes; `SizeBytesAsWritten` is the table as the source
      writes it.) */
  function SizeBytes(i: Instruction): (r: nat)
    ensures r in {2, 4, 6, 8, 10} && r % 2 == 0 && r >= 2
  {
    match i
    case Nop => 2
    case Move(_, _) => 2
    case MoveFrom16(_, _) => 4
    case Move16(_, _) => 6
    case MoveWide(_, _) => 2
    case MoveWideFrom16(_, _) => 4
    case MoveWide16(_, _) => 6
    case MoveObject(_, _) => 2
    case MoveObjectFrom16(_, _) => 4
    case MoveObject16(_, _) => 6
    case MoveResult(_) => 2
    case MoveResultWide(_) => 2
    case MoveResultObject(_) => 2
    case MoveException(_) => 2
    case ReturnVoid => 2
    case Return(_) => 2
    case ReturnWide(_) => 2
    case ReturnObject(_) => 2
    case Const4(_, _) => 2
    case Const16(_, _) => 4
    case Const(_, _) => 6
    case ConstHigh16(_, _) => 4
    case ConstWide16(_, _) => 4
    case ConstWide32(_, _) => 6
    case ConstWide(_, _) => 10
    case ConstWideHigh16(_, _) => 4
    case ConstString(_, _) => 4
    case ConstStringJumbo(_, _) => 6
    case ConstClass(_, _) => 4
    case MonitorEnter(_) => 2
    case MonitorExit(_) => 2
    case CheckCast(_, _) => 4
    case InstanceOf(_, _, _) => 4
    case ArrayLength(_, _) => 2
    case NewInstance(_, _) => 4
    case NewArray(_, _, _) => 4
    case FilledNewArray(_, _, _) => 6
    case FilledNewArrayRange(_, _, _) => 6
    case FillArrayData(_, _) => 6
    case Throw(_) => 2
    case Goto(_) => 2
    case Goto16(_) => 4
    case Goto32(_) => 6
    case PackedSwitch(_, _) => 6
    case SparseSwitch(_, _) => 6
    case Cmp(_, _, _, _) => 4
    case IfTest(_, _, _, _) => 4
    case IfTestZ(_, _, _) => 4
    case Aget(_, _, _, _) => 4
    case Aput(_, _, _, _) => 4
    case Iget(_, _, _, _) => 4
    case Iput(_, _, _, _) => 4
    case Sget(_, _, _) => 4
    case Sput(_, _, _) => 4
    case Invoke(_, _, _, _) => 6
    case InvokeRange(_, _, _, _) => 6
    case Unop(_, _, _) => 2
    case Binop(_, _, _, _) => 4
    case Binop2Addr(_, _, _) => 2
    case BinopLit16(_, _, _, _) => 4
    case BinopLit8(_, _, _, _) => 4
    case InvokePolymorphic(_, _, _, _) => 8
    case InvokePolymorphicRange(_, _, _, _) => 8
    case InvokeCustom(_, _, _) => 6
    case InvokeCustomRange(_, _, _) => 6
    case ConstMethodHandle(_, _) => 4
    case ConstMethodType(_, _) => 4
  }

  /** `size_bytes` as the source writes it: 4 for move/16, move-wide/16 and
      move-object/16, whose format 32x takes three code units and whose opcode
      bytes the opcode table sizes at 6; every other variant as `SizeBytes`. */
  function SizeBytesAsWritten(i: Instruction): (r: nat)
    ensures (i.Move16? || i.MoveWide16? || i.MoveObject16?) <==> r != SizeBytes(i)
    ensures r >= 2
  {
    if i.Move16? || i.MoveWide16? || i.MoveObject16? then 4 else SizeBytes(i)
  }

  /** For every move/16 instruction the as-written `size_bytes` disagrees with
      the opcode table, which is what `assert_helper` demands of every decoded
      instruction. */
  lemma SizeBytesAsWrittenDisagrees(dst: U16, src: U16)
    ensures SizeBytesAsWritten(Move16(dst, src)) == 4
    ensures InstructionSizeBytes(OpcodeByte(Move16(dst, src))) == Ok(6)
  {
  }
}
