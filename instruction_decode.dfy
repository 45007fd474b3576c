/** `Instruction::try_decode` (src/dex/instruction/decode.rs): the opcode
    byte selects the size from the opcode table, and the operands are read
    from the instruction's first `expected` bytes at the positions of its
    Dalvik instruction format. */
module InstructionDecode {
  import opened Utils
  import opened RustTypes
  import opened Errors
  import opened Instructions
  import opened InstructionSize

  /** `try_decode`. An empty buffer, an unused opcode and a buffer shorter than
      the opcode's size are the three errors, checked in that order; otherwise
      the instruction is decoded from the first `expected` bytes, and its
      variant belongs to the opcode byte and its `size_bytes` is `expected`. */
  function TryDecode(buffer: Bytes): (r: Result<Instruction, InstructionError>)
    ensures buffer == [] ==> r == Err(EmptyBuffer)
    ensures buffer != [] && IsUnusedOpcode(buffer[0]) ==> r == Err(UnknownOpcode(buffer[0]))
    ensures buffer != [] && !IsUnusedOpcode(buffer[0]) && |buffer| < InstructionSizeBytes(buffer[0]).value
            ==> r == Err(Size(buffer[0], InstructionSizeBytes(buffer[0]).value, |buffer|))
    ensures r.Ok? <==> buffer != [] && !IsUnusedOpcode(buffer[0])
                       && |buffer| >= InstructionSizeBytes(buffer[0]).value
    ensures r.Ok? ==> OpcodeByte(r.value) == buffer[0] && WellFormed(r.value)
                      && InstructionSizeBytes(buffer[0]) == Ok(SizeBytes(r.value))
                      && SizeBytes(r.value) <= |buffer|
  {
    if buffer == [] then Err(EmptyBuffer)
    else
      var opcode := buffer[0];
      match InstructionSizeBytes(opcode)
      case Err(e) => Err(e)
      case Ok(expected) =>
        if |buffer| < expected then Err(Size(opcode, expected, |buffer|))
        else DecodeOperandsShape(buffer[..expected]); Ok(DecodeOperands(buffer[..expected]))
  }

  /** The operand reads of one instruction, given exactly its bytes: every
      read index is below the opcode's size, so decoding never reads past the
      instruction (the source's `unknown` arm is unreachable, since the opcode
      table has already rejected unused opcodes). */
  function DecodeOperands(insn: Bytes): Instruction
    requires insn != [] && InstructionSizeBytes(insn[0]) == Ok(|insn|)
  {
    if |insn| == 2 then DecodeSize2(insn)
    else if |insn| == 4 then DecodeSize4(insn)
    else if |insn| == 6 then DecodeSize6(insn)
    else if |insn| == 8 then DecodeSize8(insn)
    else DecodeSize10(insn)
  }

  /** The decoded instruction belongs to the opcode byte, its `size_bytes` is
      the number of bytes it was decoded from, and its nibble fields fit. */
  lemma DecodeOperandsShape(insn: Bytes)
    requires insn != [] && InstructionSizeBytes(insn[0]) == Ok(|insn|)
    ensures var r := DecodeOperands(insn); OpcodeByte(r) == insn[0] && SizeBytes(r) == |insn| && WellFormed(r)
  {
    if |insn| == 2 {
      DecodeSize2Shape(insn);
    } else if |insn| == 4 {
      DecodeSize4Shape(insn);
    } else if |insn| == 6 {
      DecodeSize6Shape(insn);
    } else if |insn| == 8 {
      DecodeSize8Shape(insn);
    } else {
      DecodeSize10Shape(insn);
    }
  }

  /** The argument registers C, D, E, F, G of format 35c (`A|G|op BBBB F|E|D|C`):
      C and D are the low and high nibble of byte 4, E and F those of byte 5,
      and G is the low nibble of byte 1. */
  function Args35c(b1: U8, b4: U8, b5: U8): (r: RegArgs)
    ensures RegsFit(r)
  {
    [Lo(b4), Hi(b4), Lo(b5), Hi(b5), Lo(b1)]
  }

  /** The argument slots as src/dex/instruction/decode.rs builds them
      (`[c, d, e, f, g]` with `(c, d)` from byte 5 and `(e, f)` from byte 4). */
  function Args35cAsWritten(b1: U8, b4: U8, b5: U8): (r: RegArgs)
    ensures r[..4] == Args35c(b1, b4, b5)[2..4] + Args35c(b1, b4, b5)[..2]
    ensures r[4] == Args35c(b1, b4, b5)[4]
  {
    [Lo(b5), Hi(b5), Lo(b4), Hi(b4), Lo(b1)]
  }

  /** The instructions of 2 bytes, by opcode range. */
  function DecodeSize2(insn: Bytes): Instruction
    requires |insn| == 2 && InstructionSizeBytes(insn[0]) == Ok(2)
  {
    if insn[0] <= 0x01 then DecodeSize2A(insn)
    else if insn[0] <= 0x07 then DecodeSize2B(insn)
    else if insn[0] <= 0x0B then DecodeSize2C(insn)
    else if insn[0] <= 0x0D then DecodeSize2D(insn)
    else if insn[0] <= 0x0F then DecodeSize2E(insn)
    else if insn[0] <= 0x11 then DecodeSize2F(insn)
    else if insn[0] <= 0x1D then DecodeSize2G(insn)
    else if insn[0] <= 0x21 then DecodeSize2H(insn)
    else if insn[0] <= 0x28 then DecodeSize2I(insn)
    else DecodeSize2J(insn)
  }

  lemma DecodeSize2Shape(insn: Bytes)
    requires |insn| == 2 && InstructionSizeBytes(insn[0]) == Ok(2)
    ensures var r := DecodeSize2(insn); OpcodeByte(r) == insn[0] && SizeBytes(r) == |insn| && WellFormed(r)
  {
    if insn[0] <= 0x01 {
      DecodeSize2AShape(insn);
    } else if insn[0] <= 0x07 {
      DecodeSize2BShape(insn);
    } else if insn[0] <= 0x0B {
      DecodeSize2CShape(insn);
    } else if insn[0] <= 0x0D {
      DecodeSize2DShape(insn);
    } else if insn[0] <= 0x0F {
      DecodeSize2EShape(insn);
    } else if insn[0] <= 0x11 {
      DecodeSize2FShape(insn);
    } else if insn[0] <= 0x1D {
      DecodeSize2GShape(insn);
    } else if insn[0] <= 0x21 {
      DecodeSize2HShape(insn);
    } else if insn[0] <= 0x28 {
      DecodeSize2IShape(insn);
    } else {
      DecodeSize2JShape(insn);
    }
  }

  /** The instructions of 2 bytes with opcodes 0x00-0x01. */
  function DecodeSize2A(insn: Bytes): Instruction
    requires |insn| == 2 && InstructionSizeBytes(insn[0]) == Ok(2) && insn[0] <= 0x01
  {
    var opcode := insn[0];
    if opcode == 0x00 then Nop
    else if opcode == 0x01 then var (dst, src) := ToNibbles(insn[1]); Move(dst, src)
    else assert false; Nop
  }

  lemma DecodeSize2AShape(insn: Bytes)
    requires |insn| == 2 && InstructionSizeBytes(insn[0]) == Ok(2) && insn[0] <= 0x01
    ensures var r := DecodeSize2A(insn); OpcodeByte(r) == insn[0] && SizeBytes(r) == |insn| && WellFormed(r)
  {
  }

  /** The instructions of 2 bytes with opcodes 0x04-0x07. */
  function DecodeSize2B(insn: Bytes): Instruction
    requires |insn| == 2 && InstructionSizeBytes(insn[0]) == Ok(2) && 0x02 <= insn[0] <= 0x07
  {
    var opcode := insn[0];
    if opcode == 0x04 then var (dst, src) := ToNibbles(insn[1]); MoveWide(dst, src)
    else if opcode == 0x07 then var (dst, src) := ToNibbles(insn[1]); MoveObject(dst, src)
    else assert false; Nop
  }

  lemma DecodeSize2BShape(insn: Bytes)
    requires |insn| == 2 && InstructionSizeBytes(insn[0]) == Ok(2) && 0x02 <= insn[0] <= 0x07
    ensures var r := DecodeSize2B(insn); OpcodeByte(r) == insn[0] && SizeBytes(r) == |insn| && WellFormed(r)
  {
  }

  /** The instructions of 2 bytes with opcodes 0x0A-0x0B. */
  function DecodeSize2C(insn: Bytes): Instruction
    requires |insn| == 2 && InstructionSizeBytes(insn[0]) == Ok(2) && 0x08 <= insn[0] <= 0x0B
  {
    var opcode := insn[0];
    if opcode == 0x0A then MoveResult(insn[1])
    else if opcode == 0x0B then MoveResultWide(insn[1])
    else assert false; Nop
  }

  lemma DecodeSize2CShape(insn: Bytes)
    requires |insn| == 2 && InstructionSizeBytes(insn[0]) == Ok(2) && 0x08 <= insn[0] <= 0x0B
    ensures var r := DecodeSize2C(insn); OpcodeByte(r) == insn[0] && SizeBytes(r) == |insn| && WellFormed(r)
  {
  }

  /** The instructions of 2 bytes with opcodes 0x0C-0x0D. */
  function DecodeSize2D(insn: Bytes): Instruction
    requires |insn| == 2 && InstructionSizeBytes(insn[0]) == Ok(2) && 0x0C <= insn[0] <= 0x0D
  {
    var opcode := insn[0];
    if opcode == 0x0C then MoveResultObject(insn[1])
    else if opcode == 0x0D then MoveException(insn[1])
    else assert false; Nop
  }

  lemma DecodeSize2DShape(insn: Bytes)
    requires |insn| == 2 && InstructionSizeBytes(insn[0]) == Ok(2) && 0x0C <= insn[0] <= 0x0D
    ensures var r := DecodeSize2D(insn); OpcodeByte(r) == insn[0] && SizeBytes(r) == |insn| && WellFormed(r)
  {
  }

  /** The instructions of 2 bytes with opcodes 0x0E-0x0F. */
  function DecodeSize2E(insn: Bytes): Instruction
    requires |insn| == 2 && InstructionSizeBytes(insn[0]) == Ok(2) && 0x0E <= insn[0] <= 0x0F
  {
    var opcode := insn[0];
    if opcode == 0x0E then ReturnVoid
    else if opcode == 0x0F then Return(insn[1])
    else assert false; Nop
  }

  lemma DecodeSize2EShape(insn: Bytes)
    requires |insn| == 2 && InstructionSizeBytes(insn[0]) == Ok(2) && 0x0E <= insn[0] <= 0x0F
    ensures var r := DecodeSize2E(insn); OpcodeByte(r) == insn[0] && SizeBytes(r) == |insn| && WellFormed(r)
  {
  }

  /** The instructions of 2 bytes with opcodes 0x10-0x11. */
  function DecodeSize2F(insn: Bytes): Instruction
    requires |insn| == 2 && InstructionSizeBytes(insn[0]) == Ok(2) && 0x10 <= insn[0] <= 0x11
  {
    var opcode := insn[0];
    if opcode == 0x10 then ReturnWide(insn[1])
    else if opcode == 0x11 then ReturnObject(insn[1])
    else assert false; Nop
  }

  lemma DecodeSize2FShape(insn: Bytes)
    requires |insn| == 2 && InstructionSizeBytes(insn[0]) == Ok(2) && 0x10 <= insn[0] <= 0x11
    ensures var r := DecodeSize2F(insn); OpcodeByte(r) == insn[0] && SizeBytes(r) == |insn| && WellFormed(r)
  {
  }

  /** The instructions of 2 bytes with opcodes 0x12-0x1D. */
  function DecodeSize2G(insn: Bytes): Instruction
    requires |insn| == 2 && InstructionSizeBytes(insn[0]) == Ok(2) && 0x12 <= insn[0] <= 0x1D
  {
    var opcode := insn[0];
    if opcode == 0x12 then var (dst, lit8) := ToNibbles(insn[1]); Const4(dst, lit8)
    else if opcode == 0x1D then MonitorEnter(insn[1])
    else assert false; Nop
  }

  lemma DecodeSize2GShape(insn: Bytes)
    requires |insn| == 2 && InstructionSizeBytes(insn[0]) == Ok(2) && 0x12 <= insn[0] <= 0x1D
    ensures var r := DecodeSize2G(insn); OpcodeByte(r) == insn[0] && SizeBytes(r) == |insn| && WellFormed(r)
  {
  }

  /** The instructions of 2 bytes with opcodes 0x1E-0x21. */
  function DecodeSize2H(insn: Bytes): Instruction
    requires |insn| == 2 && InstructionSizeBytes(insn[0]) == Ok(2) && 0x1E <= insn[0] <= 0x21
  {
    var opcode := insn[0];
    if opcode == 0x1E then MonitorExit(insn[1])
    else if opcode == 0x21 then var (dst, arr) := ToNibbles(insn[1]); ArrayLength(dst, arr)
    else assert false; Nop
  }

  lemma DecodeSize2HShape(insn: Bytes)
    requires |insn| == 2 && InstructionSizeBytes(insn[0]) == Ok(2) && 0x1E <= insn[0] <= 0x21
    ensures var r := DecodeSize2H(insn); OpcodeByte(r) == insn[0] && SizeBytes(r) == |insn| && WellFormed(r)
  {
  }

  /** The instructions of 2 bytes with opcodes 0x27-0x28. */
  function DecodeSize2I(insn: Bytes): Instruction
    requires |insn| == 2 && InstructionSizeBytes(insn[0]) == Ok(2) && 0x22 <= insn[0] <= 0x28
  {
    var opcode := insn[0];
    if opcode == 0x27 then Throw(insn[1])
    else if opcode == 0x28 then Goto(AsI8(insn[1]))
    else assert false; Nop
  }

  lemma DecodeSize2IShape(insn: Bytes)
    requires |insn| == 2 && InstructionSizeBytes(insn[0]) == Ok(2) && 0x22 <= insn[0] <= 0x28
    ensures var r := DecodeSize2I(insn); OpcodeByte(r) == insn[0] && SizeBytes(r) == |insn| && WellFormed(r)
  {
  }

  /** The instructions of 2 bytes with opcodes 0x7B-0xCF. */
  function DecodeSize2J(insn: Bytes): Instruction
    requires |insn| == 2 && InstructionSizeBytes(insn[0]) == Ok(2) && 0x29 <= insn[0]
  {
    var opcode := insn[0];
    if 0x7B <= opcode <= 0x8F then DecodeUnaryOp(insn)
    else if 0xB0 <= opcode <= 0xCF then DecodeBinaryOp2Addr(insn)
    else assert false; Nop
  }

  lemma DecodeSize2JShape(insn: Bytes)
    requires |insn| == 2 && InstructionSizeBytes(insn[0]) == Ok(2) && 0x29 <= insn[0]
    ensures var r := DecodeSize2J(insn); OpcodeByte(r) == insn[0] && SizeBytes(r) == |insn| && WellFormed(r)
  {
    if 0x7B <= insn[0] <= 0x8F {
      DecodeUnaryOpShape(insn);
    }
    if 0xB0 <= insn[0] <= 0xCF {
      DecodeBinaryOp2AddrShape(insn);
    }
  }

  /** The instructions of 4 bytes, by opcode range. */
  function DecodeSize4(insn: Bytes): Instruction
    requires |insn| == 4 && InstructionSizeBytes(insn[0]) == Ok(4)
  {
    if insn[0] <= 0x05 then DecodeSize4A(insn)
    else if insn[0] <= 0x13 then DecodeSize4B(insn)
    else if insn[0] <= 0x16 then DecodeSize4C(insn)
    else if insn[0] <= 0x1A then DecodeSize4D(insn)
    else if insn[0] <= 0x1F then DecodeSize4E(insn)
    else if insn[0] <= 0x22 then DecodeSize4F(insn)
    else if insn[0] <= 0x29 then DecodeSize4G(insn)
    else if insn[0] <= 0x37 then DecodeSize4H(insn)
    else if insn[0] <= 0x51 then DecodeSize4I(insn)
    else if insn[0] <= 0x6D then DecodeSize4J(insn)
    else if insn[0] <= 0xD7 then DecodeSize4K(insn)
    else if insn[0] <= 0xFE then DecodeSize4L(insn)
    else DecodeSize4M(insn)
  }

  lemma DecodeSize4Shape(insn: Bytes)
    requires |insn| == 4 && InstructionSizeBytes(insn[0]) == Ok(4)
    ensures var r := DecodeSize4(insn); OpcodeByte(r) == insn[0] && SizeBytes(r) == |insn| && WellFormed(r)
  {
    if insn[0] <= 0x05 {
      DecodeSize4AShape(insn);
    } else if insn[0] <= 0x13 {
      DecodeSize4BShape(insn);
    } else if insn[0] <= 0x16 {
      DecodeSize4CShape(insn);
    } else if insn[0] <= 0x1A {
      DecodeSize4DShape(insn);
    } else if insn[0] <= 0x1F {
      DecodeSize4EShape(insn);
    } else if insn[0] <= 0x22 {
      DecodeSize4FShape(insn);
    } else if insn[0] <= 0x29 {
      DecodeSize4GShape(insn);
    } else if insn[0] <= 0x37 {
      DecodeSize4HShape(insn);
    } else if insn[0] <= 0x51 {
      DecodeSize4IShape(insn);
    } else if insn[0] <= 0x6D {
      DecodeSize4JShape(insn);
    } else if insn[0] <= 0xD7 {
      DecodeSize4KShape(insn);
    } else if insn[0] <= 0xFE {
      DecodeSize4LShape(insn);
    } else {
      DecodeSize4MShape(insn);
    }
  }

  /** The instructions of 4 bytes with opcodes 0x02-0x05. */
  function DecodeSize4A(insn: Bytes): Instruction
    requires |insn| == 4 && InstructionSizeBytes(insn[0]) == Ok(4) && insn[0] <= 0x05
  {
    var opcode := insn[0];
    if opcode == 0x02 then MoveFrom16(insn[1], ReadU16Le(insn, 2))
    else if opcode == 0x05 then MoveWideFrom16(insn[1], ReadU16Le(insn, 2))
    else assert false; Nop
  }

  lemma DecodeSize4AShape(insn: Bytes)
    requires |insn| == 4 && InstructionSizeBytes(insn[0]) == Ok(4) && insn[0] <= 0x05
    ensures var r := DecodeSize4A(insn); OpcodeByte(r) == insn[0] && SizeBytes(r) == |insn| && WellFormed(r)
  {
  }

  /** The instructions of 4 bytes with opcodes 0x08-0x13. */
  function DecodeSize4B(insn: Bytes): Instruction
    requires |insn| == 4 && InstructionSizeBytes(insn[0]) == Ok(4) && 0x06 <= insn[0] <= 0x13
  {
    var opcode := insn[0];
    if opcode == 0x08 then MoveObjectFrom16(insn[1], ReadU16Le(insn, 2))
    else if opcode == 0x13 then Const16(insn[1], AsI16(ReadU16Le(insn, 2)))
    else assert false; Nop
  }

  lemma DecodeSize4BShape(insn: Bytes)
    requires |insn| == 4 && InstructionSizeBytes(insn[0]) == Ok(4) && 0x06 <= insn[0] <= 0x13
    ensures var r := DecodeSize4B(insn); OpcodeByte(r) == insn[0] && SizeBytes(r) == |insn| && WellFormed(r)
  {
  }

  /** The instructions of 4 bytes with opcodes 0x15-0x16. */
  function DecodeSize4C(insn: Bytes): Instruction
    requires |insn| == 4 && InstructionSizeBytes(insn[0]) == Ok(4) && 0x14 <= insn[0] <= 0x16
  {
    var opcode := insn[0];
    if opcode == 0x15 then ConstHigh16(insn[1], AsI16(ReadU16Le(insn, 2)))
    else if opcode == 0x16 then ConstWide16(insn[1], AsI16(ReadU16Le(insn, 2)))
    else assert false; Nop
  }

  lemma DecodeSize4CShape(insn: Bytes)
    requires |insn| == 4 && InstructionSizeBytes(insn[0]) == Ok(4) && 0x14 <= insn[0] <= 0x16
    ensures var r := DecodeSize4C(insn); OpcodeByte(r) == insn[0] && SizeBytes(r) == |insn| && WellFormed(r)
  {
  }

  /** The instructions of 4 bytes with opcodes 0x19-0x1A. */
  function DecodeSize4D(insn: Bytes): Instruction
    requires |insn| == 4 && InstructionSizeBytes(insn[0]) == Ok(4) && 0x17 <= insn[0] <= 0x1A
  {
    var opcode := insn[0];
    if opcode == 0x19 then ConstWideHigh16(insn[1], AsI16(ReadU16Le(insn, 2)))
    else if opcode == 0x1A then ConstString(insn[1], ReadU16Le(insn, 2))
    else assert false; Nop
  }

  lemma DecodeSize4DShape(insn: Bytes)
    requires |insn| == 4 && InstructionSizeBytes(insn[0]) == Ok(4) && 0x17 <= insn[0] <= 0x1A
    ensures var r := DecodeSize4D(insn); OpcodeByte(r) == insn[0] && SizeBytes(r) == |insn| && WellFormed(r)
  {
  }

  /** The instructions of 4 bytes with opcodes 0x1C-0x1F. */
  function DecodeSize4E(insn: Bytes): Instruction
    requires |insn| == 4 && InstructionSizeBytes(insn[0]) == Ok(4) && 0x1B <= insn[0] <= 0x1F
  {
    var opcode := insn[0];
    if opcode == 0x1C then ConstClass(insn[1], ReadU16Le(insn, 2))
    else if opcode == 0x1F then CheckCast(insn[1], ReadU16Le(insn, 2))
    else assert false; Nop
  }

  lemma DecodeSize4EShape(insn: Bytes)
    requires |insn| == 4 && InstructionSizeBytes(insn[0]) == Ok(4) && 0x1B <= insn[0] <= 0x1F
    ensures var r := DecodeSize4E(insn); OpcodeByte(r) == insn[0] && SizeBytes(r) == |insn| && WellFormed(r)
  {
  }

  /** The instructions of 4 bytes with opcodes 0x20-0x22. */
  function DecodeSize4F(insn: Bytes): Instruction
    requires |insn| == 4 && InstructionSizeBytes(insn[0]) == Ok(4) && 0x20 <= insn[0] <= 0x22
  {
    var opcode := insn[0];
    if opcode == 0x20 then var (dst, reference) := ToNibbles(insn[1]); InstanceOf(dst, reference, ReadU16Le(insn, 2))
    else if opcode == 0x22 then NewInstance(insn[1], ReadU16Le(insn, 2))
    else assert false; Nop
  }

  lemma DecodeSize4FShape(insn: Bytes)
    requires |insn| == 4 && InstructionSizeBytes(insn[0]) == Ok(4) && 0x20 <= insn[0] <= 0x22
    ensures var r := DecodeSize4F(insn); OpcodeByte(r) == insn[0] && SizeBytes(r) == |insn| && WellFormed(r)
  {
  }

  /** The instructions of 4 bytes with opcodes 0x23-0x29. */
  function DecodeSize4G(insn: Bytes): Instruction
    requires |insn| == 4 && InstructionSizeBytes(insn[0]) == Ok(4) && 0x23 <= insn[0] <= 0x29
  {
    var opcode := insn[0];
    if opcode == 0x23 then var (dst, size) := ToNibbles(insn[1]); NewArray(dst, size, ReadU16Le(insn, 2))
    else if opcode == 0x29 then Goto16(AsI16(ReadU16Le(insn, 2)))
    else assert false; Nop
  }

  lemma DecodeSize4GShape(insn: Bytes)
    requires |insn| == 4 && InstructionSizeBytes(insn[0]) == Ok(4) && 0x23 <= insn[0] <= 0x29
    ensures var r := DecodeSize4G(insn); OpcodeByte(r) == insn[0] && SizeBytes(r) == |insn| && WellFormed(r)
  {
  }

  /** The instructions of 4 bytes with opcodes 0x2D-0x37. */
  function DecodeSize4H(insn: Bytes): Instruction
    requires |insn| == 4 && InstructionSizeBytes(insn[0]) == Ok(4) && 0x2A <= insn[0] <= 0x37
  {
    var opcode := insn[0];
    if 0x2D <= opcode <= 0x31 then DecodeCompare(insn)
    else if 0x32 <= opcode <= 0x37 then DecodeIfTest(insn)
    else assert false; Nop
  }

  lemma DecodeSize4HShape(insn: Bytes)
    requires |insn| == 4 && InstructionSizeBytes(insn[0]) == Ok(4) && 0x2A <= insn[0] <= 0x37
    ensures var r := DecodeSize4H(insn); OpcodeByte(r) == insn[0] && SizeBytes(r) == |insn| && WellFormed(r)
  {
    if 0x2D <= insn[0] <= 0x31 {
      DecodeCompareShape(insn);
    }
    if 0x32 <= insn[0] <= 0x37 {
      DecodeIfTestShape(insn);
    }
  }

  /** The instructions of 4 bytes with opcodes 0x38-0x51. */
  function DecodeSize4I(insn: Bytes): Instruction
    requires |insn| == 4 && InstructionSizeBytes(insn[0]) == Ok(4) && 0x38 <= insn[0] <= 0x51
  {
    var opcode := insn[0];
    if 0x38 <= opcode <= 0x3D then DecodeIfTestZ(insn)
    else if 0x44 <= opcode <= 0x51 then DecodeArrayOp(insn)
    else assert false; Nop
  }

  lemma DecodeSize4IShape(insn: Bytes)
    requires |insn| == 4 && InstructionSizeBytes(insn[0]) == Ok(4) && 0x38 <= insn[0] <= 0x51
    ensures var r := DecodeSize4I(insn); OpcodeByte(r) == insn[0] && SizeBytes(r) == |insn| && WellFormed(r)
  {
    if 0x38 <= insn[0] <= 0x3D {
      DecodeIfTestZShape(insn);
    }
    if 0x44 <= insn[0] <= 0x51 {
      DecodeArrayOpShape(insn);
    }
  }

  /** The instructions of 4 bytes with opcodes 0x52-0x6D. */
  function DecodeSize4J(insn: Bytes): Instruction
    requires |insn| == 4 && InstructionSizeBytes(insn[0]) == Ok(4) && 0x52 <= insn[0] <= 0x6D
  {
    var opcode := insn[0];
    if 0x52 <= opcode <= 0x5F then DecodeInstanceOp(insn)
    else if 0x60 <= opcode <= 0x6D then DecodeStaticOp(insn)
    else assert false; Nop
  }

  lemma DecodeSize4JShape(insn: Bytes)
    requires |insn| == 4 && InstructionSizeBytes(insn[0]) == Ok(4) && 0x52 <= insn[0] <= 0x6D
    ensures var r := DecodeSize4J(insn); OpcodeByte(r) == insn[0] && SizeBytes(r) == |insn| && WellFormed(r)
  {
    if 0x52 <= insn[0] <= 0x5F {
      DecodeInstanceOpShape(insn);
    }
    if 0x60 <= insn[0] <= 0x6D {
      DecodeStaticOpShape(insn);
    }
  }

  /** The instructions of 4 bytes with opcodes 0x90-0xD7. */
  function DecodeSize4K(insn: Bytes): Instruction
    requires |insn| == 4 && InstructionSizeBytes(insn[0]) == Ok(4) && 0x6E <= insn[0] <= 0xD7
  {
    var opcode := insn[0];
    if 0x90 <= opcode <= 0xAF then DecodeBinaryOp(insn)
    else if 0xD0 <= opcode <= 0xD7 then DecodeLit16(insn)
    else assert false; Nop
  }

  lemma DecodeSize4KShape(insn: Bytes)
    requires |insn| == 4 && InstructionSizeBytes(insn[0]) == Ok(4) && 0x6E <= insn[0] <= 0xD7
    ensures var r := DecodeSize4K(insn); OpcodeByte(r) == insn[0] && SizeBytes(r) == |insn| && WellFormed(r)
  {
    if 0x90 <= insn[0] <= 0xAF {
      DecodeBinaryOpShape(insn);
    }
    if 0xD0 <= insn[0] <= 0xD7 {
      DecodeLit16Shape(insn);
    }
  }

  /** The instructions of 4 bytes with opcodes 0xD8-0xFE. */
  function DecodeSize4L(insn: Bytes): Instruction
    requires |insn| == 4 && InstructionSizeBytes(insn[0]) == Ok(4) && 0xD8 <= insn[0] <= 0xFE
  {
    var opcode := insn[0];
    if 0xD8 <= opcode <= 0xE2 then DecodeLit8(insn)
    else if opcode == 0xFE then ConstMethodHandle(insn[1], ReadU16Le(insn, 2))
    else assert false; Nop
  }

  lemma DecodeSize4LShape(insn: Bytes)
    requires |insn| == 4 && InstructionSizeBytes(insn[0]) == Ok(4) && 0xD8 <= insn[0] <= 0xFE
    ensures var r := DecodeSize4L(insn); OpcodeByte(r) == insn[0] && SizeBytes(r) == |insn| && WellFormed(r)
  {
    if 0xD8 <= insn[0] <= 0xE2 {
      DecodeLit8Shape(insn);
    }
  }

  /** The instructions of 4 bytes with opcodes 0xFF-0xFF. */
  function DecodeSize4M(insn: Bytes): Instruction
    requires |insn| == 4 && InstructionSizeBytes(insn[0]) == Ok(4) && 0xFF <= insn[0]
  {
    var opcode := insn[0];
    if opcode == 0xFF then ConstMethodType(insn[1], ReadU16Le(insn, 2))
    else assert false; Nop
  }

  lemma DecodeSize4MShape(insn: Bytes)
    requires |insn| == 4 && InstructionSizeBytes(insn[0]) == Ok(4) && 0xFF <= insn[0]
    ensures var r := DecodeSize4M(insn); OpcodeByte(r) == insn[0] && SizeBytes(r) == |insn| && WellFormed(r)
  {
  }

  /** The instructions of 6 bytes, by opcode range. */
  function DecodeSize6(insn: Bytes): Instruction
    requires |insn| == 6 && InstructionSizeBytes(insn[0]) == Ok(6)
  {
    if insn[0] <= 0x06 then DecodeSize6A(insn)
    else if insn[0] <= 0x14 then DecodeSize6B(insn)
    else if insn[0] <= 0x1B then DecodeSize6C(insn)
    else if insn[0] <= 0x25 then DecodeSize6D(insn)
    else if insn[0] <= 0x2A then DecodeSize6E(insn)
    else if insn[0] <= 0x2C then DecodeSize6F(insn)
    else if insn[0] <= 0x78 then DecodeSize6G(insn)
    else DecodeSize6H(insn)
  }

  lemma DecodeSize6Shape(insn: Bytes)
    requires |insn| == 6 && InstructionSizeBytes(insn[0]) == Ok(6)
    ensures var r := DecodeSize6(insn); OpcodeByte(r) == insn[0] && SizeBytes(r) == |insn| && WellFormed(r)
  {
    if insn[0] <= 0x06 {
      DecodeSize6AShape(insn);
    } else if insn[0] <= 0x14 {
      DecodeSize6BShape(insn);
    } else if insn[0] <= 0x1B {
      DecodeSize6CShape(insn);
    } else if insn[0] <= 0x25 {
      DecodeSize6DShape(insn);
    } else if insn[0] <= 0x2A {
      DecodeSize6EShape(insn);
    } else if insn[0] <= 0x2C {
      DecodeSize6FShape(insn);
    } else if insn[0] <= 0x78 {
      DecodeSize6GShape(insn);
    } else {
      DecodeSize6HShape(insn);
    }
  }

  /** The instructions of 6 bytes with opcodes 0x03-0x06. */
  function DecodeSize6A(insn: Bytes): Instruction
    requires |insn| == 6 && InstructionSizeBytes(insn[0]) == Ok(6) && insn[0] <= 0x06
  {
    var opcode := insn[0];
    if opcode == 0x03 then Move16(ReadU16Le(insn, 2), ReadU16Le(insn, 4))
    else if opcode == 0x06 then MoveWide16(ReadU16Le(insn, 2), ReadU16Le(insn, 4))
    else assert false; Nop
  }

  lemma DecodeSize6AShape(insn: Bytes)
    requires |insn| == 6 && InstructionSizeBytes(insn[0]) == Ok(6) && insn[0] <= 0x06
    ensures var r := DecodeSize6A(insn); OpcodeByte(r) == insn[0] && SizeBytes(r) == |insn| && WellFormed(r)
  {
  }

  /** The instructions of 6 bytes with opcodes 0x09-0x14. */
  function DecodeSize6B(insn: Bytes): Instruction
    requires |insn| == 6 && InstructionSizeBytes(insn[0]) == Ok(6) && 0x07 <= insn[0] <= 0x14
  {
    var opcode := insn[0];
    if opcode == 0x09 then MoveObject16(ReadU16Le(insn, 2), ReadU16Le(insn, 4))
    else if opcode == 0x14 then Const(insn[1], AsI32(ReadU32Le(insn, 2)))
    else assert false; Nop
  }

  lemma DecodeSize6BShape(insn: Bytes)
    requires |insn| == 6 && InstructionSizeBytes(insn[0]) == Ok(6) && 0x07 <= insn[0] <= 0x14
    ensures var r := DecodeSize6B(insn); OpcodeByte(r) == insn[0] && SizeBytes(r) == |insn| && WellFormed(r)
  {
  }

  /** The instructions of 6 bytes with opcodes 0x17-0x1B. */
  function DecodeSize6C(insn: Bytes): Instruction
    requires |insn| == 6 && InstructionSizeBytes(insn[0]) == Ok(6) && 0x15 <= insn[0] <= 0x1B
  {
    var opcode := insn[0];
    if opcode == 0x17 then ConstWide32(insn[1], AsI32(ReadU32Le(insn, 2)))
    else if opcode == 0x1B then ConstStringJumbo(insn[1], ReadU32Le(insn, 2))
    else assert false; Nop
  }

  lemma DecodeSize6CShape(insn: Bytes)
    requires |insn| == 6 && InstructionSizeBytes(insn[0]) == Ok(6) && 0x15 <= insn[0] <= 0x1B
    ensures var r := DecodeSize6C(insn); OpcodeByte(r) == insn[0] && SizeBytes(r) == |insn| && WellFormed(r)
  {
  }

  /** The instructions of 6 bytes with opcodes 0x24-0x25. */
  function DecodeSize6D(insn: Bytes): Instruction
    requires |insn| == 6 && InstructionSizeBytes(insn[0]) == Ok(6) && 0x1C <= insn[0] <= 0x25
  {
    var opcode := insn[0];
    if opcode == 0x24 then FilledNewArray(ReadU16Le(insn, 2), Args35c(insn[1], insn[4], insn[5]), Hi(insn[1]))
    else if opcode == 0x25 then FilledNewArrayRange(ReadU16Le(insn, 2), ReadU16Le(insn, 4), insn[1])
    else assert false; Nop
  }

  lemma DecodeSize6DShape(insn: Bytes)
    requires |insn| == 6 && InstructionSizeBytes(insn[0]) == Ok(6) && 0x1C <= insn[0] <= 0x25
    ensures var r := DecodeSize6D(insn); OpcodeByte(r) == insn[0] && SizeBytes(r) == |insn| && WellFormed(r)
  {
  }

  /** The instructions of 6 bytes with opcodes 0x26-0x2A. */
  function DecodeSize6E(insn: Bytes): Instruction
    requires |insn| == 6 && InstructionSizeBytes(insn[0]) == Ok(6) && 0x26 <= insn[0] <= 0x2A
  {
    var opcode := insn[0];
    if opcode == 0x26 then FillArrayData(insn[1], AsI32(ReadU32Le(insn, 2)))
    else if opcode == 0x2A then Goto32(AsI32(ReadU32Le(insn, 2)))
    else assert false; Nop
  }

  lemma DecodeSize6EShape(insn: Bytes)
    requires |insn| == 6 && InstructionSizeBytes(insn[0]) == Ok(6) && 0x26 <= insn[0] <= 0x2A
    ensures var r := DecodeSize6E(insn); OpcodeByte(r) == insn[0] && SizeBytes(r) == |insn| && WellFormed(r)
  {
  }

  /** The instructions of 6 bytes with opcodes 0x2B-0x2C. */
  function DecodeSize6F(insn: Bytes): Instruction
    requires |insn| == 6 && InstructionSizeBytes(insn[0]) == Ok(6) && 0x2B <= insn[0] <= 0x2C
  {
    var opcode := insn[0];
    if opcode == 0x2B then PackedSwitch(insn[1], AsI32(ReadU32Le(insn, 2)))
    else if opcode == 0x2C then SparseSwitch(insn[1], AsI32(ReadU32Le(insn, 2)))
    else assert false; Nop
  }

  lemma DecodeSize6FShape(insn: Bytes)
    requires |insn| == 6 && InstructionSizeBytes(insn[0]) == Ok(6) && 0x2B <= insn[0] <= 0x2C
    ensures var r := DecodeSize6F(insn); OpcodeByte(r) == insn[0] && SizeBytes(r) == |insn| && WellFormed(r)
  {
  }

  /** The instructions of 6 bytes with opcodes 0x6E-0x78. */
  function DecodeSize6G(insn: Bytes): Instruction
    requires |insn| == 6 && InstructionSizeBytes(insn[0]) == Ok(6) && 0x2D <= insn[0] <= 0x78
  {
    var opcode := insn[0];
    if 0x6E <= opcode <= 0x72 then DecodeInvoke(insn)
    else if 0x74 <= opcode <= 0x78 then DecodeInvokeRange(insn)
    else assert false; Nop
  }

  lemma DecodeSize6GShape(insn: Bytes)
    requires |insn| == 6 && InstructionSizeBytes(insn[0]) == Ok(6) && 0x2D <= insn[0] <= 0x78
    ensures var r := DecodeSize6G(insn); OpcodeByte(r) == insn[0] && SizeBytes(r) == |insn| && WellFormed(r)
  {
    if 0x6E <= insn[0] <= 0x72 {
      DecodeInvokeShape(insn);
    }
    if 0x74 <= insn[0] <= 0x78 {
      DecodeInvokeRangeShape(insn);
    }
  }

  /** The instructions of 6 bytes with opcodes 0xFC-0xFD. */
  function DecodeSize6H(insn: Bytes): Instruction
    requires |insn| == 6 && InstructionSizeBytes(insn[0]) == Ok(6) && 0x79 <= insn[0]
  {
    var opcode := insn[0];
    if opcode == 0xFC then InvokeCustom(ReadU16Le(insn, 2), Args35c(insn[1], insn[4], insn[5]), Hi(insn[1]))
    else if opcode == 0xFD then InvokeCustomRange(ReadU16Le(insn, 2), ReadU16Le(insn, 4), insn[1])
    else assert false; Nop
  }

  lemma DecodeSize6HShape(insn: Bytes)
    requires |insn| == 6 && InstructionSizeBytes(insn[0]) == Ok(6) && 0x79 <= insn[0]
    ensures var r := DecodeSize6H(insn); OpcodeByte(r) == insn[0] && SizeBytes(r) == |insn| && WellFormed(r)
  {
  }

  /** The instructions of 8 bytes. */
  function DecodeSize8(insn: Bytes): Instruction
    requires |insn| == 8 && InstructionSizeBytes(insn[0]) == Ok(8)
  {
    var opcode := insn[0];
    if opcode == 0xFA then InvokePolymorphic(ReadU16Le(insn, 2), ReadU16Le(insn, 6), Args35c(insn[1], insn[4], insn[5]), Hi(insn[1]))
    else if opcode == 0xFB then InvokePolymorphicRange(ReadU16Le(insn, 2), ReadU16Le(insn, 6), ReadU16Le(insn, 4), insn[1])
    else assert false; Nop
  }

  lemma DecodeSize8Shape(insn: Bytes)
    requires |insn| == 8 && InstructionSizeBytes(insn[0]) == Ok(8)
    ensures var r := DecodeSize8(insn); OpcodeByte(r) == insn[0] && SizeBytes(r) == |insn| && WellFormed(r)
  {
  }

  /** The instructions of 10 bytes. */
  function DecodeSize10(insn: Bytes): Instruction
    requires |insn| == 10 && InstructionSizeBytes(insn[0]) == Ok(10)
  {
    var opcode := insn[0];
    if opcode == 0x18 then ConstWide(insn[1], AsI64(ReadU64Le(insn, 2)))
    else assert false; Nop
  }

  lemma DecodeSize10Shape(insn: Bytes)
    requires |insn| == 10 && InstructionSizeBytes(insn[0]) == Ok(10)
    ensures var r := DecodeSize10(insn); OpcodeByte(r) == insn[0] && SizeBytes(r) == |insn| && WellFormed(r)
  {
  }

  /** Opcodes 0x2D-0x31 (format 23x): the comparisons. */
  function DecodeCompare(insn: Bytes): Instruction
    requires |insn| == 4 && 0x2D <= insn[0] <= 0x31
  {
    var dst := insn[1];
    var srcA := insn[2];
    var srcB := insn[3];
    Cmp(insn[0] - 0x2D, dst, srcA, srcB)
  }

  lemma DecodeCompareShape(insn: Bytes)
    requires |insn| == 4 && 0x2D <= insn[0] <= 0x31
    ensures var r := DecodeCompare(insn); OpcodeByte(r) == insn[0] && SizeBytes(r) == |insn| && WellFormed(r)
  {
  }

  /** Opcodes 0x32-0x37 (format 22t): the two-register if-tests. */
  function DecodeIfTest(insn: Bytes): Instruction
    requires |insn| == 4 && 0x32 <= insn[0] <= 0x37
  {
    var (a, b) := ToNibbles(insn[1]);
    var offset := AsI16(ReadU16Le(insn, 2));
    IfTest(insn[0] - 0x32, a, b, offset)
  }

  lemma DecodeIfTestShape(insn: Bytes)
    requires |insn| == 4 && 0x32 <= insn[0] <= 0x37
    ensures var r := DecodeIfTest(insn); OpcodeByte(r) == insn[0] && SizeBytes(r) == |insn| && WellFormed(r)
  {
  }

  /** Opcodes 0x38-0x3D (format 21t): the if-tests against zero. */
  function DecodeIfTestZ(insn: Bytes): Instruction
    requires |insn| == 4 && 0x38 <= insn[0] <= 0x3D
  {
    var value := insn[1];
    var offset := AsI16(ReadU16Le(insn, 2));
    IfTestZ(insn[0] - 0x38, value, offset)
  }

  lemma DecodeIfTestZShape(insn: Bytes)
    requires |insn| == 4 && 0x38 <= insn[0] <= 0x3D
    ensures var r := DecodeIfTestZ(insn); OpcodeByte(r) == insn[0] && SizeBytes(r) == |insn| && WellFormed(r)
  {
  }

  /** Opcodes 0x44-0x51 (format 23x): aget and aput; the first register is `src` of an aget and `dst` of an aput. */
  function DecodeArrayOp(insn: Bytes): Instruction
    requires |insn| == 4 && 0x44 <= insn[0] <= 0x51
  {
    var value := insn[1];
    var arr := insn[2];
    var index := insn[3];
    if insn[0] < 0x4B then Aget(insn[0] - 0x44, value, arr, index)
    else Aput(insn[0] - 0x4B, value, arr, index)
  }

  lemma DecodeArrayOpShape(insn: Bytes)
    requires |insn| == 4 && 0x44 <= insn[0] <= 0x51
    ensures var r := DecodeArrayOp(insn); OpcodeByte(r) == insn[0] && SizeBytes(r) == |insn| && WellFormed(r)
  {
  }

  /** Opcodes 0x52-0x5F (format 22c): iget and iput. */
  function DecodeInstanceOp(insn: Bytes): Instruction
    requires |insn| == 4 && 0x52 <= insn[0] <= 0x5F
  {
    var (value, obj) := ToNibbles(insn[1]);
    var fieldIdx := ReadU16Le(insn, 2);
    if insn[0] < 0x59 then Iget(insn[0] - 0x52, value, obj, fieldIdx)
    else Iput(insn[0] - 0x59, value, obj, fieldIdx)
  }

  lemma DecodeInstanceOpShape(insn: Bytes)
    requires |insn| == 4 && 0x52 <= insn[0] <= 0x5F
    ensures var r := DecodeInstanceOp(insn); OpcodeByte(r) == insn[0] && SizeBytes(r) == |insn| && WellFormed(r)
  {
  }

  /** Opcodes 0x60-0x6D (format 21c): sget and sput. */
  function DecodeStaticOp(insn: Bytes): Instruction
    requires |insn| == 4 && 0x60 <= insn[0] <= 0x6D
  {
    var value := insn[1];
    var fieldIdx := ReadU16Le(insn, 2);
    if insn[0] < 0x67 then Sget(insn[0] - 0x60, value, fieldIdx)
    else Sput(insn[0] - 0x67, value, fieldIdx)
  }

  lemma DecodeStaticOpShape(insn: Bytes)
    requires |insn| == 4 && 0x60 <= insn[0] <= 0x6D
    ensures var r := DecodeStaticOp(insn); OpcodeByte(r) == insn[0] && SizeBytes(r) == |insn| && WellFormed(r)
  {
  }

  /** Opcodes 0x6E-0x72 (format 35c): the invokes with an argument list. */
  function DecodeInvoke(insn: Bytes): Instruction
    requires |insn| == 6 && 0x6E <= insn[0] <= 0x72
  {
    var argCnt := Hi(insn[1]);
    var methodIdx := ReadU16Le(insn, 2);
    var args := Args35c(insn[1], insn[4], insn[5]);
    Invoke(insn[0] - 0x6E, methodIdx, args, argCnt)
  }

  lemma DecodeInvokeShape(insn: Bytes)
    requires |insn| == 6 && 0x6E <= insn[0] <= 0x72
    ensures var r := DecodeInvoke(insn); OpcodeByte(r) == insn[0] && SizeBytes(r) == |insn| && WellFormed(r)
  {
  }

  /** Opcodes 0x74-0x78 (format 3rc): the invokes with a register range. */
  function DecodeInvokeRange(insn: Bytes): Instruction
    requires |insn| == 6 && 0x74 <= insn[0] <= 0x78
  {
    var argCnt := insn[1];
    var methodIdx := ReadU16Le(insn, 2);
    var firstArg := ReadU16Le(insn, 4);
    InvokeRange(insn[0] - 0x74, methodIdx, firstArg, argCnt)
  }

  lemma DecodeInvokeRangeShape(insn: Bytes)
    requires |insn| == 6 && 0x74 <= insn[0] <= 0x78
    ensures var r := DecodeInvokeRange(insn); OpcodeByte(r) == insn[0] && SizeBytes(r) == |insn| && WellFormed(r)
  {
  }

  /** Opcodes 0x7B-0x8F (format 12x): the unary operations and conversions. */
  function DecodeUnaryOp(insn: Bytes): Instruction
    requires |insn| == 2 && 0x7B <= insn[0] <= 0x8F
  {
    var (dst, src) := ToNibbles(insn[1]);
    Unop(insn[0] - 0x7B, dst, src)
  }

  lemma DecodeUnaryOpShape(insn: Bytes)
    requires |insn| == 2 && 0x7B <= insn[0] <= 0x8F
    ensures var r := DecodeUnaryOp(insn); OpcodeByte(r) == insn[0] && SizeBytes(r) == |insn| && WellFormed(r)
  {
  }

  /** Opcodes 0x90-0xAF (format 23x): the three-register binary operations. */
  function DecodeBinaryOp(insn: Bytes): Instruction
    requires |insn| == 4 && 0x90 <= insn[0] <= 0xAF
  {
    var dst := insn[1];
    var srcA := insn[2];
    var srcB := insn[3];
    Binop(insn[0] - 0x90, dst, srcA, srcB)
  }

  lemma DecodeBinaryOpShape(insn: Bytes)
    requires |insn| == 4 && 0x90 <= insn[0] <= 0xAF
    ensures var r := DecodeBinaryOp(insn); OpcodeByte(r) == insn[0] && SizeBytes(r) == |insn| && WellFormed(r)
  {
  }

  /** Opcodes 0xB0-0xCF (format 12x): the two-address binary operations. */
  function DecodeBinaryOp2Addr(insn: Bytes): Instruction
    requires |insn| == 2 && 0xB0 <= insn[0] <= 0xCF
  {
    var (dst, src) := ToNibbles(insn[1]);
    Binop2Addr(insn[0] - 0xB0, dst, src)
  }

  lemma DecodeBinaryOp2AddrShape(insn: Bytes)
    requires |insn| == 2 && 0xB0 <= insn[0] <= 0xCF
    ensures var r := DecodeBinaryOp2Addr(insn); OpcodeByte(r) == insn[0] && SizeBytes(r) == |insn| && WellFormed(r)
  {
  }

  /** Opcodes 0xD0-0xD7 (format 22s): the operations with a 16-bit literal. */
  function DecodeLit16(insn: Bytes): Instruction
    requires |insn| == 4 && 0xD0 <= insn[0] <= 0xD7
  {
    var (dst, src) := ToNibbles(insn[1]);
    var value := AsI16(ReadU16Le(insn, 2));
    BinopLit16(insn[0] - 0xD0, dst, src, value)
  }

  lemma DecodeLit16Shape(insn: Bytes)
    requires |insn| == 4 && 0xD0 <= insn[0] <= 0xD7
    ensures var r := DecodeLit16(insn); OpcodeByte(r) == insn[0] && SizeBytes(r) == |insn| && WellFormed(r)
  {
  }

  /** Opcodes 0xD8-0xE2 (format 22b): the operations with an 8-bit literal. */
  function DecodeLit8(insn: Bytes): Instruction
    requires |insn| == 4 && 0xD8 <= insn[0] <= 0xE2
  {
    var dst := insn[1];
    var src := insn[2];
    var value := AsI8(insn[3]);
    BinopLit8(insn[0] - 0xD8, dst, src, value)
  }

  lemma DecodeLit8Shape(insn: Bytes)
    requires |insn| == 4 && 0xD8 <= insn[0] <= 0xE2
    ensures var r := DecodeLit8(insn); OpcodeByte(r) == insn[0] && SizeBytes(r) == |insn| && WellFormed(r)
  {
  }
}
