/** An encoder for decoded instructions, the reference `try_decode` is the
    inverse of: each variant is written back in its Dalvik instruction format
    (code units of 16 bits, little-endian, the opcode in the low byte of the
    first unit), and decoding the encoding of any well-formed instruction,
    whatever bytes follow it, gives back that instruction. */
module InstructionEncode {
  import opened Utils
  import opened RustTypes
  import opened Errors
  import opened Instructions
  import opened InstructionSize
  import opened InstructionDecode

  // ---------------------------------------------------------------------
  // Two's complement: the bit patterns the signed operands are stored as.

  function Bits8(x: I8): (r: U8)
    ensures AsI8(r) == x
  {
    if x < 0 then x + TWO_8 else x
  }

  function Bits16(x: I16): (r: U16)
    ensures AsI16(r) == x
  {
    if x < 0 then x + TWO_16 else x
  }

  function Bits32(x: I32): (r: U32)
    ensures AsI32(r) == x
  {
    if x < 0 then x + TWO_32 else x
  }

  function Bits64(x: I64): (r: U64)
    ensures AsI64(r) == x
  {
    if x < 0 then x + TWO_64 else x
  }

  /** The byte whose low nibble is the low 4 bits of `lo` and whose high
      nibble is the low 4 bits of `hi`. */
  function Pack(lo: int, hi: int): (r: U8)
    ensures ToNibbles(r) == (lo % 16, hi % 16)
  {
    DivModUnique(lo % 16 + 16 * (hi % 16), 16, hi % 16, lo % 16);
    lo % 16 + 16 * (hi % 16)
  }

  // ---------------------------------------------------------------------
  // The layouts of the Dalvik formats. Each builder states what the
  // decoder's reads give back at the positions it writes.

  /** One code unit `AA|op`: formats 10x, 12x, 11n, 11x and 10t. */
  function Op8(op: U8, a: U8): (e: Bytes)
    ensures |e| == 2 && e[0] == op && e[1] == a
  {
    [op, a]
  }

  /** `AA|op BBBB`: formats 20t, 22x, 21t, 21s, 21h, 21c, 22t, 22s and 22c. */
  function Op8U16(op: U8, a: U8, b: U16): (e: Bytes)
    ensures |e| == 4 && e[0] == op && e[1] == a && ReadU16Le(e, 2) == b
  {
    var e := [op, a] + EncodeU16Le(b);
    assert e[2..4] == EncodeU16Le(b);
    ReadU16LeOfEncode(e, 2, b);
    e
  }

  /** `AA|op CC|BB`: formats 23x and 22b. */
  function Op8U8U8(op: U8, a: U8, b: U8, c: U8): (e: Bytes)
    ensures |e| == 4 && e[0] == op && e[1] == a && e[2] == b && e[3] == c
  {
    [op, a, b, c]
  }

  /** `AA|op BBBBlo BBBBhi`: formats 30t, 31i, 31t and 31c. */
  function Op8U32(op: U8, a: U8, b: U32): (e: Bytes)
    ensures |e| == 6 && e[0] == op && e[1] == a && ReadU32Le(e, 2) == b
  {
    var e := [op, a] + EncodeU32Le(b);
    assert e[2..6] == EncodeU32Le(b);
    ReadU32LeOfEncode(e, 2, b);
    e
  }

  /** `AA|op BBBB CCCC`: formats 32x and 3rc. */
  function Op8U16U16(op: U8, a: U8, b: U16, c: U16): (e: Bytes)
    ensures |e| == 6 && e[0] == op && e[1] == a
    ensures ReadU16Le(e, 2) == b && ReadU16Le(e, 4) == c
  {
    var e := [op, a] + EncodeU16Le(b) + EncodeU16Le(c);
    assert e[2..4] == EncodeU16Le(b);
    ReadU16LeOfEncode(e, 2, b);
    assert e[4..6] == EncodeU16Le(c);
    ReadU16LeOfEncode(e, 4, c);
    e
  }

  /** `A|G|op BBBB F|E|D|C`: format 35c, with the two bytes of the third unit
      given as `cd` (D|C) and `ef` (F|E). */
  function Op8U16U8U8(op: U8, ga: U8, b: U16, cd: U8, ef: U8): (e: Bytes)
    ensures |e| == 6 && e[0] == op && e[1] == ga && ReadU16Le(e, 2) == b
    ensures e[4] == cd && e[5] == ef
  {
    var e := [op, ga] + EncodeU16Le(b) + [cd, ef];
    assert e[2..4] == EncodeU16Le(b);
    ReadU16LeOfEncode(e, 2, b);
    e
  }

  /** `A|G|op BBBB F|E|D|C HHHH`: format 45cc. */
  function Op8U16U8U8U16(op: U8, ga: U8, b: U16, cd: U8, ef: U8, h: U16): (e: Bytes)
    ensures |e| == 8 && e[0] == op && e[1] == ga && ReadU16Le(e, 2) == b
    ensures e[4] == cd && e[5] == ef && ReadU16Le(e, 6) == h
  {
    var e := [op, ga] + EncodeU16Le(b) + [cd, ef] + EncodeU16Le(h);
    assert e[2..4] == EncodeU16Le(b);
    ReadU16LeOfEncode(e, 2, b);
    assert e[6..8] == EncodeU16Le(h);
    ReadU16LeOfEncode(e, 6, h);
    e
  }

  /** `AA|op BBBB CCCC HHHH`: format 4rcc. */
  function Op8U16U16U16(op: U8, a: U8, b: U16, c: U16, h: U16): (e: Bytes)
    ensures |e| == 8 && e[0] == op && e[1] == a
    ensures ReadU16Le(e, 2) == b && ReadU16Le(e, 4) == c && ReadU16Le(e, 6) == h
  {
    var e := [op, a] + EncodeU16Le(b) + EncodeU16Le(c) + EncodeU16Le(h);
    assert e[2..4] == EncodeU16Le(b);
    ReadU16LeOfEncode(e, 2, b);
    assert e[4..6] == EncodeU16Le(c);
    ReadU16LeOfEncode(e, 4, c);
    assert e[6..8] == EncodeU16Le(h);
    ReadU16LeOfEncode(e, 6, h);
    e
  }

  /** `AA|op BBBB BBBB BBBB BBBB`: format 51l. */
  function Op8U64(op: U8, a: U8, b: U64): (e: Bytes)
    ensures |e| == 10 && e[0] == op && e[1] == a && ReadU64Le(e, 2) == b
  {
    var e := [op, a] + EncodeU64Le(b);
    assert e[2..10] == EncodeU64Le(b);
    ReadU64LeOfEncode(e, 2, b);
    e
  }

  /** The argument registers C, D, E, F, G as the bytes `D|C`, `F|E` and the
      nibble G that the 35c layout stores them in. */
  function ArgBytes(args: RegArgs): (r: (U8, U8))
    ensures ToNibbles(r.0) == (args[0] % 16, args[1] % 16)
    ensures ToNibbles(r.1) == (args[2] % 16, args[3] % 16)
  {
    (Pack(args[0], args[1]), Pack(args[2], args[3]))
  }

  /** The decoder reads the five argument registers of format 35c back from
      the three bytes the encoder packs them into. */
  lemma {:induction false} Args35cOfArgBytes(args: RegArgs, argCnt: U8)
    requires RegsFit(args)
    ensures Args35c(Pack(args[4], argCnt), ArgBytes(args).0, ArgBytes(args).1) == args
  {
    var r := Args35c(Pack(args[4], argCnt), ArgBytes(args).0, ArgBytes(args).1);
    assert r[0] == args[0] && r[1] == args[1] && r[2] == args[2] && r[3] == args[3] && r[4] == args[4];
  }

  /** The encoding of an instruction in its Dalvik format: its opcode byte
      first, then its operands at the positions the decoder reads them from;
      of a field the format stores in a nibble only the low 4 bits are
      written. */
  function Encode(i: Instruction): (e: Bytes)
  {
    match i
    case Nop => Op8(0x00, 0)
    case Move(dst, src) => Op8(0x01, Pack(dst, src))
    case MoveFrom16(dst, src16) => Op8U16(0x02, dst, src16)
    case Move16(dst16, src16) => Op8U16U16(0x03, 0, dst16, src16)
    case MoveWide(dst, src) => Op8(0x04, Pack(dst, src))
    case MoveWideFrom16(dst, src16) => Op8U16(0x05, dst, src16)
    case MoveWide16(dst16, src16) => Op8U16U16(0x06, 0, dst16, src16)
    case MoveObject(dst, src) => Op8(0x07, Pack(dst, src))
    case MoveObjectFrom16(dst, src16) => Op8U16(0x08, dst, src16)
    case MoveObject16(dst16, src16) => Op8U16U16(0x09, 0, dst16, src16)
    case MoveResult(dst) => Op8(0x0A, dst)
    case MoveResultWide(dst) => Op8(0x0B, dst)
    case MoveResultObject(dst) => Op8(0x0C, dst)
    case MoveException(dst) => Op8(0x0D, dst)
    case ReturnVoid => Op8(0x0E, 0)
    case Return(value) => Op8(0x0F, value)
    case ReturnWide(value) => Op8(0x10, value)
    case ReturnObject(value) => Op8(0x11, value)
    case Const4(dst, lit8) => Op8(0x12, Pack(dst, lit8))
    case Const16(dst, lit16) => Op8U16(0x13, dst, Bits16(lit16))
    case Const(dst, lit32) => Op8U32(0x14, dst, Bits32(lit32))
    case ConstHigh16(dst, lit16) => Op8U16(0x15, dst, Bits16(lit16))
    case ConstWide16(dst, lit16) => Op8U16(0x16, dst, Bits16(lit16))
    case ConstWide32(dst, lit32) => Op8U32(0x17, dst, Bits32(lit32))
    case ConstWide(dst, lit64) => Op8U64(0x18, dst, Bits64(lit64))
    case ConstWideHigh16(dst, lit16) => Op8U16(0x19, dst, Bits16(lit16))
    case ConstString(dst, stringIdx) => Op8U16(0x1A, dst, stringIdx)
    case ConstStringJumbo(dst, stringIdx32) => Op8U32(0x1B, dst, stringIdx32)
    case ConstClass(dst, typeIdx) => Op8U16(0x1C, dst, typeIdx)
    case MonitorEnter(reference) => Op8(0x1D, reference)
    case MonitorExit(reference) => Op8(0x1E, reference)
    case CheckCast(reference, typeIdx) => Op8U16(0x1F, reference, typeIdx)
    case InstanceOf(dst, reference, typeIdx) => Op8U16(0x20, Pack(dst, reference), typeIdx)
    case ArrayLength(dst, arr) => Op8(0x21, Pack(dst, arr))
    case NewInstance(dst, typeIdx) => Op8U16(0x22, dst, typeIdx)
    case NewArray(dst, size, typeIdx) => Op8U16(0x23, Pack(dst, size), typeIdx)
    case FilledNewArray(typeIdx, args, argCnt) => Op8U16U8U8(0x24, Pack(args[4], argCnt), typeIdx, ArgBytes(args).0, ArgBytes(args).1)
    case FilledNewArrayRange(typeIdx, firstArg, argCnt) => Op8U16U16(0x25, argCnt, typeIdx, firstArg)
    case FillArrayData(arr, offset32) => Op8U32(0x26, arr, Bits32(offset32))
    case Throw(exception) => Op8(0x27, exception)
    case Goto(offset8) => Op8(0x28, Bits8(offset8))
    case Goto16(offset16) => Op8U16(0x29, 0, Bits16(offset16))
    case Goto32(offset32) => Op8U32(0x2A, 0, Bits32(offset32))
    case PackedSwitch(value, offset32) => Op8U32(0x2B, value, Bits32(offset32))
    case SparseSwitch(value, offset32) => Op8U32(0x2C, value, Bits32(offset32))
    case Cmp(cmpKind, dst, srcA, srcB) => Op8U8U8(0x2D + cmpKind, dst, srcA, srcB)
    case IfTest(ifTestKind, a, b, offset16) => Op8U16(0x32 + ifTestKind, Pack(a, b), Bits16(offset16))
    case IfTestZ(ifTestZKind, value, offset16) => Op8U16(0x38 + ifTestZKind, value, Bits16(offset16))
    case Aget(valueKind, src, arr, index) => Op8U8U8(0x44 + valueKind, src, arr, index)
    case Aput(valueKind, dst, arr, index) => Op8U8U8(0x4B + valueKind, dst, arr, index)
    case Iget(valueKind, src, obj, fieldIdx) => Op8U16(0x52 + valueKind, Pack(src, obj), fieldIdx)
    case Iput(valueKind, dst, obj, fieldIdx) => Op8U16(0x59 + valueKind, Pack(dst, obj), fieldIdx)
    case Sget(valueKind, src, fieldIdx) => Op8U16(0x60 + valueKind, src, fieldIdx)
    case Sput(valueKind, dst, fieldIdx) => Op8U16(0x67 + valueKind, dst, fieldIdx)
    case Invoke(invokeKind, methodIdx, args, argCnt) => Op8U16U8U8(0x6E + invokeKind, Pack(args[4], argCnt), methodIdx, ArgBytes(args).0, ArgBytes(args).1)
    case InvokeRange(invokeKind, methodIdx, firstArg, argCnt) => Op8U16U16(0x74 + invokeKind, argCnt, methodIdx, firstArg)
    case Unop(unopKind, dst, src) => Op8(0x7B + unopKind, Pack(dst, src))
    case Binop(binopKind, dst, srcA, srcB) => Op8U8U8(0x90 + binopKind, dst, srcA, srcB)
    case Binop2Addr(binopKind, dst, src) => Op8(0xB0 + binopKind, Pack(dst, src))
    case BinopLit16(lit16Kind, dst, src, lit16) => Op8U16(0xD0 + lit16Kind, Pack(dst, src), Bits16(lit16))
    case BinopLit8(lit8Kind, dst, src, lit8) => Op8U8U8(0xD8 + lit8Kind, dst, src, Bits8(lit8))
    case InvokePolymorphic(methodIdx, protoIdx, args, argCnt) => Op8U16U8U8U16(0xFA, Pack(args[4], argCnt), methodIdx, ArgBytes(args).0, ArgBytes(args).1, protoIdx)
    case InvokePolymorphicRange(methodIdx, protoIdx, firstArg, argCnt) => Op8U16U16U16(0xFB, argCnt, methodIdx, firstArg, protoIdx)
    case InvokeCustom(callSiteIdx, args, argCnt) => Op8U16U8U8(0xFC, Pack(args[4], argCnt), callSiteIdx, ArgBytes(args).0, ArgBytes(args).1)
    case InvokeCustomRange(callSiteIdx, firstArg, argCnt) => Op8U16U16(0xFD, argCnt, callSiteIdx, firstArg)
    case ConstMethodHandle(dst, methodHandleIdx) => Op8U16(0xFE, dst, methodHandleIdx)
    case ConstMethodType(dst, protoIdx) => Op8U16(0xFF, dst, protoIdx)
  }

  lemma DecodeEncodeNop()
    ensures var e := Op8(0x00, 0);
      |e| > 0 && InstructionSizeBytes(e[0]) == Ok(|e|) && DecodeOperands(e) == Nop
  {
  }

  lemma DecodeEncodeMove(dst: U8, src: U8)
    requires dst < 16 && src < 16
    ensures var e := Op8(0x01, Pack(dst, src));
      |e| > 0 && InstructionSizeBytes(e[0]) == Ok(|e|) && DecodeOperands(e) == Move(dst, src)
  {
  }

  lemma DecodeEncodeMoveFrom16(dst: U8, src16: U16)
    ensures var e := Op8U16(0x02, dst, src16);
      |e| > 0 && InstructionSizeBytes(e[0]) == Ok(|e|) && DecodeOperands(e) == MoveFrom16(dst, src16)
  {
  }

  lemma DecodeEncodeMove16(dst16: U16, src16: U16)
    ensures var e := Op8U16U16(0x03, 0, dst16, src16);
      |e| > 0 && InstructionSizeBytes(e[0]) == Ok(|e|) && DecodeOperands(e) == Move16(dst16, src16)
  {
  }

  lemma DecodeEncodeMoveWide(dst: U8, src: U8)
    requires dst < 16 && src < 16
    ensures var e := Op8(0x04, Pack(dst, src));
      |e| > 0 && InstructionSizeBytes(e[0]) == Ok(|e|) && DecodeOperands(e) == MoveWide(dst, src)
  {
  }

  lemma DecodeEncodeMoveWideFrom16(dst: U8, src16: U16)
    ensures var e := Op8U16(0x05, dst, src16);
      |e| > 0 && InstructionSizeBytes(e[0]) == Ok(|e|) && DecodeOperands(e) == MoveWideFrom16(dst, src16)
  {
  }

  lemma DecodeEncodeMoveWide16(dst16: U16, src16: U16)
    ensures var e := Op8U16U16(0x06, 0, dst16, src16);
      |e| > 0 && InstructionSizeBytes(e[0]) == Ok(|e|) && DecodeOperands(e) == MoveWide16(dst16, src16)
  {
  }

  lemma DecodeEncodeMoveObject(dst: U8, src: U8)
    requires dst < 16 && src < 16
    ensures var e := Op8(0x07, Pack(dst, src));
      |e| > 0 && InstructionSizeBytes(e[0]) == Ok(|e|) && DecodeOperands(e) == MoveObject(dst, src)
  {
  }

  lemma DecodeEncodeMoveObjectFrom16(dst: U8, src16: U16)
    ensures var e := Op8U16(0x08, dst, src16);
      |e| > 0 && InstructionSizeBytes(e[0]) == Ok(|e|) && DecodeOperands(e) == MoveObjectFrom16(dst, src16)
  {
  }

  lemma DecodeEncodeMoveObject16(dst16: U16, src16: U16)
    ensures var e := Op8U16U16(0x09, 0, dst16, src16);
      |e| > 0 && InstructionSizeBytes(e[0]) == Ok(|e|) && DecodeOperands(e) == MoveObject16(dst16, src16)
  {
  }

  lemma DecodeEncodeMoveResult(dst: U8)
    ensures var e := Op8(0x0A, dst);
      |e| > 0 && InstructionSizeBytes(e[0]) == Ok(|e|) && DecodeOperands(e) == MoveResult(dst)
  {
  }

  lemma DecodeEncodeMoveResultWide(dst: U8)
    ensures var e := Op8(0x0B, dst);
      |e| > 0 && InstructionSizeBytes(e[0]) == Ok(|e|) && DecodeOperands(e) == MoveResultWide(dst)
  {
  }

  lemma DecodeEncodeMoveResultObject(dst: U8)
    ensures var e := Op8(0x0C, dst);
      |e| > 0 && InstructionSizeBytes(e[0]) == Ok(|e|) && DecodeOperands(e) == MoveResultObject(dst)
  {
  }

  lemma DecodeEncodeMoveException(dst: U8)
    ensures var e := Op8(0x0D, dst);
      |e| > 0 && InstructionSizeBytes(e[0]) == Ok(|e|) && DecodeOperands(e) == MoveException(dst)
  {
  }

  lemma DecodeEncodeReturnVoid()
    ensures var e := Op8(0x0E, 0);
      |e| > 0 && InstructionSizeBytes(e[0]) == Ok(|e|) && DecodeOperands(e) == ReturnVoid
  {
  }

  lemma DecodeEncodeReturn(value: U8)
    ensures var e := Op8(0x0F, value);
      |e| > 0 && InstructionSizeBytes(e[0]) == Ok(|e|) && DecodeOperands(e) == Return(value)
  {
  }

  lemma DecodeEncodeReturnWide(value: U8)
    ensures var e := Op8(0x10, value);
      |e| > 0 && InstructionSizeBytes(e[0]) == Ok(|e|) && DecodeOperands(e) == ReturnWide(value)
  {
  }

  lemma DecodeEncodeReturnObject(value: U8)
    ensures var e := Op8(0x11, value);
      |e| > 0 && InstructionSizeBytes(e[0]) == Ok(|e|) && DecodeOperands(e) == ReturnObject(value)
  {
  }

  lemma DecodeEncodeConst4(dst: U8, lit8: I8)
    requires dst < 16 && 0 <= lit8 < 16
    ensures var e := Op8(0x12, Pack(dst, lit8));
      |e| > 0 && InstructionSizeBytes(e[0]) == Ok(|e|) && DecodeOperands(e) == Const4(dst, lit8)
  {
  }

  lemma DecodeEncodeConst16(dst: U8, lit16: I16)
    ensures var e := Op8U16(0x13, dst, Bits16(lit16));
      |e| > 0 && InstructionSizeBytes(e[0]) == Ok(|e|) && DecodeOperands(e) == Const16(dst, lit16)
  {
  }

  lemma DecodeEncodeConst(dst: U8, lit32: I32)
    ensures var e := Op8U32(0x14, dst, Bits32(lit32));
      |e| > 0 && InstructionSizeBytes(e[0]) == Ok(|e|) && DecodeOperands(e) == Const(dst, lit32)
  {
  }

  lemma DecodeEncodeConstHigh16(dst: U8, lit16: I16)
    ensures var e := Op8U16(0x15, dst, Bits16(lit16));
      |e| > 0 && InstructionSizeBytes(e[0]) == Ok(|e|) && DecodeOperands(e) == ConstHigh16(dst, lit16)
  {
  }

  lemma DecodeEncodeConstWide16(dst: U8, lit16: I16)
    ensures var e := Op8U16(0x16, dst, Bits16(lit16));
      |e| > 0 && InstructionSizeBytes(e[0]) == Ok(|e|) && DecodeOperands(e) == ConstWide16(dst, lit16)
  {
  }

  lemma DecodeEncodeConstWide32(dst: U8, lit32: I32)
    ensures var e := Op8U32(0x17, dst, Bits32(lit32));
      |e| > 0 && InstructionSizeBytes(e[0]) == Ok(|e|) && DecodeOperands(e) == ConstWide32(dst, lit32)
  {
  }

  lemma DecodeEncodeConstWide(dst: U8, lit64: I64)
    ensures var e := Op8U64(0x18, dst, Bits64(lit64));
      |e| > 0 && InstructionSizeBytes(e[0]) == Ok(|e|) && DecodeOperands(e) == ConstWide(dst, lit64)
  {
  }

  lemma DecodeEncodeConstWideHigh16(dst: U8, lit16: I16)
    ensures var e := Op8U16(0x19, dst, Bits16(lit16));
      |e| > 0 && InstructionSizeBytes(e[0]) == Ok(|e|) && DecodeOperands(e) == ConstWideHigh16(dst, lit16)
  {
  }

  lemma DecodeEncodeConstString(dst: U8, stringIdx: U16)
    ensures var e := Op8U16(0x1A, dst, stringIdx);
      |e| > 0 && InstructionSizeBytes(e[0]) == Ok(|e|) && DecodeOperands(e) == ConstString(dst, stringIdx)
  {
  }

  lemma DecodeEncodeConstStringJumbo(dst: U8, stringIdx32: U32)
    ensures var e := Op8U32(0x1B, dst, stringIdx32);
      |e| > 0 && InstructionSizeBytes(e[0]) == Ok(|e|) && DecodeOperands(e) == ConstStringJumbo(dst, stringIdx32)
  {
  }

  lemma DecodeEncodeConstClass(dst: U8, typeIdx: U16)
    ensures var e := Op8U16(0x1C, dst, typeIdx);
      |e| > 0 && InstructionSizeBytes(e[0]) == Ok(|e|) && DecodeOperands(e) == ConstClass(dst, typeIdx)
  {
  }

  lemma DecodeEncodeMonitorEnter(reference: U8)
    ensures var e := Op8(0x1D, reference);
      |e| > 0 && InstructionSizeBytes(e[0]) == Ok(|e|) && DecodeOperands(e) == MonitorEnter(reference)
  {
  }

  lemma DecodeEncodeMonitorExit(reference: U8)
    ensures var e := Op8(0x1E, reference);
      |e| > 0 && InstructionSizeBytes(e[0]) == Ok(|e|) && DecodeOperands(e) == MonitorExit(reference)
  {
  }

  lemma DecodeEncodeCheckCast(reference: U8, typeIdx: U16)
    ensures var e := Op8U16(0x1F, reference, typeIdx);
      |e| > 0 && InstructionSizeBytes(e[0]) == Ok(|e|) && DecodeOperands(e) == CheckCast(reference, typeIdx)
  {
  }

  lemma DecodeEncodeInstanceOf(dst: U8, reference: U8, typeIdx: U16)
    requires dst < 16 && reference < 16
    ensures var e := Op8U16(0x20, Pack(dst, reference), typeIdx);
      |e| > 0 && InstructionSizeBytes(e[0]) == Ok(|e|) && DecodeOperands(e) == InstanceOf(dst, reference, typeIdx)
  {
  }

  lemma DecodeEncodeArrayLength(dst: U8, arr: U8)
    requires dst < 16 && arr < 16
    ensures var e := Op8(0x21, Pack(dst, arr));
      |e| > 0 && InstructionSizeBytes(e[0]) == Ok(|e|) && DecodeOperands(e) == ArrayLength(dst, arr)
  {
  }

  lemma DecodeEncodeNewInstance(dst: U8, typeIdx: U16)
    ensures var e := Op8U16(0x22, dst, typeIdx);
      |e| > 0 && InstructionSizeBytes(e[0]) == Ok(|e|) && DecodeOperands(e) == NewInstance(dst, typeIdx)
  {
  }

  lemma DecodeEncodeNewArray(dst: U8, size: U8, typeIdx: U16)
    requires dst < 16 && size < 16
    ensures var e := Op8U16(0x23, Pack(dst, size), typeIdx);
      |e| > 0 && InstructionSizeBytes(e[0]) == Ok(|e|) && DecodeOperands(e) == NewArray(dst, size, typeIdx)
  {
  }

  lemma DecodeEncodeFilledNewArray(typeIdx: U16, args: RegArgs, argCnt: U8)
    requires argCnt < 16 && RegsFit(args)
    ensures var e := Op8U16U8U8(0x24, Pack(args[4], argCnt), typeIdx, ArgBytes(args).0, ArgBytes(args).1);
      |e| > 0 && InstructionSizeBytes(e[0]) == Ok(|e|) && DecodeOperands(e) == FilledNewArray(typeIdx, args, argCnt)
  {
    Args35cOfArgBytes(args, argCnt);
  }

  lemma DecodeEncodeFilledNewArrayRange(typeIdx: U16, firstArg: U16, argCnt: U8)
    ensures var e := Op8U16U16(0x25, argCnt, typeIdx, firstArg);
      |e| > 0 && InstructionSizeBytes(e[0]) == Ok(|e|) && DecodeOperands(e) == FilledNewArrayRange(typeIdx, firstArg, argCnt)
  {
  }

  lemma DecodeEncodeFillArrayData(arr: U8, offset32: I32)
    ensures var e := Op8U32(0x26, arr, Bits32(offset32));
      |e| > 0 && InstructionSizeBytes(e[0]) == Ok(|e|) && DecodeOperands(e) == FillArrayData(arr, offset32)
  {
  }

  lemma DecodeEncodeThrow(exception: U8)
    ensures var e := Op8(0x27, exception);
      |e| > 0 && InstructionSizeBytes(e[0]) == Ok(|e|) && DecodeOperands(e) == Throw(exception)
  {
  }

  lemma DecodeEncodeGoto(offset8: I8)
    ensures var e := Op8(0x28, Bits8(offset8));
      |e| > 0 && InstructionSizeBytes(e[0]) == Ok(|e|) && DecodeOperands(e) == Goto(offset8)
  {
  }

  lemma DecodeEncodeGoto16(offset16: I16)
    ensures var e := Op8U16(0x29, 0, Bits16(offset16));
      |e| > 0 && InstructionSizeBytes(e[0]) == Ok(|e|) && DecodeOperands(e) == Goto16(offset16)
  {
  }

  lemma DecodeEncodeGoto32(offset32: I32)
    ensures var e := Op8U32(0x2A, 0, Bits32(offset32));
      |e| > 0 && InstructionSizeBytes(e[0]) == Ok(|e|) && DecodeOperands(e) == Goto32(offset32)
  {
  }

  lemma DecodeEncodePackedSwitch(value: U8, offset32: I32)
    ensures var e := Op8U32(0x2B, value, Bits32(offset32));
      |e| > 0 && InstructionSizeBytes(e[0]) == Ok(|e|) && DecodeOperands(e) == PackedSwitch(value, offset32)
  {
  }

  lemma DecodeEncodeSparseSwitch(value: U8, offset32: I32)
    ensures var e := Op8U32(0x2C, value, Bits32(offset32));
      |e| > 0 && InstructionSizeBytes(e[0]) == Ok(|e|) && DecodeOperands(e) == SparseSwitch(value, offset32)
  {
  }

  lemma DecodeEncodeCmp(cmpKind: CmpKind, dst: U8, srcA: U8, srcB: U8)
    ensures var e := Op8U8U8(0x2D + cmpKind, dst, srcA, srcB);
      |e| > 0 && InstructionSizeBytes(e[0]) == Ok(|e|) && DecodeOperands(e) == Cmp(cmpKind, dst, srcA, srcB)
  {
  }

  lemma DecodeEncodeIfTest(ifTestKind: IfTestKind, a: U8, b: U8, offset16: I16)
    requires a < 16 && b < 16
    ensures var e := Op8U16(0x32 + ifTestKind, Pack(a, b), Bits16(offset16));
      |e| > 0 && InstructionSizeBytes(e[0]) == Ok(|e|) && DecodeOperands(e) == IfTest(ifTestKind, a, b, offset16)
  {
  }

  lemma DecodeEncodeIfTestZ(ifTestZKind: IfTestZKind, value: U8, offset16: I16)
    ensures var e := Op8U16(0x38 + ifTestZKind, value, Bits16(offset16));
      |e| > 0 && InstructionSizeBytes(e[0]) == Ok(|e|) && DecodeOperands(e) == IfTestZ(ifTestZKind, value, offset16)
  {
  }

  lemma DecodeEncodeAget(valueKind: ValueKind, src: U8, arr: U8, index: U8)
    ensures var e := Op8U8U8(0x44 + valueKind, src, arr, index);
      |e| > 0 && InstructionSizeBytes(e[0]) == Ok(|e|) && DecodeOperands(e) == Aget(valueKind, src, arr, index)
  {
  }

  lemma DecodeEncodeAput(valueKind: ValueKind, dst: U8, arr: U8, index: U8)
    ensures var e := Op8U8U8(0x4B + valueKind, dst, arr, index);
      |e| > 0 && InstructionSizeBytes(e[0]) == Ok(|e|) && DecodeOperands(e) == Aput(valueKind, dst, arr, index)
  {
  }

  lemma DecodeEncodeIget(valueKind: ValueKind, src: U8, obj: U8, fieldIdx: U16)
    requires src < 16 && obj < 16
    ensures var e := Op8U16(0x52 + valueKind, Pack(src, obj), fieldIdx);
      |e| > 0 && InstructionSizeBytes(e[0]) == Ok(|e|) && DecodeOperands(e) == Iget(valueKind, src, obj, fieldIdx)
  {
  }

  lemma DecodeEncodeIput(valueKind: ValueKind, dst: U8, obj: U8, fieldIdx: U16)
    requires dst < 16 && obj < 16
    ensures var e := Op8U16(0x59 + valueKind, Pack(dst, obj), fieldIdx);
      |e| > 0 && InstructionSizeBytes(e[0]) == Ok(|e|) && DecodeOperands(e) == Iput(valueKind, dst, obj, fieldIdx)
  {
  }

  lemma DecodeEncodeSget(valueKind: ValueKind, src: U8, fieldIdx: U16)
    ensures var e := Op8U16(0x60 + valueKind, src, fieldIdx);
      |e| > 0 && InstructionSizeBytes(e[0]) == Ok(|e|) && DecodeOperands(e) == Sget(valueKind, src, fieldIdx)
  {
  }

  lemma DecodeEncodeSput(valueKind: ValueKind, dst: U8, fieldIdx: U16)
    ensures var e := Op8U16(0x67 + valueKind, dst, fieldIdx);
      |e| > 0 && InstructionSizeBytes(e[0]) == Ok(|e|) && DecodeOperands(e) == Sput(valueKind, dst, fieldIdx)
  {
  }

  lemma DecodeEncodeInvoke(invokeKind: InvokeKind, methodIdx: U16, args: RegArgs, argCnt: U8)
    requires argCnt < 16 && RegsFit(args)
    ensures var e := Op8U16U8U8(0x6E + invokeKind, Pack(args[4], argCnt), methodIdx, ArgBytes(args).0, ArgBytes(args).1);
      |e| > 0 && InstructionSizeBytes(e[0]) == Ok(|e|) && DecodeOperands(e) == Invoke(invokeKind, methodIdx, args, argCnt)
  {
    Args35cOfArgBytes(args, argCnt);
  }

  lemma DecodeEncodeInvokeRange(invokeKind: InvokeKind, methodIdx: U16, firstArg: U16, argCnt: U8)
    ensures var e := Op8U16U16(0x74 + invokeKind, argCnt, methodIdx, firstArg);
      |e| > 0 && InstructionSizeBytes(e[0]) == Ok(|e|) && DecodeOperands(e) == InvokeRange(invokeKind, methodIdx, firstArg, argCnt)
  {
  }

  lemma DecodeEncodeUnop(unopKind: UnopKind, dst: U8, src: U8)
    requires dst < 16 && src < 16
    ensures var e := Op8(0x7B + unopKind, Pack(dst, src));
      |e| > 0 && InstructionSizeBytes(e[0]) == Ok(|e|) && DecodeOperands(e) == Unop(unopKind, dst, src)
  {
  }

  lemma DecodeEncodeBinop(binopKind: BinopKind, dst: U8, srcA: U8, srcB: U8)
    ensures var e := Op8U8U8(0x90 + binopKind, dst, srcA, srcB);
      |e| > 0 && InstructionSizeBytes(e[0]) == Ok(|e|) && DecodeOperands(e) == Binop(binopKind, dst, srcA, srcB)
  {
  }

  lemma DecodeEncodeBinop2Addr(binopKind: BinopKind, dst: U8, src: U8)
    requires dst < 16 && src < 16
    ensures var e := Op8(0xB0 + binopKind, Pack(dst, src));
      |e| > 0 && InstructionSizeBytes(e[0]) == Ok(|e|) && DecodeOperands(e) == Binop2Addr(binopKind, dst, src)
  {
  }

  lemma DecodeEncodeBinopLit16(lit16Kind: Lit16Kind, dst: U8, src: U8, lit16: I16)
    requires dst < 16 && src < 16
    ensures var e := Op8U16(0xD0 + lit16Kind, Pack(dst, src), Bits16(lit16));
      |e| > 0 && InstructionSizeBytes(e[0]) == Ok(|e|) && DecodeOperands(e) == BinopLit16(lit16Kind, dst, src, lit16)
  {
  }

  lemma DecodeEncodeBinopLit8(lit8Kind: Lit8Kind, dst: U8, src: U8, lit8: I8)
    ensures var e := Op8U8U8(0xD8 + lit8Kind, dst, src, Bits8(lit8));
      |e| > 0 && InstructionSizeBytes(e[0]) == Ok(|e|) && DecodeOperands(e) == BinopLit8(lit8Kind, dst, src, lit8)
  {
  }

  lemma DecodeEncodeInvokePolymorphic(methodIdx: U16, protoIdx: U16, args: RegArgs, argCnt: U8)
    requires argCnt < 16 && RegsFit(args)
    ensures var e := Op8U16U8U8U16(0xFA, Pack(args[4], argCnt), methodIdx, ArgBytes(args).0, ArgBytes(args).1, protoIdx);
      |e| > 0 && InstructionSizeBytes(e[0]) == Ok(|e|) && DecodeOperands(e) == InvokePolymorphic(methodIdx, protoIdx, args, argCnt)
  {
    Args35cOfArgBytes(args, argCnt);
  }

  lemma DecodeEncodeInvokePolymorphicRange(methodIdx: U16, protoIdx: U16, firstArg: U16, argCnt: U8)
    ensures var e := Op8U16U16U16(0xFB, argCnt, methodIdx, firstArg, protoIdx);
      |e| > 0 && InstructionSizeBytes(e[0]) == Ok(|e|) && DecodeOperands(e) == InvokePolymorphicRange(methodIdx, protoIdx, firstArg, argCnt)
  {
  }

  lemma DecodeEncodeInvokeCustom(callSiteIdx: U16, args: RegArgs, argCnt: U8)
    requires argCnt < 16 && RegsFit(args)
    ensures var e := Op8U16U8U8(0xFC, Pack(args[4], argCnt), callSiteIdx, ArgBytes(args).0, ArgBytes(args).1);
      |e| > 0 && InstructionSizeBytes(e[0]) == Ok(|e|) && DecodeOperands(e) == InvokeCustom(callSiteIdx, args, argCnt)
  {
    Args35cOfArgBytes(args, argCnt);
  }

  lemma DecodeEncodeInvokeCustomRange(callSiteIdx: U16, firstArg: U16, argCnt: U8)
    ensures var e := Op8U16U16(0xFD, argCnt, callSiteIdx, firstArg);
      |e| > 0 && InstructionSizeBytes(e[0]) == Ok(|e|) && DecodeOperands(e) == InvokeCustomRange(callSiteIdx, firstArg, argCnt)
  {
  }

  lemma DecodeEncodeConstMethodHandle(dst: U8, methodHandleIdx: U16)
    ensures var e := Op8U16(0xFE, dst, methodHandleIdx);
      |e| > 0 && InstructionSizeBytes(e[0]) == Ok(|e|) && DecodeOperands(e) == ConstMethodHandle(dst, methodHandleIdx)
  {
  }

  lemma DecodeEncodeConstMethodType(dst: U8, protoIdx: U16)
    ensures var e := Op8U16(0xFF, dst, protoIdx);
      |e| > 0 && InstructionSizeBytes(e[0]) == Ok(|e|) && DecodeOperands(e) == ConstMethodType(dst, protoIdx)
  {
  }

  /** Reading the operands of the encoding of a well-formed instruction gives
      the instruction back, and the opcode table gives its first byte the
      encoding's length. */
  lemma DecodeOperandsEncode(i: Instruction)
    requires WellFormed(i)
    ensures |Encode(i)| > 0 && InstructionSizeBytes(Encode(i)[0]) == Ok(|Encode(i)|)
    ensures DecodeOperands(Encode(i)) == i
  {
    if i.Nop? || i.Move? || i.MoveFrom16? || i.Move16? || i.MoveWide? || i.MoveWideFrom16? || i.MoveWide16? || i.MoveObject? {
      DecodeOperandsEncodeNopToMoveObject(i);
    } else if i.MoveObjectFrom16? || i.MoveObject16? || i.MoveResult? || i.MoveResultWide? || i.MoveResultObject? || i.MoveException? || i.ReturnVoid? || i.Return? {
      DecodeOperandsEncodeMoveObjectFrom16ToReturn(i);
    } else if i.ReturnWide? || i.ReturnObject? || i.Const4? || i.Const16? || i.Const? || i.ConstHigh16? || i.ConstWide16? || i.ConstWide32? {
      DecodeOperandsEncodeReturnWideToConstWide32(i);
    } else if i.ConstWide? || i.ConstWideHigh16? || i.ConstString? || i.ConstStringJumbo? || i.ConstClass? || i.MonitorEnter? || i.MonitorExit? || i.CheckCast? {
      DecodeOperandsEncodeConstWideToCheckCast(i);
    } else if i.InstanceOf? || i.ArrayLength? || i.NewInstance? || i.NewArray? || i.FilledNewArray? || i.FilledNewArrayRange? || i.FillArrayData? || i.Throw? {
      DecodeOperandsEncodeInstanceOfToThrow(i);
    } else if i.Goto? || i.Goto16? || i.Goto32? || i.PackedSwitch? || i.SparseSwitch? || i.Cmp? || i.IfTest? || i.IfTestZ? {
      DecodeOperandsEncodeGotoToIfTestZ(i);
    } else if i.Aget? || i.Aput? || i.Iget? || i.Iput? || i.Sget? || i.Sput? || i.Invoke? || i.InvokeRange? {
      DecodeOperandsEncodeAgetToInvokeRange(i);
    } else if i.Unop? || i.Binop? || i.Binop2Addr? || i.BinopLit16? || i.BinopLit8? || i.InvokePolymorphic? || i.InvokePolymorphicRange? || i.InvokeCustom? {
      DecodeOperandsEncodeUnopToInvokeCustom(i);
    } else {
      DecodeOperandsEncodeInvokeCustomRangeToConstMethodType(i);
    }
  }

  lemma DecodeEncodeNopCase(i: Instruction)
    requires i.Nop? && WellFormed(i)
    ensures |Encode(i)| > 0 && InstructionSizeBytes(Encode(i)[0]) == Ok(|Encode(i)|)
    ensures DecodeOperands(Encode(i)) == i
  {
    DecodeEncodeNop();
  }

  lemma DecodeEncodeMoveCase(i: Instruction)
    requires i.Move? && WellFormed(i)
    ensures |Encode(i)| > 0 && InstructionSizeBytes(Encode(i)[0]) == Ok(|Encode(i)|)
    ensures DecodeOperands(Encode(i)) == i
  {
    DecodeEncodeMove(i.dst, i.src);
  }

  lemma DecodeEncodeMoveFrom16Case(i: Instruction)
    requires i.MoveFrom16? && WellFormed(i)
    ensures |Encode(i)| > 0 && InstructionSizeBytes(Encode(i)[0]) == Ok(|Encode(i)|)
    ensures DecodeOperands(Encode(i)) == i
  {
    DecodeEncodeMoveFrom16(i.dst, i.src16);
  }

  lemma DecodeEncodeMove16Case(i: Instruction)
    requires i.Move16? && WellFormed(i)
    ensures |Encode(i)| > 0 && InstructionSizeBytes(Encode(i)[0]) == Ok(|Encode(i)|)
    ensures DecodeOperands(Encode(i)) == i
  {
    DecodeEncodeMove16(i.dst16, i.src16);
  }

  lemma DecodeEncodeMoveWideCase(i: Instruction)
    requires i.MoveWide? && WellFormed(i)
    ensures |Encode(i)| > 0 && InstructionSizeBytes(Encode(i)[0]) == Ok(|Encode(i)|)
    ensures DecodeOperands(Encode(i)) == i
  {
    DecodeEncodeMoveWide(i.dst, i.src);
  }

  lemma DecodeEncodeMoveWideFrom16Case(i: Instruction)
    requires i.MoveWideFrom16? && WellFormed(i)
    ensures |Encode(i)| > 0 && InstructionSizeBytes(Encode(i)[0]) == Ok(|Encode(i)|)
    ensures DecodeOperands(Encode(i)) == i
  {
    DecodeEncodeMoveWideFrom16(i.dst, i.src16);
  }

  lemma DecodeEncodeMoveWide16Case(i: Instruction)
    requires i.MoveWide16? && WellFormed(i)
    ensures |Encode(i)| > 0 && InstructionSizeBytes(Encode(i)[0]) == Ok(|Encode(i)|)
    ensures DecodeOperands(Encode(i)) == i
  {
    DecodeEncodeMoveWide16(i.dst16, i.src16);
  }

  lemma DecodeEncodeMoveObjectCase(i: Instruction)
    requires i.MoveObject? && WellFormed(i)
    ensures |Encode(i)| > 0 && InstructionSizeBytes(Encode(i)[0]) == Ok(|Encode(i)|)
    ensures DecodeOperands(Encode(i)) == i
  {
    DecodeEncodeMoveObject(i.dst, i.src);
  }

  lemma DecodeEncodeMoveObjectFrom16Case(i: Instruction)
    requires i.MoveObjectFrom16? && WellFormed(i)
    ensures |Encode(i)| > 0 && InstructionSizeBytes(Encode(i)[0]) == Ok(|Encode(i)|)
    ensures DecodeOperands(Encode(i)) == i
  {
    DecodeEncodeMoveObjectFrom16(i.dst, i.src16);
  }

  lemma DecodeEncodeMoveObject16Case(i: Instruction)
    requires i.MoveObject16? && WellFormed(i)
    ensures |Encode(i)| > 0 && InstructionSizeBytes(Encode(i)[0]) == Ok(|Encode(i)|)
    ensures DecodeOperands(Encode(i)) == i
  {
    DecodeEncodeMoveObject16(i.dst16, i.src16);
  }

  lemma DecodeEncodeMoveResultCase(i: Instruction)
    requires i.MoveResult? && WellFormed(i)
    ensures |Encode(i)| > 0 && InstructionSizeBytes(Encode(i)[0]) == Ok(|Encode(i)|)
    ensures DecodeOperands(Encode(i)) == i
  {
    DecodeEncodeMoveResult(i.dst);
  }

  lemma DecodeEncodeMoveResultWideCase(i: Instruction)
    requires i.MoveResultWide? && WellFormed(i)
    ensures |Encode(i)| > 0 && InstructionSizeBytes(Encode(i)[0]) == Ok(|Encode(i)|)
    ensures DecodeOperands(Encode(i)) == i
  {
    DecodeEncodeMoveResultWide(i.dst);
  }

  lemma DecodeEncodeMoveResultObjectCase(i: Instruction)
    requires i.MoveResultObject? && WellFormed(i)
    ensures |Encode(i)| > 0 && InstructionSizeBytes(Encode(i)[0]) == Ok(|Encode(i)|)
    ensures DecodeOperands(Encode(i)) == i
  {
    DecodeEncodeMoveResultObject(i.dst);
  }

  lemma DecodeEncodeMoveExceptionCase(i: Instruction)
    requires i.MoveException? && WellFormed(i)
    ensures |Encode(i)| > 0 && InstructionSizeBytes(Encode(i)[0]) == Ok(|Encode(i)|)
    ensures DecodeOperands(Encode(i)) == i
  {
    DecodeEncodeMoveException(i.dst);
  }

  lemma DecodeEncodeReturnVoidCase(i: Instruction)
    requires i.ReturnVoid? && WellFormed(i)
    ensures |Encode(i)| > 0 && InstructionSizeBytes(Encode(i)[0]) == Ok(|Encode(i)|)
    ensures DecodeOperands(Encode(i)) == i
  {
    DecodeEncodeReturnVoid();
  }

  lemma DecodeEncodeReturnCase(i: Instruction)
    requires i.Return? && WellFormed(i)
    ensures |Encode(i)| > 0 && InstructionSizeBytes(Encode(i)[0]) == Ok(|Encode(i)|)
    ensures DecodeOperands(Encode(i)) == i
  {
    DecodeEncodeReturn(i.value);
  }

  lemma DecodeEncodeReturnWideCase(i: Instruction)
    requires i.ReturnWide? && WellFormed(i)
    ensures |Encode(i)| > 0 && InstructionSizeBytes(Encode(i)[0]) == Ok(|Encode(i)|)
    ensures DecodeOperands(Encode(i)) == i
  {
    DecodeEncodeReturnWide(i.value);
  }

  lemma DecodeEncodeReturnObjectCase(i: Instruction)
    requires i.ReturnObject? && WellFormed(i)
    ensures |Encode(i)| > 0 && InstructionSizeBytes(Encode(i)[0]) == Ok(|Encode(i)|)
    ensures DecodeOperands(Encode(i)) == i
  {
    DecodeEncodeReturnObject(i.value);
  }

  lemma DecodeEncodeConst4Case(i: Instruction)
    requires i.Const4? && WellFormed(i)
    ensures |Encode(i)| > 0 && InstructionSizeBytes(Encode(i)[0]) == Ok(|Encode(i)|)
    ensures DecodeOperands(Encode(i)) == i
  {
    DecodeEncodeConst4(i.dst, i.lit8);
  }

  lemma DecodeEncodeConst16Case(i: Instruction)
    requires i.Const16? && WellFormed(i)
    ensures |Encode(i)| > 0 && InstructionSizeBytes(Encode(i)[0]) == Ok(|Encode(i)|)
    ensures DecodeOperands(Encode(i)) == i
  {
    DecodeEncodeConst16(i.dst, i.lit16);
  }

  lemma DecodeEncodeConstCase(i: Instruction)
    requires i.Const? && WellFormed(i)
    ensures |Encode(i)| > 0 && InstructionSizeBytes(Encode(i)[0]) == Ok(|Encode(i)|)
    ensures DecodeOperands(Encode(i)) == i
  {
    DecodeEncodeConst(i.dst, i.lit32);
  }

  lemma DecodeEncodeConstHigh16Case(i: Instruction)
    requires i.ConstHigh16? && WellFormed(i)
    ensures |Encode(i)| > 0 && InstructionSizeBytes(Encode(i)[0]) == Ok(|Encode(i)|)
    ensures DecodeOperands(Encode(i)) == i
  {
    DecodeEncodeConstHigh16(i.dst, i.lit16);
  }

  lemma DecodeEncodeConstWide16Case(i: Instruction)
    requires i.ConstWide16? && WellFormed(i)
    ensures |Encode(i)| > 0 && InstructionSizeBytes(Encode(i)[0]) == Ok(|Encode(i)|)
    ensures DecodeOperands(Encode(i)) == i
  {
    DecodeEncodeConstWide16(i.dst, i.lit16);
  }

  lemma DecodeEncodeConstWide32Case(i: Instruction)
    requires i.ConstWide32? && WellFormed(i)
    ensures |Encode(i)| > 0 && InstructionSizeBytes(Encode(i)[0]) == Ok(|Encode(i)|)
    ensures DecodeOperands(Encode(i)) == i
  {
    DecodeEncodeConstWide32(i.dst, i.lit32);
  }

  lemma DecodeEncodeConstWideCase(i: Instruction)
    requires i.ConstWide? && WellFormed(i)
    ensures |Encode(i)| > 0 && InstructionSizeBytes(Encode(i)[0]) == Ok(|Encode(i)|)
    ensures DecodeOperands(Encode(i)) == i
  {
    DecodeEncodeConstWide(i.dst, i.lit64);
  }

  lemma DecodeEncodeConstWideHigh16Case(i: Instruction)
    requires i.ConstWideHigh16? && WellFormed(i)
    ensures |Encode(i)| > 0 && InstructionSizeBytes(Encode(i)[0]) == Ok(|Encode(i)|)
    ensures DecodeOperands(Encode(i)) == i
  {
    DecodeEncodeConstWideHigh16(i.dst, i.lit16);
  }

  lemma DecodeEncodeConstStringCase(i: Instruction)
    requires i.ConstString? && WellFormed(i)
    ensures |Encode(i)| > 0 && InstructionSizeBytes(Encode(i)[0]) == Ok(|Encode(i)|)
    ensures DecodeOperands(Encode(i)) == i
  {
    DecodeEncodeConstString(i.dst, i.stringIdx);
  }

  lemma DecodeEncodeConstStringJumboCase(i: Instruction)
    requires i.ConstStringJumbo? && WellFormed(i)
    ensures |Encode(i)| > 0 && InstructionSizeBytes(Encode(i)[0]) == Ok(|Encode(i)|)
    ensures DecodeOperands(Encode(i)) == i
  {
    DecodeEncodeConstStringJumbo(i.dst, i.stringIdx32);
  }

  lemma DecodeEncodeConstClassCase(i: Instruction)
    requires i.ConstClass? && WellFormed(i)
    ensures |Encode(i)| > 0 && InstructionSizeBytes(Encode(i)[0]) == Ok(|Encode(i)|)
    ensures DecodeOperands(Encode(i)) == i
  {
    DecodeEncodeConstClass(i.dst, i.typeIdx);
  }

  lemma DecodeEncodeMonitorEnterCase(i: Instruction)
    requires i.MonitorEnter? && WellFormed(i)
    ensures |Encode(i)| > 0 && InstructionSizeBytes(Encode(i)[0]) == Ok(|Encode(i)|)
    ensures DecodeOperands(Encode(i)) == i
  {
    DecodeEncodeMonitorEnter(i.reference);
  }

  lemma DecodeEncodeMonitorExitCase(i: Instruction)
    requires i.MonitorExit? && WellFormed(i)
    ensures |Encode(i)| > 0 && InstructionSizeBytes(Encode(i)[0]) == Ok(|Encode(i)|)
    ensures DecodeOperands(Encode(i)) == i
  {
    DecodeEncodeMonitorExit(i.reference);
  }

  lemma DecodeEncodeCheckCastCase(i: Instruction)
    requires i.CheckCast? && WellFormed(i)
    ensures |Encode(i)| > 0 && InstructionSizeBytes(Encode(i)[0]) == Ok(|Encode(i)|)
    ensures DecodeOperands(Encode(i)) == i
  {
    DecodeEncodeCheckCast(i.reference, i.typeIdx);
  }

  lemma DecodeEncodeInstanceOfCase(i: Instruction)
    requires i.InstanceOf? && WellFormed(i)
    ensures |Encode(i)| > 0 && InstructionSizeBytes(Encode(i)[0]) == Ok(|Encode(i)|)
    ensures DecodeOperands(Encode(i)) == i
  {
    DecodeEncodeInstanceOf(i.dst, i.reference, i.typeIdx);
  }

  lemma DecodeEncodeArrayLengthCase(i: Instruction)
    requires i.ArrayLength? && WellFormed(i)
    ensures |Encode(i)| > 0 && InstructionSizeBytes(Encode(i)[0]) == Ok(|Encode(i)|)
    ensures DecodeOperands(Encode(i)) == i
  {
    DecodeEncodeArrayLength(i.dst, i.arr);
  }

  lemma DecodeEncodeNewInstanceCase(i: Instruction)
    requires i.NewInstance? && WellFormed(i)
    ensures |Encode(i)| > 0 && InstructionSizeBytes(Encode(i)[0]) == Ok(|Encode(i)|)
    ensures DecodeOperands(Encode(i)) == i
  {
    DecodeEncodeNewInstance(i.dst, i.typeIdx);
  }

  lemma DecodeEncodeNewArrayCase(i: Instruction)
    requires i.NewArray? && WellFormed(i)
    ensures |Encode(i)| > 0 && InstructionSizeBytes(Encode(i)[0]) == Ok(|Encode(i)|)
    ensures DecodeOperands(Encode(i)) == i
  {
    DecodeEncodeNewArray(i.dst, i.size, i.typeIdx);
  }

  lemma DecodeEncodeFilledNewArrayCase(i: Instruction)
    requires i.FilledNewArray? && WellFormed(i)
    ensures |Encode(i)| > 0 && InstructionSizeBytes(Encode(i)[0]) == Ok(|Encode(i)|)
    ensures DecodeOperands(Encode(i)) == i
  {
    DecodeEncodeFilledNewArray(i.typeIdx, i.args, i.argCnt);
  }

  lemma DecodeEncodeFilledNewArrayRangeCase(i: Instruction)
    requires i.FilledNewArrayRange? && WellFormed(i)
    ensures |Encode(i)| > 0 && InstructionSizeBytes(Encode(i)[0]) == Ok(|Encode(i)|)
    ensures DecodeOperands(Encode(i)) == i
  {
    DecodeEncodeFilledNewArrayRange(i.typeIdx, i.firstArg, i.argCnt);
  }

  lemma DecodeEncodeFillArrayDataCase(i: Instruction)
    requires i.FillArrayData? && WellFormed(i)
    ensures |Encode(i)| > 0 && InstructionSizeBytes(Encode(i)[0]) == Ok(|Encode(i)|)
    ensures DecodeOperands(Encode(i)) == i
  {
    DecodeEncodeFillArrayData(i.arr, i.offset32);
  }

  lemma DecodeEncodeThrowCase(i: Instruction)
    requires i.Throw? && WellFormed(i)
    ensures |Encode(i)| > 0 && InstructionSizeBytes(Encode(i)[0]) == Ok(|Encode(i)|)
    ensures DecodeOperands(Encode(i)) == i
  {
    DecodeEncodeThrow(i.exception);
  }

  lemma DecodeEncodeGotoCase(i: Instruction)
    requires i.Goto? && WellFormed(i)
    ensures |Encode(i)| > 0 && InstructionSizeBytes(Encode(i)[0]) == Ok(|Encode(i)|)
    ensures DecodeOperands(Encode(i)) == i
  {
    DecodeEncodeGoto(i.offset8);
  }

  lemma DecodeEncodeGoto16Case(i: Instruction)
    requires i.Goto16? && WellFormed(i)
    ensures |Encode(i)| > 0 && InstructionSizeBytes(Encode(i)[0]) == Ok(|Encode(i)|)
    ensures DecodeOperands(Encode(i)) == i
  {
    DecodeEncodeGoto16(i.offset16);
  }

  lemma DecodeEncodeGoto32Case(i: Instruction)
    requires i.Goto32? && WellFormed(i)
    ensures |Encode(i)| > 0 && InstructionSizeBytes(Encode(i)[0]) == Ok(|Encode(i)|)
    ensures DecodeOperands(Encode(i)) == i
  {
    DecodeEncodeGoto32(i.offset32);
  }

  lemma DecodeEncodePackedSwitchCase(i: Instruction)
    requires i.PackedSwitch? && WellFormed(i)
    ensures |Encode(i)| > 0 && InstructionSizeBytes(Encode(i)[0]) == Ok(|Encode(i)|)
    ensures DecodeOperands(Encode(i)) == i
  {
    DecodeEncodePackedSwitch(i.value, i.offset32);
  }

  lemma DecodeEncodeSparseSwitchCase(i: Instruction)
    requires i.SparseSwitch? && WellFormed(i)
    ensures |Encode(i)| > 0 && InstructionSizeBytes(Encode(i)[0]) == Ok(|Encode(i)|)
    ensures DecodeOperands(Encode(i)) == i
  {
    DecodeEncodeSparseSwitch(i.value, i.offset32);
  }

  lemma DecodeEncodeCmpCase(i: Instruction)
    requires i.Cmp? && WellFormed(i)
    ensures |Encode(i)| > 0 && InstructionSizeBytes(Encode(i)[0]) == Ok(|Encode(i)|)
    ensures DecodeOperands(Encode(i)) == i
  {
    DecodeEncodeCmp(i.cmpKind, i.dst, i.srcA, i.srcB);
  }

  lemma DecodeEncodeIfTestCase(i: Instruction)
    requires i.IfTest? && WellFormed(i)
    ensures |Encode(i)| > 0 && InstructionSizeBytes(Encode(i)[0]) == Ok(|Encode(i)|)
    ensures DecodeOperands(Encode(i)) == i
  {
    DecodeEncodeIfTest(i.ifTestKind, i.a, i.b, i.offset16);
  }

  lemma DecodeEncodeIfTestZCase(i: Instruction)
    requires i.IfTestZ? && WellFormed(i)
    ensures |Encode(i)| > 0 && InstructionSizeBytes(Encode(i)[0]) == Ok(|Encode(i)|)
    ensures DecodeOperands(Encode(i)) == i
  {
    DecodeEncodeIfTestZ(i.ifTestZKind, i.value, i.offset16);
  }

  lemma DecodeEncodeAgetCase(i: Instruction)
    requires i.Aget? && WellFormed(i)
    ensures |Encode(i)| > 0 && InstructionSizeBytes(Encode(i)[0]) == Ok(|Encode(i)|)
    ensures DecodeOperands(Encode(i)) == i
  {
    DecodeEncodeAget(i.valueKind, i.src, i.arr, i.index);
  }

  lemma DecodeEncodeAputCase(i: Instruction)
    requires i.Aput? && WellFormed(i)
    ensures |Encode(i)| > 0 && InstructionSizeBytes(Encode(i)[0]) == Ok(|Encode(i)|)
    ensures DecodeOperands(Encode(i)) == i
  {
    DecodeEncodeAput(i.valueKind, i.dst, i.arr, i.index);
  }

  lemma DecodeEncodeIgetCase(i: Instruction)
    requires i.Iget? && WellFormed(i)
    ensures |Encode(i)| > 0 && InstructionSizeBytes(Encode(i)[0]) == Ok(|Encode(i)|)
    ensures DecodeOperands(Encode(i)) == i
  {
    DecodeEncodeIget(i.valueKind, i.src, i.obj, i.fieldIdx);
  }

  lemma DecodeEncodeIputCase(i: Instruction)
    requires i.Iput? && WellFormed(i)
    ensures |Encode(i)| > 0 && InstructionSizeBytes(Encode(i)[0]) == Ok(|Encode(i)|)
    ensures DecodeOperands(Encode(i)) == i
  {
    DecodeEncodeIput(i.valueKind, i.dst, i.obj, i.fieldIdx);
  }

  lemma DecodeEncodeSgetCase(i: Instruction)
    requires i.Sget? && WellFormed(i)
    ensures |Encode(i)| > 0 && InstructionSizeBytes(Encode(i)[0]) == Ok(|Encode(i)|)
    ensures DecodeOperands(Encode(i)) == i
  {
    DecodeEncodeSget(i.valueKind, i.src, i.fieldIdx);
  }

  lemma DecodeEncodeSputCase(i: Instruction)
    requires i.Sput? && WellFormed(i)
    ensures |Encode(i)| > 0 && InstructionSizeBytes(Encode(i)[0]) == Ok(|Encode(i)|)
    ensures DecodeOperands(Encode(i)) == i
  {
    DecodeEncodeSput(i.valueKind, i.dst, i.fieldIdx);
  }

  lemma DecodeEncodeInvokeCase(i: Instruction)
    requires i.Invoke? && WellFormed(i)
    ensures |Encode(i)| > 0 && InstructionSizeBytes(Encode(i)[0]) == Ok(|Encode(i)|)
    ensures DecodeOperands(Encode(i)) == i
  {
    DecodeEncodeInvoke(i.invokeKind, i.methodIdx, i.args, i.argCnt);
  }

  lemma DecodeEncodeInvokeRangeCase(i: Instruction)
    requires i.InvokeRange? && WellFormed(i)
    ensures |Encode(i)| > 0 && InstructionSizeBytes(Encode(i)[0]) == Ok(|Encode(i)|)
    ensures DecodeOperands(Encode(i)) == i
  {
    DecodeEncodeInvokeRange(i.invokeKind, i.methodIdx, i.firstArg, i.argCnt);
  }

  lemma DecodeEncodeUnopCase(i: Instruction)
    requires i.Unop? && WellFormed(i)
    ensures |Encode(i)| > 0 && InstructionSizeBytes(Encode(i)[0]) == Ok(|Encode(i)|)
    ensures DecodeOperands(Encode(i)) == i
  {
    DecodeEncodeUnop(i.unopKind, i.dst, i.src);
  }

  lemma DecodeEncodeBinopCase(i: Instruction)
    requires i.Binop? && WellFormed(i)
    ensures |Encode(i)| > 0 && InstructionSizeBytes(Encode(i)[0]) == Ok(|Encode(i)|)
    ensures DecodeOperands(Encode(i)) == i
  {
    DecodeEncodeBinop(i.binopKind, i.dst, i.srcA, i.srcB);
  }

  lemma DecodeEncodeBinop2AddrCase(i: Instruction)
    requires i.Binop2Addr? && WellFormed(i)
    ensures |Encode(i)| > 0 && InstructionSizeBytes(Encode(i)[0]) == Ok(|Encode(i)|)
    ensures DecodeOperands(Encode(i)) == i
  {
    DecodeEncodeBinop2Addr(i.binopKind, i.dst, i.src);
  }

  lemma DecodeEncodeBinopLit16Case(i: Instruction)
    requires i.BinopLit16? && WellFormed(i)
    ensures |Encode(i)| > 0 && InstructionSizeBytes(Encode(i)[0]) == Ok(|Encode(i)|)
    ensures DecodeOperands(Encode(i)) == i
  {
    DecodeEncodeBinopLit16(i.lit16Kind, i.dst, i.src, i.lit16);
  }

  lemma DecodeEncodeBinopLit8Case(i: Instruction)
    requires i.BinopLit8? && WellFormed(i)
    ensures |Encode(i)| > 0 && InstructionSizeBytes(Encode(i)[0]) == Ok(|Encode(i)|)
    ensures DecodeOperands(Encode(i)) == i
  {
    DecodeEncodeBinopLit8(i.lit8Kind, i.dst, i.src, i.lit8);
  }

  lemma DecodeEncodeInvokePolymorphicCase(i: Instruction)
    requires i.InvokePolymorphic? && WellFormed(i)
    ensures |Encode(i)| > 0 && InstructionSizeBytes(Encode(i)[0]) == Ok(|Encode(i)|)
    ensures DecodeOperands(Encode(i)) == i
  {
    DecodeEncodeInvokePolymorphic(i.methodIdx, i.protoIdx, i.args, i.argCnt);
  }

  lemma DecodeEncodeInvokePolymorphicRangeCase(i: Instruction)
    requires i.InvokePolymorphicRange? && WellFormed(i)
    ensures |Encode(i)| > 0 && InstructionSizeBytes(Encode(i)[0]) == Ok(|Encode(i)|)
    ensures DecodeOperands(Encode(i)) == i
  {
    DecodeEncodeInvokePolymorphicRange(i.methodIdx, i.protoIdx, i.firstArg, i.argCnt);
  }

  lemma DecodeEncodeInvokeCustomCase(i: Instruction)
    requires i.InvokeCustom? && WellFormed(i)
    ensures |Encode(i)| > 0 && InstructionSizeBytes(Encode(i)[0]) == Ok(|Encode(i)|)
    ensures DecodeOperands(Encode(i)) == i
  {
    DecodeEncodeInvokeCustom(i.callSiteIdx, i.args, i.argCnt);
  }

  lemma DecodeEncodeInvokeCustomRangeCase(i: Instruction)
    requires i.InvokeCustomRange? && WellFormed(i)
    ensures |Encode(i)| > 0 && InstructionSizeBytes(Encode(i)[0]) == Ok(|Encode(i)|)
    ensures DecodeOperands(Encode(i)) == i
  {
    DecodeEncodeInvokeCustomRange(i.callSiteIdx, i.firstArg, i.argCnt);
  }

  lemma DecodeEncodeConstMethodHandleCase(i: Instruction)
    requires i.ConstMethodHandle? && WellFormed(i)
    ensures |Encode(i)| > 0 && InstructionSizeBytes(Encode(i)[0]) == Ok(|Encode(i)|)
    ensures DecodeOperands(Encode(i)) == i
  {
    DecodeEncodeConstMethodHandle(i.dst, i.methodHandleIdx);
  }

  lemma DecodeEncodeConstMethodTypeCase(i: Instruction)
    requires i.ConstMethodType? && WellFormed(i)
    ensures |Encode(i)| > 0 && InstructionSizeBytes(Encode(i)[0]) == Ok(|Encode(i)|)
    ensures DecodeOperands(Encode(i)) == i
  {
    DecodeEncodeConstMethodType(i.dst, i.protoIdx);
  }

  lemma DecodeOperandsEncodeNopToMoveObject(i: Instruction)
    requires WellFormed(i) && (i.Nop? || i.Move? || i.MoveFrom16? || i.Move16? || i.MoveWide? || i.MoveWideFrom16? || i.MoveWide16? || i.MoveObject?)
    ensures |Encode(i)| > 0 && InstructionSizeBytes(Encode(i)[0]) == Ok(|Encode(i)|)
    ensures DecodeOperands(Encode(i)) == i
  {
    if i.Nop? {
      DecodeEncodeNopCase(i);
    } else if i.Move? {
      DecodeEncodeMoveCase(i);
    } else if i.MoveFrom16? {
      DecodeEncodeMoveFrom16Case(i);
    } else if i.Move16? {
      DecodeEncodeMove16Case(i);
    } else if i.MoveWide? {
      DecodeEncodeMoveWideCase(i);
    } else if i.MoveWideFrom16? {
      DecodeEncodeMoveWideFrom16Case(i);
    } else if i.MoveWide16? {
      DecodeEncodeMoveWide16Case(i);
    } else {
      DecodeEncodeMoveObjectCase(i);
    }
  }

  lemma DecodeOperandsEncodeMoveObjectFrom16ToReturn(i: Instruction)
    requires WellFormed(i) && (i.MoveObjectFrom16? || i.MoveObject16? || i.MoveResult? || i.MoveResultWide? || i.MoveResultObject? || i.MoveException? || i.ReturnVoid? || i.Return?)
    ensures |Encode(i)| > 0 && InstructionSizeBytes(Encode(i)[0]) == Ok(|Encode(i)|)
    ensures DecodeOperands(Encode(i)) == i
  {
    if i.MoveObjectFrom16? {
      DecodeEncodeMoveObjectFrom16Case(i);
    } else if i.MoveObject16? {
      DecodeEncodeMoveObject16Case(i);
    } else if i.MoveResult? {
      DecodeEncodeMoveResultCase(i);
    } else if i.MoveResultWide? {
      DecodeEncodeMoveResultWideCase(i);
    } else if i.MoveResultObject? {
      DecodeEncodeMoveResultObjectCase(i);
    } else if i.MoveException? {
      DecodeEncodeMoveExceptionCase(i);
    } else if i.ReturnVoid? {
      DecodeEncodeReturnVoidCase(i);
    } else {
      DecodeEncodeReturnCase(i);
    }
  }

  lemma DecodeOperandsEncodeReturnWideToConstWide32(i: Instruction)
    requires WellFormed(i) && (i.ReturnWide? || i.ReturnObject? || i.Const4? || i.Const16? || i.Const? || i.ConstHigh16? || i.ConstWide16? || i.ConstWide32?)
    ensures |Encode(i)| > 0 && InstructionSizeBytes(Encode(i)[0]) == Ok(|Encode(i)|)
    ensures DecodeOperands(Encode(i)) == i
  {
    if i.ReturnWide? {
      DecodeEncodeReturnWideCase(i);
    } else if i.ReturnObject? {
      DecodeEncodeReturnObjectCase(i);
    } else if i.Const4? {
      DecodeEncodeConst4Case(i);
    } else if i.Const16? {
      DecodeEncodeConst16Case(i);
    } else if i.Const? {
      DecodeEncodeConstCase(i);
    } else if i.ConstHigh16? {
      DecodeEncodeConstHigh16Case(i);
    } else if i.ConstWide16? {
      DecodeEncodeConstWide16Case(i);
    } else {
      DecodeEncodeConstWide32Case(i);
    }
  }

  lemma DecodeOperandsEncodeConstWideToCheckCast(i: Instruction)
    requires WellFormed(i) && (i.ConstWide? || i.ConstWideHigh16? || i.ConstString? || i.ConstStringJumbo? || i.ConstClass? || i.MonitorEnter? || i.MonitorExit? || i.CheckCast?)
    ensures |Encode(i)| > 0 && InstructionSizeBytes(Encode(i)[0]) == Ok(|Encode(i)|)
    ensures DecodeOperands(Encode(i)) == i
  {
    if i.ConstWide? {
      DecodeEncodeConstWideCase(i);
    } else if i.ConstWideHigh16? {
      DecodeEncodeConstWideHigh16Case(i);
    } else if i.ConstString? {
      DecodeEncodeConstStringCase(i);
    } else if i.ConstStringJumbo? {
      DecodeEncodeConstStringJumboCase(i);
    } else if i.ConstClass? {
      DecodeEncodeConstClassCase(i);
    } else if i.MonitorEnter? {
      DecodeEncodeMonitorEnterCase(i);
    } else if i.MonitorExit? {
      DecodeEncodeMonitorExitCase(i);
    } else {
      DecodeEncodeCheckCastCase(i);
    }
  }

  lemma DecodeOperandsEncodeInstanceOfToThrow(i: Instruction)
    requires WellFormed(i) && (i.InstanceOf? || i.ArrayLength? || i.NewInstance? || i.NewArray? || i.FilledNewArray? || i.FilledNewArrayRange? || i.FillArrayData? || i.Throw?)
    ensures |Encode(i)| > 0 && InstructionSizeBytes(Encode(i)[0]) == Ok(|Encode(i)|)
    ensures DecodeOperands(Encode(i)) == i
  {
    if i.InstanceOf? {
      DecodeEncodeInstanceOfCase(i);
    } else if i.ArrayLength? {
      DecodeEncodeArrayLengthCase(i);
    } else if i.NewInstance? {
      DecodeEncodeNewInstanceCase(i);
    } else if i.NewArray? {
      DecodeEncodeNewArrayCase(i);
    } else if i.FilledNewArray? {
      DecodeEncodeFilledNewArrayCase(i);
    } else if i.FilledNewArrayRange? {
      DecodeEncodeFilledNewArrayRangeCase(i);
    } else if i.FillArrayData? {
      DecodeEncodeFillArrayDataCase(i);
    } else {
      DecodeEncodeThrowCase(i);
    }
  }

  lemma DecodeOperandsEncodeGotoToIfTestZ(i: Instruction)
    requires WellFormed(i) && (i.Goto? || i.Goto16? || i.Goto32? || i.PackedSwitch? || i.SparseSwitch? || i.Cmp? || i.IfTest? || i.IfTestZ?)
    ensures |Encode(i)| > 0 && InstructionSizeBytes(Encode(i)[0]) == Ok(|Encode(i)|)
    ensures DecodeOperands(Encode(i)) == i
  {
    if i.Goto? {
      DecodeEncodeGotoCase(i);
    } else if i.Goto16? {
      DecodeEncodeGoto16Case(i);
    } else if i.Goto32? {
      DecodeEncodeGoto32Case(i);
    } else if i.PackedSwitch? {
      DecodeEncodePackedSwitchCase(i);
    } else if i.SparseSwitch? {
      DecodeEncodeSparseSwitchCase(i);
    } else if i.Cmp? {
      DecodeEncodeCmpCase(i);
    } else if i.IfTest? {
      DecodeEncodeIfTestCase(i);
    } else {
      DecodeEncodeIfTestZCase(i);
    }
  }

  lemma DecodeOperandsEncodeAgetToInvokeRange(i: Instruction)
    requires WellFormed(i) && (i.Aget? || i.Aput? || i.Iget? || i.Iput? || i.Sget? || i.Sput? || i.Invoke? || i.InvokeRange?)
    ensures |Encode(i)| > 0 && InstructionSizeBytes(Encode(i)[0]) == Ok(|Encode(i)|)
    ensures DecodeOperands(Encode(i)) == i
  {
    if i.Aget? {
      DecodeEncodeAgetCase(i);
    } else if i.Aput? {
      DecodeEncodeAputCase(i);
    } else if i.Iget? {
      DecodeEncodeIgetCase(i);
    } else if i.Iput? {
      DecodeEncodeIputCase(i);
    } else if i.Sget? {
      DecodeEncodeSgetCase(i);
    } else if i.Sput? {
      DecodeEncodeSputCase(i);
    } else if i.Invoke? {
      DecodeEncodeInvokeCase(i);
    } else {
      DecodeEncodeInvokeRangeCase(i);
    }
  }

  lemma DecodeOperandsEncodeUnopToInvokeCustom(i: Instruction)
    requires WellFormed(i) && (i.Unop? || i.Binop? || i.Binop2Addr? || i.BinopLit16? || i.BinopLit8? || i.InvokePolymorphic? || i.InvokePolymorphicRange? || i.InvokeCustom?)
    ensures |Encode(i)| > 0 && InstructionSizeBytes(Encode(i)[0]) == Ok(|Encode(i)|)
    ensures DecodeOperands(Encode(i)) == i
  {
    if i.Unop? {
      DecodeEncodeUnopCase(i);
    } else if i.Binop? {
      DecodeEncodeBinopCase(i);
    } else if i.Binop2Addr? {
      DecodeEncodeBinop2AddrCase(i);
    } else if i.BinopLit16? {
      DecodeEncodeBinopLit16Case(i);
    } else if i.BinopLit8? {
      DecodeEncodeBinopLit8Case(i);
    } else if i.InvokePolymorphic? {
      DecodeEncodeInvokePolymorphicCase(i);
    } else if i.InvokePolymorphicRange? {
      DecodeEncodeInvokePolymorphicRangeCase(i);
    } else {
      DecodeEncodeInvokeCustomCase(i);
    }
  }

  lemma DecodeOperandsEncodeInvokeCustomRangeToConstMethodType(i: Instruction)
    requires WellFormed(i) && (i.InvokeCustomRange? || i.ConstMethodHandle? || i.ConstMethodType?)
    ensures |Encode(i)| > 0 && InstructionSizeBytes(Encode(i)[0]) == Ok(|Encode(i)|)
    ensures DecodeOperands(Encode(i)) == i
  {
    if i.InvokeCustomRange? {
      DecodeEncodeInvokeCustomRangeCase(i);
    } else if i.ConstMethodHandle? {
      DecodeEncodeConstMethodHandleCase(i);
    } else {
      DecodeEncodeConstMethodTypeCase(i);
    }
  }

  /** Every well-formed instruction survives encoding and `try_decode`,
      whatever bytes follow it in the buffer. */
  lemma DecodeEncode(i: Instruction, rest: Bytes)
    requires WellFormed(i)
    ensures TryDecode(Encode(i) + rest) == Ok(i)
  {
    DecodeOperandsEncode(i);
    var e := Encode(i);
    assert (e + rest)[..|e|] == e;
  }

  /** The encoding of a well-formed instruction has `size_bytes` bytes and
      starts with its opcode, and the opcode table of `size.rs` gives that
      opcode the same size as `size_bytes` of the instruction. */
  lemma EncodeShape(i: Instruction)
    requires WellFormed(i)
    ensures |Encode(i)| == SizeBytes(i) && Encode(i)[0] == OpcodeByte(i)
    ensures InstructionSizeBytes(OpcodeByte(i)) == Ok(SizeBytes(i))
  {
    DecodeOperandsEncode(i);
    DecodeOperandsShape(Encode(i));
  }
}
