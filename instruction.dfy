/** The decoded Dalvik instruction (src/dex/instruction/mod.rs).

    The Rust `Instruction` enum has one variant per opcode. Here the variants
    that src/dex/instruction/decode.rs builds from one shared arm over an
    opcode range (the comparisons, the if-tests, the array, instance and
    static field accesses, the invokes, the unary and binary operations) are
    one constructor each, whose first field is a kind: the offset of the
    opcode in its range, with a named constant per Rust variant, so that
    `Binop(AddInt, dst, srcA, srcB)` stands for
    `Instruction::AddInt { dst, src_a, src_b }`, `Aget(Wide, src, arr, index)`
    for `Instruction::AgetWide { .. }` and `Invoke(Static, ..)` for
    `Instruction::InvokeStatic { .. }`. Every other variant is its own
    constructor, with the enum's fields in declaration order. Rust's derived
    `PartialEq` is Dafny's structural equality on datatypes.

    Field names follow the enum in lower camel case, with these changes:
    `array` and `object` (Dafny keywords) are `arr` and `obj`; where one
    field name has different widths in different variants, the width is part
    of the name: `dst16`/`src16` for the `u16` registers of the `*16` and
    `*From16` moves, `lit8`/`lit16`/`lit32`/`lit64` for the literals,
    `offset8`/`offset16`/`offset32` for the branch offsets and
    `stringIdx32` for const-string/jumbo. The if-z variants keep the register
    name `value` of the enum. */
module Instructions {
  import opened Utils

  /** The five argument-register slots of the 35c-style variants (`[u8; 5]`). */
  type RegArgs = s: seq<U8> | |s| == 5 witness [0, 0, 0, 0, 0]

  /** Each of the five slots holds a 4-bit register number. */
  predicate RegsFit(args: RegArgs)
  {
    args[0] < 16 && args[1] < 16 && args[2] < 16 && args[3] < 16 && args[4] < 16
  }

  /** The comparisons, opcodes 0x2D-0x31. A kind is the offset of its opcode
      from the first opcode of its range. */
  type CmpKind = k: nat | k < 5
  const CmplFloat: CmpKind := 0
  const CmpgFloat: CmpKind := 1
  const CmplDouble: CmpKind := 2
  const CmpgDouble: CmpKind := 3
  const CmpLong: CmpKind := 4

  /** The two-register if-tests, opcodes 0x32-0x37. A kind is the offset of
      its opcode from the first opcode of its range. */
  type IfTestKind = k: nat | k < 6
  const IfEq: IfTestKind := 0
  const IfNe: IfTestKind := 1
  const IfLt: IfTestKind := 2
  const IfGe: IfTestKind := 3
  const IfGt: IfTestKind := 4
  const IfLe: IfTestKind := 5

  /** The if-tests against zero, opcodes 0x38-0x3D. A kind is the offset of
      its opcode from the first opcode of its range. */
  type IfTestZKind = k: nat | k < 6
  const IfEqz: IfTestZKind := 0
  const IfNez: IfTestZKind := 1
  const IfLtz: IfTestZKind := 2
  const IfGez: IfTestZKind := 3
  const IfGtz: IfTestZKind := 4
  const IfLez: IfTestZKind := 5

  /** The value kinds of aget/aput (from 0x44 and 0x4B), iget/iput (from 0x52
      and 0x59) and sget/sput (from 0x60 and 0x67); `Plain` is the variant without
      a suffix. A kind is the offset of its opcode from the first opcode of its
      range. */
  type ValueKind = k: nat | k < 7
  const Plain: ValueKind := 0
  const Wide: ValueKind := 1
  const Object: ValueKind := 2
  const Boolean: ValueKind := 3
  const Byte: ValueKind := 4
  const Char: ValueKind := 5
  const Short: ValueKind := 6

  /** The invoke kinds, opcodes 0x6E-0x72 and, for the range forms, 0x74-0x78.
      A kind is the offset of its opcode from the first opcode of its range. */
  type InvokeKind = k: nat | k < 5
  const Virtual: InvokeKind := 0
  const Super: InvokeKind := 1
  const Direct: InvokeKind := 2
  const Static: InvokeKind := 3
  const Interface: InvokeKind := 4

  /** The unary operations and conversions, opcodes 0x7B-0x8F. A kind is the
      offset of its opcode from the first opcode of its range. */
  type UnopKind = k: nat | k < 21
  const NegInt: UnopKind := 0
  const NotInt: UnopKind := 1
  const NegLong: UnopKind := 2
  const NotLong: UnopKind := 3
  const NegFloat: UnopKind := 4
  const NegDouble: UnopKind := 5
  const IntToLong: UnopKind := 6
  const IntToFloat: UnopKind := 7
  const IntToDouble: UnopKind := 8
  const LongToInt: UnopKind := 9
  const LongToFloat: UnopKind := 10
  const LongToDouble: UnopKind := 11
  const FloatToInt: UnopKind := 12
  const FloatToLong: UnopKind := 13
  const FloatToDouble: UnopKind := 14
  const DoubleToInt: UnopKind := 15
  const DoubleToLong: UnopKind := 16
  const DoubleToFloat: UnopKind := 17
  const IntToByte: UnopKind := 18
  const IntToChar: UnopKind := 19
  const IntToShort: UnopKind := 20

  /** The binary operations, opcodes 0x90-0xAF and, in their two-address form
      (Rust suffix `2Addr`), 0xB0-0xCF. A kind is the offset of its opcode from
      the first opcode of its range. */
  type BinopKind = k: nat | k < 32
  const AddInt: BinopKind := 0
  const SubInt: BinopKind := 1
  const MulInt: BinopKind := 2
  const DivInt: BinopKind := 3
  const RemInt: BinopKind := 4
  const AndInt: BinopKind := 5
  const OrInt: BinopKind := 6
  const XorInt: BinopKind := 7
  const ShlInt: BinopKind := 8
  const ShrInt: BinopKind := 9
  const UshrInt: BinopKind := 10
  const AddLong: BinopKind := 11
  const SubLong: BinopKind := 12
  const MulLong: BinopKind := 13
  const DivLong: BinopKind := 14
  const RemLong: BinopKind := 15
  const AndLong: BinopKind := 16
  const OrLong: BinopKind := 17
  const XorLong: BinopKind := 18
  const ShlLong: BinopKind := 19
  const ShrLong: BinopKind := 20
  const UshrLong: BinopKind := 21
  const AddFloat: BinopKind := 22
  const SubFloat: BinopKind := 23
  const MulFloat: BinopKind := 24
  const DivFloat: BinopKind := 25
  const RemFloat: BinopKind := 26
  const AddDouble: BinopKind := 27
  const SubDouble: BinopKind := 28
  const MulDouble: BinopKind := 29
  const DivDouble: BinopKind := 30
  const RemDouble: BinopKind := 31

  /** The operations with a 16-bit literal, opcodes 0xD0-0xD7. A kind is the
      offset of its opcode from the first opcode of its range. */
  type Lit16Kind = k: nat | k < 8
  const AddIntLit16: Lit16Kind := 0
  const RsubInt: Lit16Kind := 1
  const MulIntLit16: Lit16Kind := 2
  const DivIntLit16: Lit16Kind := 3
  const RemIntLit16: Lit16Kind := 4
  const AndIntLit16: Lit16Kind := 5
  const OrIntLit16: Lit16Kind := 6
  const XorIntLit16: Lit16Kind := 7

  /** The operations with an 8-bit literal, opcodes 0xD8-0xE2. A kind is the
      offset of its opcode from the first opcode of its range. */
  type Lit8Kind = k: nat | k < 11
  const AddIntLit8: Lit8Kind := 0
  const RsubIntLit8: Lit8Kind := 1
  const MulIntLit8: Lit8Kind := 2
  const DivIntLit8: Lit8Kind := 3
  const RemIntLit8: Lit8Kind := 4
  const AndIntLit8: Lit8Kind := 5
  const OrIntLit8: Lit8Kind := 6
  const XorIntLit8: Lit8Kind := 7
  const ShlIntLit8: Lit8Kind := 8
  const ShrIntLit8: Lit8Kind := 9
  const UshrIntLit8: Lit8Kind := 10

  datatype Instruction =
    | Nop
    | Move(dst: U8, src: U8)
    | MoveFrom16(dst: U8, src16: U16)
    | Move16(dst16: U16, src16: U16)
    | MoveWide(dst: U8, src: U8)
    | MoveWideFrom16(dst: U8, src16: U16)
    | MoveWide16(dst16: U16, src16: U16)
    | MoveObject(dst: U8, src: U8)
    | MoveObjectFrom16(dst: U8, src16: U16)
    | MoveObject16(dst16: U16, src16: U16)
    | MoveResult(dst: U8)
    | MoveResultWide(dst: U8)
    | MoveResultObject(dst: U8)
    | MoveException(dst: U8)
    | ReturnVoid
    | Return(value: U8)
    | ReturnWide(value: U8)
    | ReturnObject(value: U8)
    | Const4(dst: U8, lit8: I8)
    | Const16(dst: U8, lit16: I16)
    | Const(dst: U8, lit32: I32)
    | ConstHigh16(dst: U8, lit16: I16)
    | ConstWide16(dst: U8, lit16: I16)
    | ConstWide32(dst: U8, lit32: I32)
    | ConstWide(dst: U8, lit64: I64)
    | ConstWideHigh16(dst: U8, lit16: I16)
    | ConstString(dst: U8, stringIdx: U16)
    | ConstStringJumbo(dst: U8, stringIdx32: U32)
    | ConstClass(dst: U8, typeIdx: U16)
    | MonitorEnter(reference: U8)
    | MonitorExit(reference: U8)
    | CheckCast(reference: U8, typeIdx: U16)
    | InstanceOf(dst: U8, reference: U8, typeIdx: U16)
    | ArrayLength(dst: U8, arr: U8)
    | NewInstance(dst: U8, typeIdx: U16)
    | NewArray(dst: U8, size: U8, typeIdx: U16)
    | FilledNewArray(typeIdx: U16, args: RegArgs, argCnt: U8)
    | FilledNewArrayRange(typeIdx: U16, firstArg: U16, argCnt: U8)
    | FillArrayData(arr: U8, offset32: I32)
    | Throw(exception: U8)
    | Goto(offset8: I8)
    | Goto16(offset16: I16)
    | Goto32(offset32: I32)
    | PackedSwitch(value: U8, offset32: I32)
    | SparseSwitch(value: U8, offset32: I32)
    | Cmp(cmpKind: CmpKind, dst: U8, srcA: U8, srcB: U8)
    | IfTest(ifTestKind: IfTestKind, a: U8, b: U8, offset16: I16)
    | IfTestZ(ifTestZKind: IfTestZKind, value: U8, offset16: I16)
    | Aget(valueKind: ValueKind, src: U8, arr: U8, index: U8)
    | Aput(valueKind: ValueKind, dst: U8, arr: U8, index: U8)
    | Iget(valueKind: ValueKind, src: U8, obj: U8, fieldIdx: U16)
    | Iput(valueKind: ValueKind, dst: U8, obj: U8, fieldIdx: U16)
    | Sget(valueKind: ValueKind, src: U8, fieldIdx: U16)
    | Sput(valueKind: ValueKind, dst: U8, fieldIdx: U16)
    | Invoke(invokeKind: InvokeKind, methodIdx: U16, args: RegArgs, argCnt: U8)
    | InvokeRange(invokeKind: InvokeKind, methodIdx: U16, firstArg: U16, argCnt: U8)
    | Unop(unopKind: UnopKind, dst: U8, src: U8)
    | Binop(binopKind: BinopKind, dst: U8, srcA: U8, srcB: U8)
    | Binop2Addr(binopKind: BinopKind, dst: U8, src: U8)
    | BinopLit16(lit16Kind: Lit16Kind, dst: U8, src: U8, lit16: I16)
    | BinopLit8(lit8Kind: Lit8Kind, dst: U8, src: U8, lit8: I8)
    | InvokePolymorphic(methodIdx: U16, protoIdx: U16, args: RegArgs, argCnt: U8)
    | InvokePolymorphicRange(methodIdx: U16, protoIdx: U16, firstArg: U16, argCnt: U8)
    | InvokeCustom(callSiteIdx: U16, args: RegArgs, argCnt: U8)
    | InvokeCustomRange(callSiteIdx: U16, firstArg: U16, argCnt: U8)
    | ConstMethodHandle(dst: U8, methodHandleIdx: U16)
    | ConstMethodType(dst: U8, protoIdx: U16)

  /** The opcode byte each variant is decoded from: the arm of
      src/dex/instruction/decode.rs that builds it. */
  function OpcodeByte(i: Instruction): U8
  {
    match i
    case Nop => 0x00
    case Move(_, _) => 0x01
    case MoveFrom16(_, _) => 0x02
    case Move16(_, _) => 0x03
    case MoveWide(_, _) => 0x04
    case MoveWideFrom16(_, _) => 0x05
    case MoveWide16(_, _) => 0x06
    case MoveObject(_, _) => 0x07
    case MoveObjectFrom16(_, _) => 0x08
    case MoveObject16(_, _) => 0x09
    case MoveResult(_) => 0x0A
    case MoveResultWide(_) => 0x0B
    case MoveResultObject(_) => 0x0C
    case MoveException(_) => 0x0D
    case ReturnVoid => 0x0E
    case Return(_) => 0x0F
    case ReturnWide(_) => 0x10
    case ReturnObject(_) => 0x11
    case Const4(_, _) => 0x12
    case Const16(_, _) => 0x13
    case Const(_, _) => 0x14
    case ConstHigh16(_, _) => 0x15
    case ConstWide16(_, _) => 0x16
    case ConstWide32(_, _) => 0x17
    case ConstWide(_, _) => 0x18
    case ConstWideHigh16(_, _) => 0x19
    case ConstString(_, _) => 0x1A
    case ConstStringJumbo(_, _) => 0x1B
    case ConstClass(_, _) => 0x1C
    case MonitorEnter(_) => 0x1D
    case MonitorExit(_) => 0x1E
    case CheckCast(_, _) => 0x1F
    case InstanceOf(_, _, _) => 0x20
    case ArrayLength(_, _) => 0x21
    case NewInstance(_, _) => 0x22
    case NewArray(_, _, _) => 0x23
    case FilledNewArray(_, _, _) => 0x24
    case FilledNewArrayRange(_, _, _) => 0x25
    case FillArrayData(_, _) => 0x26
    case Throw(_) => 0x27
    case Goto(_) => 0x28
    case Goto16(_) => 0x29
    case Goto32(_) => 0x2A
    case PackedSwitch(_, _) => 0x2B
    case SparseSwitch(_, _) => 0x2C
    case Cmp(k, _, _, _) => 0x2D + k
    case IfTest(k, _, _, _) => 0x32 + k
    case IfTestZ(k, _, _) => 0x38 + k
    case Aget(k, _, _, _) => 0x44 + k
    case Aput(k, _, _, _) => 0x4B + k
    case Iget(k, _, _, _) => 0x52 + k
    case Iput(k, _, _, _) => 0x59 + k
    case Sget(k, _, _) => 0x60 + k
    case Sput(k, _, _) => 0x67 + k
    case Invoke(k, _, _, _) => 0x6E + k
    case InvokeRange(k, _, _, _) => 0x74 + k
    case Unop(k, _, _) => 0x7B + k
    case Binop(k, _, _, _) => 0x90 + k
    case Binop2Addr(k, _, _) => 0xB0 + k
    case BinopLit16(k, _, _, _) => 0xD0 + k
    case BinopLit8(k, _, _, _) => 0xD8 + k
    case InvokePolymorphic(_, _, _, _) => 0xFA
    case InvokePolymorphicRange(_, _, _, _) => 0xFB
    case InvokeCustom(_, _, _) => 0xFC
    case InvokeCustomRange(_, _, _) => 0xFD
    case ConstMethodHandle(_, _) => 0xFE
    case ConstMethodType(_, _) => 0xFF
  }

  /** The fields the decoder fills from one nibble are below 16: both
      registers of the 12x, 22c, 22t and 22s forms, the register and literal
      of const/4, and the argument count and registers of the 35c forms. */
  predicate WellFormed(i: Instruction)
  {
    (i.Move? || i.MoveWide? || i.MoveObject? || i.Unop? || i.Binop2Addr?
     ==> i.dst < 16 && i.src < 16)
    && (i.ArrayLength? ==> i.dst < 16 && i.arr < 16)
    && (i.InstanceOf? ==> i.dst < 16 && i.reference < 16)
    && (i.NewArray? ==> i.dst < 16 && i.size < 16)
    && (i.Iget? ==> i.src < 16 && i.obj < 16)
    && (i.Iput? ==> i.dst < 16 && i.obj < 16)
    && (i.IfTest? ==> i.a < 16 && i.b < 16)
    && (i.BinopLit16? ==> i.dst < 16 && i.src < 16)
    && (i.Const4? ==> i.dst < 16 && 0 <= i.lit8 < 16)
    && (i.FilledNewArray? || i.Invoke? || i.InvokePolymorphic? || i.InvokeCustom?
        ==> i.argCnt < 16 && RegsFit(i.args))
  }
}
