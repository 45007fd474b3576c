/** The older four-opcode decoder of src/dex/instruction.rs, `decode`,
    which returns the instruction with its length in bytes or an I/O error. */
module LegacyInstruction {
  import opened Utils
  import opened RustTypes
  import opened Errors
  import Instructions
  import InstructionSize
  import InstructionDecode
  import Fmt

  datatype Instruction =
    | Nop
    | Move(dst: U8, src: U8)
    | MoveResult(dst: U8)
    | ConstString(dst: U8, stringIdx: U16)

  /** `decode`: at least two bytes are needed, const-string needs four, and
      every opcode other than 0x00, 0x01, 0x0A and 0x1A is invalid data,
      reported with the opcode in `{:#x}` form. */
  function Decode(buffer: Bytes): (r: Result<(Instruction, nat), IoError>)
    ensures |buffer| < 2 ==> r.Err? && r.error.kind == UnexpectedEof
    ensures r.Ok? <==> |buffer| >= 2 && (buffer[0] in {0x00, 0x01, 0x0A} || (buffer[0] == 0x1A && |buffer| >= 4))
    ensures r.Err? && |buffer| >= 2 ==> (r.error.kind == UnexpectedEof <==> buffer[0] == 0x1A)
    ensures r.Ok? ==> r.value.1 in {2, 4} && r.value.1 <= |buffer|
    ensures |buffer| >= 2 && buffer[0] !in {0x00, 0x01, 0x0A, 0x1A} ==>
      r == Err(IoError(InvalidData, "Unknown opcode: " + Fmt.HexByte(buffer[0] as nat)))
  {
    if |buffer| < 2 then
      Err(IoError(UnexpectedEof, "Buffer too small for instruction"))
    else
      var opcode := buffer[0];
      if opcode == 0x00 then Ok((Nop, 2))
      else if opcode == 0x01 then
        var (dst, src) := ToNibbles(buffer[1]);
        Ok((Move(dst, src), 2))
      else if opcode == 0x0A then Ok((MoveResult(buffer[1]), 2))
      else if opcode == 0x1A then
        if |buffer| < 4 then
          Err(IoError(UnexpectedEof, "Buffer too small for `const-string` instruction"))
        else
          Ok((ConstString(buffer[1], ReadU16Le(buffer, 2)), 4))
      else
        Err(IoError(InvalidData, "Unknown opcode: " + Fmt.HexByte(opcode as nat)))
  }

  /** An unused opcode such as 0x3E is reported as `Unknown opcode: 0x3e`,
      and 0x05 without a leading zero digit as `Unknown opcode: 0x5`. */
  lemma UnknownOpcodeMessage()
    ensures Decode([0x3E, 0x00]) == Err(IoError(InvalidData, "Unknown opcode: 0x3e"))
    ensures Decode([0x05, 0x00]) == Err(IoError(InvalidData, "Unknown opcode: 0x5"))
  {
    var a: Bytes := [0x3E, 0x00];
    assert a[0] == 0x3E;
    assert Fmt.HexDigit(3) == '3' && Fmt.HexDigit(14) == 'e';
    assert Fmt.HexByte(0x3E) == "0x3e";
    assert Decode(a) == Err(IoError(InvalidData, "Unknown opcode: " + Fmt.HexByte(0x3E)));
    assert "Unknown opcode: " + "0x3e" == "Unknown opcode: 0x3e";
    var b: Bytes := [0x05, 0x00];
    assert b[0] == 0x05;
    assert Fmt.HexDigit(5) == '5';
    assert Fmt.HexByte(0x05) == "0x5";
    assert Decode(b) == Err(IoError(InvalidData, "Unknown opcode: " + Fmt.HexByte(0x05)));
    assert "Unknown opcode: " + "0x5" == "Unknown opcode: 0x5";
  }

  /** The variant of the full decoder that each legacy variant stands for. */
  function Full(i: Instruction): Instructions.Instruction
  {
    match i
    case Nop => Instructions.Nop
    case Move(dst, src) => Instructions.Move(dst, src)
    case MoveResult(dst) => Instructions.MoveResult(dst)
    case ConstString(dst, idx) => Instructions.ConstString(dst, idx)
  }

  /** Where the legacy decoder succeeds, `try_decode` of
      src/dex/instruction/decode.rs decodes the same instruction, and the
      legacy length is that instruction's size. */
  lemma DecodeAgreesWithTryDecode(buffer: Bytes)
    requires Decode(buffer).Ok?
    ensures InstructionDecode.TryDecode(buffer) == Ok(Full(Decode(buffer).value.0))
    ensures InstructionSize.SizeBytes(Full(Decode(buffer).value.0)) == Decode(buffer).value.1
  {
    if buffer[0] == 0x1A {
      assert buffer[..4][2..4] == buffer[2..4];
    }
  }
}
