/** Decodings of concrete byte strings taken from the unit tests of
    src/dex/instruction/tests.rs, the error cases of `try_decode`, and the
    35c argument order that src/dex/instruction/decode.rs writes. */
module DecodeExamples {
  import opened Utils
  import opened RustTypes
  import opened Errors
  import opened Instructions
  import opened InstructionDecode
  import opened InstructionEncode

  lemma NopVector()
    ensures TryDecode([0x00, 0x00]) == Ok(Nop)
  {
    var b: Bytes := [0x00, 0x00];
    assert b[..2] == b;
  }

  /** `test_move`: the low nibble of byte 1 is `dst`, the high nibble `src`. */
  lemma MoveVector()
    ensures TryDecode([0x01, 0x10]) == Ok(Move(0, 1))
  {
    var b: Bytes := [0x01, 0x10];
    assert b[..2] == b;
  }

  /** `test_goto`: the 8-bit offset is signed. */
  lemma GotoVector()
    ensures TryDecode([0x28, 0xF0]) == Ok(Goto(-16))
  {
    var b: Bytes := [0x28, 0xF0];
    assert b[..2] == b;
  }

  /** `test_goto16`: the 16-bit offset is read little-endian and signed. */
  lemma Goto16Vector()
    ensures TryDecode([0x29, 0x00, 0x0F, 0xFE]) == Ok(Goto16(-497))
  {
    var b: Bytes := [0x29, 0x00, 0x0F, 0xFE];
    assert b[..4] == b;
  }

  /** `test_if_eq`. */
  lemma IfEqVector()
    ensures TryDecode([0x32, 0xB3, 0x66, 0x00]) == Ok(IfTest(IfEq, 3, 11, 102))
  {
    var b: Bytes := [0x32, 0xB3, 0x66, 0x00];
    assert b[..4] == b;
  }

  /** `test_add_int_lit8`. */
  lemma AddIntLit8Vector()
    ensures TryDecode([0xD8, 0x00, 0x02, 0x01]) == Ok(BinopLit8(AddIntLit8, 0, 2, 1))
  {
    var b: Bytes := [0xD8, 0x00, 0x02, 0x01];
    assert b[..4] == b;
  }

  /** `test_invoke_virtual`: C and D come from byte 4 and E and F from byte 5. */
  lemma InvokeVirtualVector()
    ensures TryDecode([0x6E, 0x54, 0x06, 0x00, 0x32, 0x10]) == Ok(Invoke(Virtual, 6, [2, 3, 0, 1, 4], 5))
  {
    var b: Bytes := [0x6E, 0x54, 0x06, 0x00, 0x32, 0x10];
    assert b[..6] == b;
  }

  /** `test_invoke_custom`. */
  lemma InvokeCustomVector()
    ensures TryDecode([0xFC, 0x45, 0x21, 0x02, 0x32, 0x10]) == Ok(InvokeCustom(0x221, [2, 3, 0, 1, 5], 4))
  {
    var b: Bytes := [0xFC, 0x45, 0x21, 0x02, 0x32, 0x10];
    assert b[..6] == b;
  }

  /** Bytes after the instruction are not read. */
  lemma TrailingBytesVector()
    ensures TryDecode([0x01, 0x10, 0xFF, 0xFF]) == Ok(Move(0, 1))
  {
    var b: Bytes := [0x01, 0x10, 0xFF, 0xFF];
    assert b[..2] == [0x01, 0x10];
  }

  /** The three errors of `try_decode`. */
  lemma ErrorVectors()
    ensures TryDecode([]) == Err(EmptyBuffer)
    ensures TryDecode([0x3E, 0x00]) == Err(UnknownOpcode(0x3E))
    ensures TryDecode([0x14, 0x00, 0x4E, 0x61]) == Err(Size(0x14, 6, 4))
  {
  }

  /** As written, decode.rs fills the first four argument slots from byte 5
      before byte 4, so on the bytes of `test_invoke_virtual` it yields
      registers 0, 1, 2, 3 where the test expects 2, 3, 0, 1. */
  lemma Args35cAsWrittenMisreadsVector()
    ensures Args35cAsWritten(0x54, 0x32, 0x10) == [0, 1, 2, 3, 4]
    ensures Args35c(0x54, 0x32, 0x10) == [2, 3, 0, 1, 4]
  {
  }

  /** As written, the 35c argument order does not survive an encoding in
      format 35c (`A|G|op BBBB F|E|D|C`): the registers 2, 3, 0, 1, 4 come
      back as 0, 1, 2, 3, 4. */
  lemma Args35cAsWrittenBreaksRoundTrip()
    ensures var args: RegArgs := [2, 3, 0, 1, 4];
      Args35cAsWritten(Pack(args[4], 5), ArgBytes(args).0, ArgBytes(args).1) != args
  {
    var args: RegArgs := [2, 3, 0, 1, 4];
    assert Args35cAsWritten(Pack(args[4], 5), ArgBytes(args).0, ArgBytes(args).1)[0] == 0;
  }
}
