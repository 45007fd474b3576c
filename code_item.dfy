/** `CodeItem::try_parse_from_bytes_unsized` (src/dex/code_item.rs): the
    16-byte `code_item` header of the Dalvik Executable format, then the
    instructions decoded back to back from byte 16 until `insns_size` 16-bit
    code units are covered or an instruction fails to decode. */
module CodeItem {
  import opened Utils
  import opened RustTypes
  import opened Errors
  import opened Instructions
  import opened InstructionSize
  import opened InstructionDecode

  datatype CodeItem = CodeItem(
    registersSize: U16,
    insSize: U16,
    outsSize: U16,
    triesSize: U16,
    debugInfoOff: U32,
    insnsSize: U32,
    insns: seq<Instruction>)

  /** The decoder the loop calls; the lemmas below hold for any decoder. */
  type Decoder = Bytes -> Result<Instruction, InstructionError>

  /** The size the loop advances by after each instruction (`SizeBytes` in
      the parse); the lemmas below hold for any positive size. */
  type Sizer = f: Instruction -> nat | forall i :: f(i) > 0 witness (_: Instruction) => 2

  /** The total size in bytes of a sequence of instructions. */
  function SumSizes(size: Sizer, s: seq<Instruction>): nat
  {
    if s == [] then 0 else SumSizes(size, s[..|s| - 1]) + size(s[|s| - 1])
  }

  /** The instructions the loop decodes with `decode` once `total` bytes of
      the instruction area are behind it: none when `total` has reached
      `insnsBytes` or the next decode fails, and otherwise the next
      instruction followed by those after it. The loop terminates because
      every instruction has a positive size. */
  function DecodeFrom(decode: Decoder, size: Sizer, buffer: Bytes, insnsBytes: nat, total: nat): seq<Instruction>
    requires 16 + insnsBytes <= |buffer|
    decreases insnsBytes - total
  {
    if total >= insnsBytes then []
    else
      match decode(buffer[16 + total..])
      case Err(_) => []
      case Ok(insn) => [insn] + DecodeFrom(decode, size, buffer, insnsBytes, total + size(insn))
  }

  /** The whole parse as a function of the buffer. */
  function ParseCodeItem(buffer: Bytes): Result<CodeItem, IoError>
  {
    if |buffer| < 16 then Err(IoError(UnexpectedEof, "Buffer too small for CodeItem header"))
    else
      var insnsSize := ReadU32Le(buffer, 12);
      if |buffer| < 16 + insnsSize * 2 then
        Err(IoError(UnexpectedEof, "Buffer too small for CodeItem instructions"))
      else
        Ok(CodeItem(ReadU16Le(buffer, 0), ReadU16Le(buffer, 2), ReadU16Le(buffer, 4),
                    ReadU16Le(buffer, 6), ReadU32Le(buffer, 8), insnsSize,
                    DecodeFrom(TryDecode, SizeBytes, buffer, insnsSize * 2, 0)))
  }

  /** `try_parse_from_bytes_unsized`: the header checks, the header reads and
      the decoding loop, with the two end-of-file errors. */
  method TryParseFromBytesUnsized(buffer: Bytes) returns (r: Result<CodeItem, IoError>)
    ensures |buffer| < 16 ==> r.Err? && r.error.kind == UnexpectedEof
    ensures |buffer| >= 16 && |buffer| < 16 + 2 * ReadU32Le(buffer, 12) ==> r.Err? && r.error.kind == UnexpectedEof
    ensures r == ParseCodeItem(buffer)
  {
    if |buffer| < 16 {
      return Err(IoError(UnexpectedEof, "Buffer too small for CodeItem header"));
    }
    var registersSize := ReadU16Le(buffer, 0);
    var insSize := ReadU16Le(buffer, 2);
    var outsSize := ReadU16Le(buffer, 4);
    var triesSize := ReadU16Le(buffer, 6);
    var debugInfoOff := ReadU32Le(buffer, 8);
    var insnsSize := ReadU32Le(buffer, 12);
    var insnsBytes: nat := insnsSize as nat * 2;
    if |buffer| < 16 + insnsBytes {
      return Err(IoError(UnexpectedEof, "Buffer too small for CodeItem instructions"));
    }
    var insns := DecodeInstructions(TryDecode, SizeBytes, buffer, insnsBytes);
    return Ok(CodeItem(registersSize, insSize, outsSize, triesSize, debugInfoOff, insnsSize, insns));
  }

  /** The decoding loop of `try_parse_from_bytes_unsized`, over any decoder
      and size:
      decode at byte 16 + total, stop at the first error, otherwise append the
      instruction and advance `total` by its size, until `total` reaches
      `insnsBytes`. */
  method DecodeInstructions(decode: Decoder, size: Sizer, buffer: Bytes, insnsBytes: nat) returns (insns: seq<Instruction>)
    requires 16 + insnsBytes <= |buffer|
    ensures insns == DecodeFrom(decode, size, buffer, insnsBytes, 0)
  {
    insns := [];
    var totalSize := 0;
    while totalSize < insnsBytes
      invariant insns + DecodeFrom(decode, size, buffer, insnsBytes, totalSize) == DecodeFrom(decode, size, buffer, insnsBytes, 0)
      decreases insnsBytes - totalSize
    {
      var offset := 16 + totalSize;
      var decoded := decode(buffer[offset..]);
      if decoded.Err? {
        assert DecodeFrom(decode, size, buffer, insnsBytes, totalSize) == [];
        break;
      }
      var insn := decoded.value;
      DecodeFromStep(decode, size, buffer, insnsBytes, totalSize);
      totalSize := totalSize + size(insn);
      insns := insns + [insn];
    }
    assert DecodeFrom(decode, size, buffer, insnsBytes, totalSize) == [];
  }

  /** One step of the loop: a successful decode before the end of the
      instruction area contributes its instruction and moves on by its size. */
  lemma DecodeFromStep(decode: Decoder, size: Sizer, buffer: Bytes, insnsBytes: nat, total: nat)
    requires 16 + insnsBytes <= |buffer| && total < insnsBytes
    requires decode(buffer[16 + total..]).Ok?
    ensures var insn := decode(buffer[16 + total..]).value;
      DecodeFrom(decode, size, buffer, insnsBytes, total) == [insn] + DecodeFrom(decode, size, buffer, insnsBytes, total + size(insn))
  {
  }

  /** Instruction k of the loop is the one decoded at byte 16 + total plus the
      sizes of the instructions before it, and that start lies inside the
      instruction area. */
  lemma {:induction false} DecodeFromOffset(decode: Decoder, size: Sizer, buffer: Bytes, insnsBytes: nat, total: nat, k: nat)
    requires 16 + insnsBytes <= |buffer|
    requires k < |DecodeFrom(decode, size, buffer, insnsBytes, total)|
    ensures var s := DecodeFrom(decode, size, buffer, insnsBytes, total);
      total + SumSizes(size, s[..k]) < insnsBytes
      && decode(buffer[16 + total + SumSizes(size, s[..k])..]) == Ok(s[k])
    decreases k
  {
    var s := DecodeFrom(decode, size, buffer, insnsBytes, total);
    var insn := s[0];
    var next := total + size(insn);
    var t := DecodeFrom(decode, size, buffer, insnsBytes, next);
    assert s == [insn] + t;
    if k == 0 {
      assert s[..k] == [];
      assert decode(buffer[16 + total..]) == Ok(insn);
    } else {
      DecodeFromOffset(decode, size, buffer, insnsBytes, next, k - 1);
      var before := next + SumSizes(size, t[..k - 1]);
      assert decode(buffer[16 + before..]) == Ok(t[k - 1]);
      SumSizesCons(size, insn, t[..k - 1]);
      assert s[..k] == [insn] + t[..k - 1];
      assert total + SumSizes(size, s[..k]) == before;
      assert s[k] == t[k - 1];
    }
  }

  /** The size of a sequence that starts with `x` is `x`'s size plus the rest. */
  lemma {:induction false} SumSizesCons(size: Sizer, x: Instruction, s: seq<Instruction>)
    ensures SumSizes(size, [x] + s) == size(x) + SumSizes(size, s)
    decreases |s|
  {
    if s != [] {
      var init := s[..|s| - 1];
      SumSizesCons(size, x, init);
      assert ([x] + s)[..|[x] + s| - 1] == [x] + init;
    } else {
      assert ([x] + s)[..0] == [];
    }
  }

  /** The loop stops either because it has covered `insnsBytes` bytes or
      because the instruction after the last one decoded fails to decode;
      a failure ends the list but the parse still succeeds. */
  lemma {:induction false} DecodeFromEnd(decode: Decoder, size: Sizer, buffer: Bytes, insnsBytes: nat, total: nat)
    requires 16 + insnsBytes <= |buffer|
    ensures var s := DecodeFrom(decode, size, buffer, insnsBytes, total);
      var end := total + SumSizes(size, s);
      end >= insnsBytes || decode(buffer[16 + end..]).Err?
    decreases insnsBytes - total
  {
    var s := DecodeFrom(decode, size, buffer, insnsBytes, total);
    if s != [] {
      var insn := s[0];
      var next := total + size(insn);
      DecodeFromEnd(decode, size, buffer, insnsBytes, next);
      var t := DecodeFrom(decode, size, buffer, insnsBytes, next);
      assert s == [insn] + t;
      SumSizesCons(size, insn, t);
    } else {
      assert SumSizes(size, s) == 0;
    }
  }

  /** The last instruction may run past the instruction area: with
      `insns_size` 1 (two bytes), a 4-byte const/16 in the buffer is still
      decoded and the loop ends with 4 bytes covered. */
  lemma LastInstructionMayOverrun()
    ensures var buffer: Bytes := [0, 0, 0, 0, 0, 0, 0, 0, 0, 0, 0, 0, 1, 0, 0, 0, 0x13, 0x00, 0x0A, 0x00];
      DecodeFrom(TryDecode, SizeBytes, buffer, 2, 0) == [Const16(0, 10)] && SumSizes(SizeBytes, [Const16(0, 10)]) == 4
  {
    var buffer: Bytes := [0, 0, 0, 0, 0, 0, 0, 0, 0, 0, 0, 0, 1, 0, 0, 0, 0x13, 0x00, 0x0A, 0x00];
    var tail := buffer[16..];
    assert tail == [0x13, 0x00, 0x0A, 0x00];
    assert tail[..4] == tail;
    assert TryDecode(tail) == Ok(Const16(0, 10));
    assert SumSizes(SizeBytes, [Const16(0, 10)]) == 4 by {
      assert [Const16(0, 10)][..0] == [];
    }
  }

  /** A walk of two instructions: `a` decodes at byte 16, `b` right after
      it, and together they cover the instruction area. */
  lemma TwoStepWalk(decode: Decoder, size: Sizer, buffer: Bytes, insnsBytes: nat, a: Instruction, b: Instruction)
    requires 16 + insnsBytes <= |buffer| && size(a) < insnsBytes <= size(a) + size(b)
    requires decode(buffer[16..]) == Ok(a) && decode(buffer[16 + size(a)..]) == Ok(b)
    ensures DecodeFrom(decode, size, buffer, insnsBytes, 0) == [a, b]
  {
    assert DecodeFrom(decode, size, buffer, insnsBytes, size(a) + size(b)) == [];
    assert DecodeFrom(decode, size, buffer, insnsBytes, size(a)) == [b];
  }

  /** The size the source's loop advances by, with move/16 and its wide and
      object forms at 4 bytes. */
  const AsWrittenSize: Sizer := SizeBytesAsWritten

  /** A code item with `insns_size` 4 whose code units are
      `0003 0001 0002 0000`: a move/16 v1, v2 followed by a nop. */
  const Move16Item: Bytes := [0, 0, 0, 0, 0, 0, 0, 0, 0, 0, 0, 0, 4, 0, 0, 0, 0x03, 0x00, 0x01, 0x00, 0x02, 0x00, 0x00, 0x00]

  /** The three decodes the two walks over `Move16Item` perform. */
  lemma Move16ItemDecodes()
    ensures |Move16Item| == 24 && ReadU32Le(Move16Item, 12) == 4
    ensures TryDecode(Move16Item[16..]) == Ok(Move16(1, 2))
    ensures TryDecode(Move16Item[20..]) == Ok(MoveFrom16(0, 0))
    ensures TryDecode(Move16Item[22..]) == Ok(Nop)
  {
    Move16ItemFirst();
    Move16ItemInside();
    Move16ItemNop();
  }

  /** At byte 16: the move/16 v1, v2 of the first three code units. */
  lemma Move16ItemFirst()
    ensures TryDecode(Move16Item[16..]) == Ok(Move16(1, 2))
  {
    var insn := Move16Item[16..][..6];
    assert insn == [0x03, 0x00, 0x01, 0x00, 0x02, 0x00];
    assert InstructionSizeBytes(0x03) == Ok(6);
    assert ReadU16Le(insn, 2) == 1 && ReadU16Le(insn, 4) == 2;
  }

  /** At byte 20, inside the move/16: its last operand read as a move/from16. */
  lemma Move16ItemInside()
    ensures TryDecode(Move16Item[20..]) == Ok(MoveFrom16(0, 0))
  {
    var insn := Move16Item[20..][..4];
    assert insn == [0x02, 0x00, 0x00, 0x00];
    assert InstructionSizeBytes(0x02) == Ok(4);
    assert ReadU16Le(insn, 2) == 0;
  }

  /** At byte 22, after the move/16: the nop. */
  lemma Move16ItemNop()
    ensures TryDecode(Move16Item[22..]) == Ok(Nop)
  {
    assert Move16Item[22..][..2] == [0x00, 0x00];
    assert InstructionSizeBytes(0x00) == Ok(2);
  }

  /** The corrected parse of `Move16Item`: move/16, then nop at byte 6. */
  lemma Move16ItemParse()
    ensures ParseCodeItem(Move16Item).Ok? && ParseCodeItem(Move16Item).value.insns == [Move16(1, 2), Nop]
  {
    Move16ItemDecodes();
    Move16ItemCorrectedWalk();
  }

  /** The corrected loop over `Move16Item`: 6 bytes after the move/16 it
      decodes the nop and then has covered the 8 bytes. */
  lemma Move16ItemCorrectedWalk()
    ensures DecodeFrom(TryDecode, SizeBytes, Move16Item, 8, 0) == [Move16(1, 2), Nop]
  {
    Move16ItemDecodes();
    TwoStepWalk(TryDecode, SizeBytes, Move16Item, 8, Move16(1, 2), Nop);
  }

  /** The source's walk over `Move16Item` advances 4 bytes after the
      move/16 and so decodes the middle of that instruction: a move/from16
      read at byte 4, out of the move/16's last operand, where the corrected
      parse has a nop at byte 6. */
  lemma Move16ItemAsWritten()
    ensures DecodeFrom(TryDecode, AsWrittenSize, Move16Item, 8, 0) == [Move16(1, 2), MoveFrom16(0, 0)]
  {
    Move16ItemDecodes();
    TwoStepWalk(TryDecode, AsWrittenSize, Move16Item, 8, Move16(1, 2), MoveFrom16(0, 0));
  }
}
