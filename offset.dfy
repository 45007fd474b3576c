/** `Instruction::offset` (src/dex/instruction/offset.rs): the relative code
    offset of the branching instructions, widened to 32 bits. */
module InstructionOffset {
  import opened Utils
  import opened RustTypes
  import opened Instructions
  import opened InstructionSize
  import opened InstructionDecode

  /** The opcodes of the instructions that carry a code offset, read off the
      Dalvik opcode table: fill-array-data, goto, goto/16, goto/32, the two
      switches, and the twelve if-tests. */
  predicate IsBranchOpcode(op: U8)
  {
    op == 0x26 || 0x28 <= op <= 0x2C || 0x32 <= op <= 0x3D
  }

  /** `offset`. An 8-bit goto offset stays within [-128, 127] and a 16-bit
      one within [-32768, 32767] once widened; the 32-bit offsets are
      returned unchanged. */
  function Offset(i: Instruction): (r: Option<I32>)
    ensures i.Goto? ==> r == Some(i.offset8) && -0x80 <= r.value < 0x80
    ensures i.Goto16? || i.IfTest? || i.IfTestZ? ==> r == Some(i.offset16) && -0x8000 <= r.value < 0x8000
    ensures i.Goto32? || i.PackedSwitch? || i.SparseSwitch? || i.FillArrayData? ==> r == Some(i.offset32)
  {
    if i.Goto? then Some(i.offset8)
    else if i.Goto16? || i.IfTest? || i.IfTestZ? then Some(i.offset16)
    else if i.Goto32? || i.PackedSwitch? || i.SparseSwitch? || i.FillArrayData? then Some(i.offset32)
    else None
  }

  /** An instruction has an offset exactly when its opcode is a branch opcode
      (every other variant gives `None`). The cases are split over small
      lemmas, a few variants each. */
  lemma OffsetIffBranchOpcode(i: Instruction)
    ensures Offset(i).Some? <==> IsBranchOpcode(OpcodeByte(i))
  {
    if i.FillArrayData? || i.Goto? || i.Goto16? {
      BranchOpcode0(i);
    } else if i.Goto32? || i.PackedSwitch? || i.SparseSwitch? {
      BranchOpcode1(i);
    } else if i.IfTest? || i.IfTestZ? {
      BranchOpcode2(i);
    } else if i.Nop? || i.Move? || i.MoveFrom16? {
      NoBranchOpcode0(i);
    } else if i.Move16? || i.MoveWide? || i.MoveWideFrom16? {
      NoBranchOpcode1(i);
    } else if i.MoveWide16? || i.MoveObject? || i.MoveObjectFrom16? {
      NoBranchOpcode2(i);
    } else if i.MoveObject16? || i.MoveResult? || i.MoveResultWide? {
      NoBranchOpcode3(i);
    } else if i.MoveResultObject? || i.MoveException? || i.ReturnVoid? {
      NoBranchOpcode4(i);
    } else if i.Return? || i.ReturnWide? || i.ReturnObject? {
      NoBranchOpcode5(i);
    } else if i.Const4? || i.Const16? || i.Const? {
      NoBranchOpcode6(i);
    } else if i.ConstHigh16? || i.ConstWide16? || i.ConstWide32? {
      NoBranchOpcode7(i);
    } else if i.ConstWide? || i.ConstWideHigh16? || i.ConstString? {
      NoBranchOpcode8(i);
    } else if i.ConstStringJumbo? || i.ConstClass? || i.MonitorEnter? {
      NoBranchOpcode9(i);
    } else if i.MonitorExit? || i.CheckCast? || i.InstanceOf? {
      NoBranchOpcode10(i);
    } else if i.ArrayLength? || i.NewInstance? || i.NewArray? {
      NoBranchOpcode11(i);
    } else if i.FilledNewArray? || i.FilledNewArrayRange? || i.Throw? {
      NoBranchOpcode12(i);
    } else if i.Cmp? || i.Aget? || i.Aput? {
      NoBranchOpcode13(i);
    } else if i.Iget? || i.Iput? || i.Sget? {
      NoBranchOpcode14(i);
    } else if i.Sput? || i.Invoke? || i.InvokeRange? {
      NoBranchOpcode15(i);
    } else if i.Unop? || i.Binop? || i.Binop2Addr? {
      NoBranchOpcode16(i);
    } else if i.BinopLit16? || i.BinopLit8? || i.InvokePolymorphic? {
      NoBranchOpcode17(i);
    } else if i.InvokePolymorphicRange? || i.InvokeCustom? || i.InvokeCustomRange? {
      NoBranchOpcode18(i);
    } else if i.ConstMethodHandle? || i.ConstMethodType? {
      NoBranchOpcode19(i);
    }
  }

  lemma BranchOpcode0(i: Instruction)
    requires i.FillArrayData? || i.Goto? || i.Goto16?
    ensures Offset(i).Some? && IsBranchOpcode(OpcodeByte(i))
  {
    if i.FillArrayData? {
      assert OpcodeByte(i) == 0x26;
    } else if i.Goto? {
      assert OpcodeByte(i) == 0x28;
    } else if i.Goto16? {
      assert OpcodeByte(i) == 0x29;
    }
  }

  lemma BranchOpcode1(i: Instruction)
    requires i.Goto32? || i.PackedSwitch? || i.SparseSwitch?
    ensures Offset(i).Some? && IsBranchOpcode(OpcodeByte(i))
  {
    if i.Goto32? {
      assert OpcodeByte(i) == 0x2A;
    } else if i.PackedSwitch? {
      assert OpcodeByte(i) == 0x2B;
    } else if i.SparseSwitch? {
      assert OpcodeByte(i) == 0x2C;
    }
  }

  lemma BranchOpcode2(i: Instruction)
    requires i.IfTest? || i.IfTestZ?
    ensures Offset(i).Some? && IsBranchOpcode(OpcodeByte(i))
  {
    if i.IfTest? {
      assert OpcodeByte(i) == 0x32 + i.ifTestKind;
    } else if i.IfTestZ? {
      assert OpcodeByte(i) == 0x38 + i.ifTestZKind;
    }
  }

  lemma NoBranchOpcode0(i: Instruction)
    requires i.Nop? || i.Move? || i.MoveFrom16?
    ensures Offset(i).None? && !IsBranchOpcode(OpcodeByte(i))
  {
    if i.Nop? {
      assert OpcodeByte(i) == 0x00;
    } else if i.Move? {
      assert OpcodeByte(i) == 0x01;
    } else if i.MoveFrom16? {
      assert OpcodeByte(i) == 0x02;
    }
  }

  lemma NoBranchOpcode1(i: Instruction)
    requires i.Move16? || i.MoveWide? || i.MoveWideFrom16?
    ensures Offset(i).None? && !IsBranchOpcode(OpcodeByte(i))
  {
    if i.Move16? {
      assert OpcodeByte(i) == 0x03;
    } else if i.MoveWide? {
      assert OpcodeByte(i) == 0x04;
    } else if i.MoveWideFrom16? {
      assert OpcodeByte(i) == 0x05;
    }
  }

  lemma NoBranchOpcode2(i: Instruction)
    requires i.MoveWide16? || i.MoveObject? || i.MoveObjectFrom16?
    ensures Offset(i).None? && !IsBranchOpcode(OpcodeByte(i))
  {
    if i.MoveWide16? {
      assert OpcodeByte(i) == 0x06;
    } else if i.MoveObject? {
      assert OpcodeByte(i) == 0x07;
    } else if i.MoveObjectFrom16? {
      assert OpcodeByte(i) == 0x08;
    }
  }

  lemma NoBranchOpcode3(i: Instruction)
    requires i.MoveObject16? || i.MoveResult? || i.MoveResultWide?
    ensures Offset(i).None? && !IsBranchOpcode(OpcodeByte(i))
  {
    if i.MoveObject16? {
      assert OpcodeByte(i) == 0x09;
    } else if i.MoveResult? {
      assert OpcodeByte(i) == 0x0A;
    } else if i.MoveResultWide? {
      assert OpcodeByte(i) == 0x0B;
    }
  }

  lemma NoBranchOpcode4(i: Instruction)
    requires i.MoveResultObject? || i.MoveException? || i.ReturnVoid?
    ensures Offset(i).None? && !IsBranchOpcode(OpcodeByte(i))
  {
    if i.MoveResultObject? {
      assert OpcodeByte(i) == 0x0C;
    } else if i.MoveException? {
      assert OpcodeByte(i) == 0x0D;
    } else if i.ReturnVoid? {
      assert OpcodeByte(i) == 0x0E;
    }
  }

  lemma NoBranchOpcode5(i: Instruction)
    requires i.Return? || i.ReturnWide? || i.ReturnObject?
    ensures Offset(i).None? && !IsBranchOpcode(OpcodeByte(i))
  {
    if i.Return? {
      assert OpcodeByte(i) == 0x0F;
    } else if i.ReturnWide? {
      assert OpcodeByte(i) == 0x10;
    } else if i.ReturnObject? {
      assert OpcodeByte(i) == 0x11;
    }
  }

  lemma NoBranchOpcode6(i: Instruction)
    requires i.Const4? || i.Const16? || i.Const?
    ensures Offset(i).None? && !IsBranchOpcode(OpcodeByte(i))
  {
    if i.Const4? {
      assert OpcodeByte(i) == 0x12;
    } else if i.Const16? {
      assert OpcodeByte(i) == 0x13;
    } else if i.Const? {
      assert OpcodeByte(i) == 0x14;
    }
  }

  lemma NoBranchOpcode7(i: Instruction)
    requires i.ConstHigh16? || i.ConstWide16? || i.ConstWide32?
    ensures Offset(i).None? && !IsBranchOpcode(OpcodeByte(i))
  {
    if i.ConstHigh16? {
      assert OpcodeByte(i) == 0x15;
    } else if i.ConstWide16? {
      assert OpcodeByte(i) == 0x16;
    } else if i.ConstWide32? {
      assert OpcodeByte(i) == 0x17;
    }
  }

  lemma NoBranchOpcode8(i: Instruction)
    requires i.ConstWide? || i.ConstWideHigh16? || i.ConstString?
    ensures Offset(i).None? && !IsBranchOpcode(OpcodeByte(i))
  {
    if i.ConstWide? {
      assert OpcodeByte(i) == 0x18;
    } else if i.ConstWideHigh16? {
      assert OpcodeByte(i) == 0x19;
    } else if i.ConstString? {
      assert OpcodeByte(i) == 0x1A;
    }
  }

  lemma NoBranchOpcode9(i: Instruction)
    requires i.ConstStringJumbo? || i.ConstClass? || i.MonitorEnter?
    ensures Offset(i).None? && !IsBranchOpcode(OpcodeByte(i))
  {
    if i.ConstStringJumbo? {
      assert OpcodeByte(i) == 0x1B;
    } else if i.ConstClass? {
      assert OpcodeByte(i) == 0x1C;
    } else if i.MonitorEnter? {
      assert OpcodeByte(i) == 0x1D;
    }
  }

  lemma NoBranchOpcode10(i: Instruction)
    requires i.MonitorExit? || i.CheckCast? || i.InstanceOf?
    ensures Offset(i).None? && !IsBranchOpcode(OpcodeByte(i))
  {
    if i.MonitorExit? {
      assert OpcodeByte(i) == 0x1E;
    } else if i.CheckCast? {
      assert OpcodeByte(i) == 0x1F;
    } else if i.InstanceOf? {
      assert OpcodeByte(i) == 0x20;
    }
  }

  lemma NoBranchOpcode11(i: Instruction)
    requires i.ArrayLength? || i.NewInstance? || i.NewArray?
    ensures Offset(i).None? && !IsBranchOpcode(OpcodeByte(i))
  {
    if i.ArrayLength? {
      assert OpcodeByte(i) == 0x21;
    } else if i.NewInstance? {
      assert OpcodeByte(i) == 0x22;
    } else if i.NewArray? {
      assert OpcodeByte(i) == 0x23;
    }
  }

  lemma NoBranchOpcode12(i: Instruction)
    requires i.FilledNewArray? || i.FilledNewArrayRange? || i.Throw?
    ensures Offset(i).None? && !IsBranchOpcode(OpcodeByte(i))
  {
    if i.FilledNewArray? {
      assert OpcodeByte(i) == 0x24;
    } else if i.FilledNewArrayRange? {
      assert OpcodeByte(i) == 0x25;
    } else if i.Throw? {
      assert OpcodeByte(i) == 0x27;
    }
  }

  lemma NoBranchOpcode13(i: Instruction)
    requires i.Cmp? || i.Aget? || i.Aput?
    ensures Offset(i).None? && !IsBranchOpcode(OpcodeByte(i))
  {
    if i.Cmp? {
      assert OpcodeByte(i) == 0x2D + i.cmpKind;
    } else if i.Aget? {
      assert OpcodeByte(i) == 0x44 + i.valueKind;
    } else if i.Aput? {
      assert OpcodeByte(i) == 0x4B + i.valueKind;
    }
  }

  lemma NoBranchOpcode14(i: Instruction)
    requires i.Iget? || i.Iput? || i.Sget?
    ensures Offset(i).None? && !IsBranchOpcode(OpcodeByte(i))
  {
    if i.Iget? {
      assert OpcodeByte(i) == 0x52 + i.valueKind;
    } else if i.Iput? {
      assert OpcodeByte(i) == 0x59 + i.valueKind;
    } else if i.Sget? {
      assert OpcodeByte(i) == 0x60 + i.valueKind;
    }
  }

  lemma NoBranchOpcode15(i: Instruction)
    requires i.Sput? || i.Invoke? || i.InvokeRange?
    ensures Offset(i).None? && !IsBranchOpcode(OpcodeByte(i))
  {
    if i.Sput? {
      assert OpcodeByte(i) == 0x67 + i.valueKind;
    } else if i.Invoke? {
      assert OpcodeByte(i) == 0x6E + i.invokeKind;
    } else if i.InvokeRange? {
      assert OpcodeByte(i) == 0x74 + i.invokeKind;
    }
  }

  lemma NoBranchOpcode16(i: Instruction)
    requires i.Unop? || i.Binop? || i.Binop2Addr?
    ensures Offset(i).None? && !IsBranchOpcode(OpcodeByte(i))
  {
    if i.Unop? {
      assert OpcodeByte(i) == 0x7B + i.unopKind;
    } else if i.Binop? {
      assert OpcodeByte(i) == 0x90 + i.binopKind;
    } else if i.Binop2Addr? {
      assert OpcodeByte(i) == 0xB0 + i.binopKind;
    }
  }

  lemma NoBranchOpcode17(i: Instruction)
    requires i.BinopLit16? || i.BinopLit8? || i.InvokePolymorphic?
    ensures Offset(i).None? && !IsBranchOpcode(OpcodeByte(i))
  {
    if i.BinopLit16? {
      assert OpcodeByte(i) == 0xD0 + i.lit16Kind;
    } else if i.BinopLit8? {
      assert OpcodeByte(i) == 0xD8 + i.lit8Kind;
    } else if i.InvokePolymorphic? {
      assert OpcodeByte(i) == 0xFA;
    }
  }

  lemma NoBranchOpcode18(i: Instruction)
    requires i.InvokePolymorphicRange? || i.InvokeCustom? || i.InvokeCustomRange?
    ensures Offset(i).None? && !IsBranchOpcode(OpcodeByte(i))
  {
    if i.InvokePolymorphicRange? {
      assert OpcodeByte(i) == 0xFB;
    } else if i.InvokeCustom? {
      assert OpcodeByte(i) == 0xFC;
    } else if i.InvokeCustomRange? {
      assert OpcodeByte(i) == 0xFD;
    }
  }

  lemma NoBranchOpcode19(i: Instruction)
    requires i.ConstMethodHandle? || i.ConstMethodType?
    ensures Offset(i).None? && !IsBranchOpcode(OpcodeByte(i))
  {
    if i.ConstMethodHandle? {
      assert OpcodeByte(i) == 0xFE;
    } else if i.ConstMethodType? {
      assert OpcodeByte(i) == 0xFF;
    }
  }

  /** The offset of a decoded goto is its second byte read as a signed byte. */
  lemma OffsetOfDecodedGoto(buffer: Bytes)
    requires |buffer| >= 2 && buffer[0] == 0x28
    ensures TryDecode(buffer).Ok? && Offset(TryDecode(buffer).value) == Some(AsI8(buffer[1]))
  {
  }

  /** The offset of a decoded goto/16 or if-test (formats 20t, 22t, 21t) is
      the signed little-endian 16-bit value at byte 2. */
  lemma OffsetOfDecoded16(buffer: Bytes)
    requires |buffer| >= 4 && (buffer[0] == 0x29 || 0x32 <= buffer[0] <= 0x3D)
    ensures TryDecode(buffer).Ok? && Offset(TryDecode(buffer).value) == Some(AsI16(ReadU16Le(buffer, 2)))
  {
  }

  /** The offset of a decoded goto/32, switch or fill-array-data (formats 30t
      and 31t) is the signed little-endian 32-bit value at byte 2. */
  lemma OffsetOfDecoded32(buffer: Bytes)
    requires |buffer| >= 6 && (buffer[0] == 0x26 || 0x2A <= buffer[0] <= 0x2C)
    ensures TryDecode(buffer).Ok? && Offset(TryDecode(buffer).value) == Some(AsI32(ReadU32Le(buffer, 2)))
  {
  }
}
