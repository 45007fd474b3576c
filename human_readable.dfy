/** `Instruction::to_human_readable` (src/dex/instruction/human_readable.rs):
    the mnemonic, one space, and the operands, where table indices are
    replaced by the strings, type descriptors, fields, methods and
    prototypes they name, and an index outside its table is a
    `TableIdxError`.

    The mnemonic (`Instruction::opcode`), the rendering of a prototype and
    the `{:?}` texts of call-site items and method handles have no
    definition in the source this model covers; they come in through `Env`.
    The two tables `call_site_items` and `method_handles` are not fields of
    the `Dex` struct shown, so `Env` carries them as their rendered texts. */
module InstructionHumanReadable {
  import opened Utils
  import opened RustTypes
  import opened Errors
  import opened Fmt
  import opened Instructions
  import Dex
  import FieldIdItem
  import MethodIdItem
  import ProtoIdItem

  datatype Env = Env(
    mnemonic: Instruction -> string,
    protoText: ProtoIdItem.ProtoIdItem -> Result<string, TableIdxError>,
    callSites: seq<string>,
    methodHandles: seq<string>)

  // Register lists

  /** How many of the five slots the loop over `0..arg_cnt` reaches:
      `args.get(i)` is `None` from slot 5 on. */
  function SlotCount(argCnt: nat): (n: nat)
    ensures n <= 5 && n <= argCnt && (argCnt < 5 ==> n == argCnt)
  {
    if argCnt < 5 then argCnt else 5
  }

  /** The text the five-slot loop has built after `n` rounds: ` v{arg}` for
      every round whose slot exists. */
  function SlotText(args: RegArgs, n: nat): string
  {
    if n == 0 then ""
    else SlotText(args, n - 1) + (if n - 1 < 5 then " " + Reg(args[n - 1]) else "")
  }

  /** The text the range loop has built after `n` rounds: ` v{first_arg + i}`
      for each round `i`, the sum taken as a `u16` that wraps around. */
  function RangeText(firstArg: U16, n: nat): string
  {
    if n == 0 then "" else RangeText(firstArg, n - 1) + " " + Reg((firstArg + (n - 1)) % 0x1_0000)
  }

  /** The register names of a sequence of registers. */
  function Regs(s: seq<U8>): (r: seq<string>)
    ensures |r| == |s| && forall k :: 0 <= k < |s| ==> r[k] == Reg(s[k])
  {
    seq(|s|, k requires 0 <= k < |s| => Reg(s[k]))
  }

  /** The register names of the slots the five-slot loop reaches. */
  function SlotRegs(args: RegArgs, argCnt: nat): seq<string>
  {
    Regs(args[..SlotCount(argCnt)])
  }

  /** The register names `v{first + k}` for `k` below `n`, wrapping at 2^16. */
  function RangeRegs(firstArg: U16, n: nat): (r: seq<string>)
    ensures |r| == n && forall k :: 0 <= k < n ==> r[k] == Reg((firstArg + k) % 0x1_0000)
  {
    seq(n, k requires 0 <= k < n => Reg((firstArg + k) % 0x1_0000))
  }

  /** Each word preceded by a space. */
  function Prefixed(words: seq<string>): string
  {
    if words == [] then "" else Prefixed(words[..|words| - 1]) + " " + words[|words| - 1]
  }

  /** The loop for the five-slot forms: one ` v{arg}` per slot below
      `arg_cnt`, then `trim_start`. The result is the names of the first
      min(arg_cnt, 5) slots separated by single spaces. */
  method ArgumentList(args: RegArgs, argCnt: U8) returns (s: string)
    ensures s == TrimStart(SlotText(args, argCnt))
    ensures s == Join(SlotRegs(args, argCnt), " ")
  {
    var text := "";
    for i := 0 to argCnt
      invariant text == SlotText(args, i)
    {
      if i < 5 {
        text := text + " " + Reg(args[i]);
      }
    }
    s := TrimStart(text);
    SlotTextIsJoin(args, argCnt);
  }

  /** The loop for the range forms: ` v{first_arg + i}` for each `i` below
      `arg_cnt`, then `trim_start`. The result is the `arg_cnt` consecutive
      register names separated by single spaces. */
  method RangeArgumentList(firstArg: U16, argCnt: U8) returns (s: string)
    ensures s == TrimStart(RangeText(firstArg, argCnt))
    ensures s == Join(RangeRegs(firstArg, argCnt), " ")
  {
    var text := "";
    for i := 0 to argCnt
      invariant text == RangeText(firstArg, i)
    {
      text := text + " " + Reg((firstArg + i) % 0x1_0000);
    }
    s := TrimStart(text);
    RangeTextIsJoin(firstArg, argCnt);
  }

  lemma {:induction false} PrefixedIsSpaceJoin(words: seq<string>)
    requires words != []
    ensures Prefixed(words) == " " + Join(words, " ")
    decreases |words|
  {
    var init := words[..|words| - 1];
    var last := words[|words| - 1];
    if |words| == 1 {
      assert init == [];
    } else {
      PrefixedIsSpaceJoin(init);
      JoinAppend(init, last, " ");
      assert init + [last] == words;
    }
  }

  lemma JoinHead(words: seq<string>, sep: string)
    requires words != [] && words[0] != []
    ensures Join(words, sep) != [] && Join(words, sep)[0] == words[0][0]
  {
  }

  /** Trimming the leading space of words that each start with `v` leaves
      the words joined by single spaces: no leading space, none doubled. */
  lemma TrimStartOfPrefixed(words: seq<string>)
    requires forall k :: 0 <= k < |words| ==> |words[k]| >= 1 && words[k][0] == 'v'
    ensures TrimStart(Prefixed(words)) == Join(words, " ")
  {
    if words != [] {
      PrefixedIsSpaceJoin(words);
      var j := Join(words, " ");
      JoinHead(words, " ");
      assert (" " + j)[1..] == j;
    }
  }

  lemma {:induction false} SlotTextPrefixed(args: RegArgs, n: nat)
    ensures SlotText(args, n) == Prefixed(Regs(args[..SlotCount(n)]))
    decreases n
  {
    if n > 0 {
      SlotTextPrefixed(args, n - 1);
      if n - 1 < 5 {
        var w := Regs(args[..n - 1]);
        var v := Regs(args[..n]);
        assert SlotCount(n) == n && SlotCount(n - 1) == n - 1;
        assert v[..|v| - 1] == w;
        assert v[|v| - 1] == Reg(args[n - 1]);
      } else {
        assert SlotCount(n) == 5 && SlotCount(n - 1) == 5;
      }
    }
  }

  lemma {:induction false} RangeTextPrefixed(firstArg: U16, n: nat)
    ensures RangeText(firstArg, n) == Prefixed(RangeRegs(firstArg, n))
    decreases n
  {
    if n > 0 {
      RangeTextPrefixed(firstArg, n - 1);
      var v := RangeRegs(firstArg, n);
      assert v[..|v| - 1] == RangeRegs(firstArg, n - 1);
    }
  }

  /** The five-slot list names the first min(arg_cnt, 5) slots, separated by
      single spaces with no leading space; slots from 5 on are skipped. */
  lemma SlotTextIsJoin(args: RegArgs, n: nat)
    ensures TrimStart(SlotText(args, n)) == Join(SlotRegs(args, n), " ")
  {
    SlotTextPrefixed(args, n);
    TrimStartOfPrefixed(Regs(args[..SlotCount(n)]));
  }

  /** The range list names `v{first_arg}` up to `v{first_arg + arg_cnt - 1}`,
      separated by single spaces with no leading space. */
  lemma RangeTextIsJoin(firstArg: U16, n: nat)
    ensures TrimStart(RangeText(firstArg, n)) == Join(RangeRegs(firstArg, n), " ")
  {
    RangeTextPrefixed(firstArg, n);
    TrimStartOfPrefixed(RangeRegs(firstArg, n));
  }

  // Table lookups (`pull_string!`, `pull_type!`, `pull_field!`, `pull_method!`, `pull_proto!`)

  function StringAt(dex: Dex.Dex, idx: nat): Result<string, TableIdxError>
  {
    if idx < |dex.strings| then Ok(dex.strings[idx]) else Err(String(idx))
  }

  function TypeAt(dex: Dex.Dex, idx: nat): Result<string, TableIdxError>
  {
    if idx < |dex.types| then Ok(dex.types[idx]) else Err(Type(idx))
  }

  /** The field at `idx`, rendered by `FieldIdItem::to_human_readable`. */
  function FieldText(dex: Dex.Dex, idx: nat): Result<string, TableIdxError>
  {
    if idx < |dex.fieldIds| then FieldIdItem.ToHumanReadable(dex.fieldIds[idx], dex.types, dex.strings)
    else Err(FieldId(idx))
  }

  /** The method at `idx`, rendered by `MethodIdItem::to_human_readable`. */
  function MethodText(dex: Dex.Dex, env: Env, idx: nat): Result<string, TableIdxError>
  {
    if idx < |dex.methodIds| then
      MethodIdItem.ToHumanReadable(dex.methodIds[idx], dex.types, dex.protoIds, dex.strings, env.protoText)
    else Err(MethodId(idx))
  }

  /** The operands of the two invoke-polymorphic forms: both lookups first
      (method, then prototype), then both renderings in the same order. */
  function PolymorphicText(dex: Dex.Dex, env: Env, methodIdx: nat, protoIdx: nat, list: string): Result<string, TableIdxError>
  {
    if methodIdx >= |dex.methodIds| then Err(MethodId(methodIdx))
    else if protoIdx >= |dex.protoIds| then Err(ProtoId(protoIdx))
    else
      match MethodIdItem.ToHumanReadable(dex.methodIds[methodIdx], dex.types, dex.protoIds, dex.strings, env.protoText)
      case Err(e) => Err(e)
      case Ok(m) =>
        match env.protoText(dex.protoIds[protoIdx])
        case Err(e) => Err(e)
        case Ok(p) => Ok(list + " " + m + " " + p)
  }

  /** `Ok(prefix + text)`, or the error of a failed lookup or rendering. */
  function Then(prefix: string, r: Result<string, TableIdxError>): Result<string, TableIdxError>
  {
    match r
    case Err(e) => Err(e)
    case Ok(text) => Ok(prefix + text)
  }

  /** A found string followed by the closing double quote. */
  function Closed(r: Result<string, TableIdxError>): Result<string, TableIdxError>
  {
    match r
    case Err(e) => Err(e)
    case Ok(text) => Ok(text + "\"")
  }

  /** The text after a sequence of registers: `Ok(list + " " + text)`. */
  function After(list: string, r: Result<string, TableIdxError>): Result<string, TableIdxError>
  {
    match r
    case Err(e) => Err(e)
    case Ok(text) => Ok(list + " " + text)
  }

  // The rendering

  /** The 35c and 3rc forms, whose operands start with a register list. */
  predicate HasRegisterList(i: Instruction)
  {
    i.FilledNewArray? || i.Invoke? || i.InvokePolymorphic? || i.InvokeCustom? ||
    i.FilledNewArrayRange? || i.InvokeRange? || i.InvokePolymorphicRange? || i.InvokeCustomRange?
  }

  /** The 35c forms, whose registers are the argument slots. */
  predicate HasSlotList(i: Instruction)
  {
    i.FilledNewArray? || i.Invoke? || i.InvokePolymorphic? || i.InvokeCustom?
  }

  /** The 3rc forms, whose registers are a range. */
  predicate HasRangeList(i: Instruction)
  {
    i.FilledNewArrayRange? || i.InvokeRange? || i.InvokePolymorphicRange? || i.InvokeCustomRange?
  }

  /** The forms whose operands name a table entry. */
  predicate UsesTable(i: Instruction)
  {
    i.ConstString? || i.ConstStringJumbo? || i.ConstClass? || i.CheckCast? || i.InstanceOf? ||
    i.NewInstance? || i.NewArray? || i.FilledNewArray? || i.FilledNewArrayRange? ||
    i.Iget? || i.Iput? || i.Sget? || i.Sput? || i.Invoke? || i.InvokeRange? ||
    i.InvokePolymorphic? || i.InvokePolymorphicRange? || i.InvokeCustom? || i.InvokeCustomRange? ||
    i.ConstMethodHandle? || i.ConstMethodType?
  }

  /** The `args` of `to_human_readable`, given the register list the loops
      built for the 35c and 3rc forms: the arms that look something up, and
      those whose text is made of registers, literals and offsets alone. */
  function Operands(i: Instruction, list: string, dex: Dex.Dex, env: Env): Result<string, TableIdxError>
  {
    if HasRegisterList(i) then ListOperands(i, list, dex, env)
    else if UsesTable(i) then LookupOperands(i, dex, env)
    else Ok(PlainOperands(i))
  }

  /** The arms that put a register list before what they look up. */
  function ListOperands(i: Instruction, list: string, dex: Dex.Dex, env: Env): Result<string, TableIdxError>
    requires HasRegisterList(i)
  {
    match i
    case FilledNewArray(idx, _, _) => After(list, TypeAt(dex, idx))
    case FilledNewArrayRange(idx, _, _) => After(list, TypeAt(dex, idx))
    case Invoke(_, idx, _, _) => After(list, MethodText(dex, env, idx))
    case InvokeRange(_, idx, _, _) => After(list, MethodText(dex, env, idx))
    case InvokePolymorphic(methodIdx, protoIdx, _, _) => PolymorphicText(dex, env, methodIdx, protoIdx, list)
    case InvokePolymorphicRange(methodIdx, protoIdx, _, _) => PolymorphicText(dex, env, methodIdx, protoIdx, list)
    case InvokeCustom(idx, _, _) =>
      if idx < |env.callSites| then Ok(list + " " + env.callSites[idx]) else Err(CallSite(idx))
    case InvokeCustomRange(idx, _, _) => After(list, MethodText(dex, env, idx))
  }

  /** The other arms that look an index up. */
  function LookupOperands(i: Instruction, dex: Dex.Dex, env: Env): Result<string, TableIdxError>
    requires UsesTable(i) && !HasRegisterList(i)
  {
    match i
    case ConstString(dst, idx) => Then(Reg(dst) + " \"", Closed(StringAt(dex, idx)))
    case ConstStringJumbo(dst, idx) => Then(Reg(dst) + " \"", Closed(StringAt(dex, idx)))
    case ConstClass(dst, idx) => Then(Reg(dst) + " ", TypeAt(dex, idx))
    case CheckCast(reference, idx) => Then(Reg(reference) + " ", TypeAt(dex, idx))
    case InstanceOf(dst, reference, idx) => Then(Reg(dst) + " " + Reg(reference) + " ", TypeAt(dex, idx))
    case NewInstance(dst, idx) => Then(Reg(dst) + " ", TypeAt(dex, idx))
    case NewArray(dst, size, idx) => Then(Reg(dst) + " " + Reg(size) + " ", TypeAt(dex, idx))
    case Iget(_, src, obj, idx) => Then(Reg(src) + " " + Reg(obj) + " ", FieldText(dex, idx))
    case Iput(_, dst, obj, idx) => Then(Reg(dst) + " " + Reg(obj) + " ", FieldText(dex, idx))
    case Sget(_, src, idx) => Then(Reg(src) + " ", FieldText(dex, idx))
    case Sput(_, dst, idx) => Then(Reg(dst) + " ", FieldText(dex, idx))
    case ConstMethodHandle(dst, idx) =>
      if idx < |env.methodHandles| then Ok(Reg(dst) + " " + env.methodHandles[idx]) else Err(MethodHandle(idx))
    case ConstMethodType(dst, idx) =>
      if idx < |dex.protoIds| then Then(Reg(dst) + " ", env.protoText(dex.protoIds[idx])) else Err(ProtoId(idx))
  }

  /** The arms without a lookup. */
  function PlainOperands(i: Instruction): string
    requires !UsesTable(i)
  {
    match i
    case Nop => ""
    case Move(dst, src) => Reg(dst) + " " + Reg(src)
    case MoveFrom16(dst, src16) => Reg(dst) + " " + Reg(src16)
    case Move16(dst16, src16) => Reg(dst16) + " " + Reg(src16)
    case MoveWide(dst, src) => Reg(dst) + " " + Reg(src)
    case MoveWideFrom16(dst, src16) => Reg(dst) + " " + Reg(src16)
    case MoveWide16(dst16, src16) => Reg(dst16) + " " + Reg(src16)
    case MoveObject(dst, src) => Reg(dst) + " " + Reg(src)
    case MoveObjectFrom16(dst, src16) => Reg(dst) + " " + Reg(src16)
    case MoveObject16(dst16, src16) => Reg(dst16) + " " + Reg(src16)
    case MoveResult(dst) => Reg(dst)
    case MoveResultWide(dst) => Reg(dst)
    case MoveResultObject(dst) => Reg(dst)
    case MoveException(dst) => Reg(dst)
    case ReturnVoid => ""
    case Return(value) => Reg(value)
    case ReturnWide(value) => Reg(value)
    case ReturnObject(value) => Reg(value)
    case Const4(dst, lit8) => Reg(dst) + " " + IntToString(lit8)
    case Const16(dst, lit16) => Reg(dst) + " " + IntToString(lit16)
    case Const(dst, lit32) => Reg(dst) + " " + IntToString(lit32)
    case ConstHigh16(dst, lit16) => Reg(dst) + " " + IntToString(lit16)
    case ConstWide16(dst, lit16) => Reg(dst) + " " + IntToString(lit16)
    case ConstWide32(dst, lit32) => Reg(dst) + " " + IntToString(lit32)
    case ConstWide(dst, lit64) => Reg(dst) + " " + IntToString(lit64)
    case ConstWideHigh16(dst, lit16) => Reg(dst) + " " + IntToString(lit16)
    case MonitorEnter(reference) => Reg(reference)
    case MonitorExit(reference) => Reg(reference)
    case ArrayLength(dst, arr) => Reg(dst) + " " + Reg(arr)
    case FillArrayData(arr, offset32) => Reg(arr) + " " + IntToString(offset32)
    case Throw(exception) => Reg(exception)
    case Goto(offset8) => IntToString(offset8)
    case Goto16(offset16) => IntToString(offset16)
    case Goto32(offset32) => IntToString(offset32)
    case PackedSwitch(value, offset32) => Reg(value) + " " + IntToString(offset32)
    case SparseSwitch(value, offset32) => Reg(value) + " " + IntToString(offset32)
    case Cmp(_, dst, srcA, srcB) => Reg(dst) + " " + Reg(srcA) + " " + Reg(srcB)
    case IfTest(_, a, b, offset16) => Reg(a) + " " + Reg(b) + " " + IntToString(offset16)
    case IfTestZ(_, value, offset16) => Reg(value) + " " + IntToString(offset16)
    case Aget(_, src, arr, index) => Reg(src) + " " + Reg(arr) + " " + Reg(index)
    case Aput(_, dst, arr, index) => Reg(dst) + " " + Reg(arr) + " " + Reg(index)
    case Unop(_, dst, src) => Reg(dst) + " " + Reg(src)
    case Binop(_, dst, srcA, srcB) => Reg(dst) + " " + Reg(srcA) + " " + Reg(srcB)
    case Binop2Addr(_, dst, src) => Reg(dst) + " " + Reg(src)
    case BinopLit16(_, dst, src, lit16) => Reg(dst) + " " + Reg(src) + " " + IntToString(lit16)
    case BinopLit8(_, dst, src, lit8) => Reg(dst) + " " + Reg(src) + " " + IntToString(lit8)
  }

  /** The register list the loops build for the 35c and 3rc forms, and the
      empty string for every other form. */
  function RegisterList(i: Instruction): string
  {
    if HasSlotList(i) then
      TrimStart(SlotText(i.args, i.argCnt))
    else if HasRangeList(i) then
      TrimStart(RangeText(i.firstArg, i.argCnt))
    else ""
  }

  /** The whole rendering: the mnemonic, a space, the operands. */
  function Render(i: Instruction, dex: Dex.Dex, env: Env): Result<string, TableIdxError>
  {
    Then(env.mnemonic(i) + " ", Operands(i, RegisterList(i), dex, env))
  }

  /** The register-list loops of the 35c and 3rc arms. */
  method BuildRegisterList(i: Instruction) returns (list: string)
    ensures list == RegisterList(i)
  {
    list := "";
    if HasSlotList(i) {
      list := ArgumentList(i.args, i.argCnt);
    } else if HasRangeList(i) {
      list := RangeArgumentList(i.firstArg, i.argCnt);
    }
  }

  /** `to_human_readable`: the register list by the loops, then the operands
      after the mnemonic and a space, or the first lookup error. */
  method ToHumanReadable(i: Instruction, dex: Dex.Dex, env: Env) returns (r: Result<string, TableIdxError>)
    ensures r == Render(i, dex, env)
  {
    var list := BuildRegisterList(i);
    r := Then(env.mnemonic(i) + " ", Operands(i, list, dex, env));
  }

  // What the rendering promises

  lemma Assoc(x: string, y: string, z: string)
    ensures x + (y + z) == x + y + z
  {
  }

  /** Whatever the instruction, a rendering starts with the mnemonic and one
      space. */
  lemma MnemonicThenSpace(i: Instruction, dex: Dex.Dex, env: Env)
    ensures var r := Render(i, dex, env);
      r.Ok? ==> |r.value| > |env.mnemonic(i)| && r.value[..|env.mnemonic(i)| + 1] == env.mnemonic(i) + " "
  {
    var r := Render(i, dex, env);
    if r.Ok? {
      var o := Operands(i, RegisterList(i), dex, env);
      assert r.value == env.mnemonic(i) + " " + o.value;
      assert r.value[..|env.mnemonic(i)| + 1] == env.mnemonic(i) + " ";
    }
  }

  /** Nop and return-void have no operands: the mnemonic and a trailing
      space. */
  lemma NoOperands(dex: Dex.Dex, env: Env)
    ensures Render(Nop, dex, env) == Ok(env.mnemonic(Nop) + " ")
    ensures Render(ReturnVoid, dex, env) == Ok(env.mnemonic(ReturnVoid) + " ")
  {
    assert env.mnemonic(Nop) + " " + "" == env.mnemonic(Nop) + " ";
    assert env.mnemonic(ReturnVoid) + " " + "" == env.mnemonic(ReturnVoid) + " ";
  }

  /** const-string: the string in double quotes, or `String(idx)` when the
      index is outside the string table. */
  lemma ConstStringRendering(dst: U8, idx: U16, dex: Dex.Dex, env: Env)
    ensures var i := ConstString(dst, idx);
      Render(i, dex, env) == if idx < |dex.strings| then Ok(env.mnemonic(i) + " " + Reg(dst) + " \"" + dex.strings[idx] + "\"")
                             else Err(String(idx))
  {
    var i := ConstString(dst, idx);
    if idx < |dex.strings| {
      var m, d, t := env.mnemonic(i), Reg(dst), dex.strings[idx];
      assert Render(i, dex, env) == Ok((m + " ") + ((d + " \"") + (t + "\"")));
      Assoc(m + " ", d + " \"", t + "\"");
      Assoc(m + " ", d, " \"");
      Assoc(m + " " + d + " \"", t, "\"");
    }
  }

  /** const-string/jumbo: the same with a 32-bit index. */
  lemma ConstStringJumboRendering(dst: U8, idx: U32, dex: Dex.Dex, env: Env)
    ensures var i := ConstStringJumbo(dst, idx);
      Render(i, dex, env) == if idx < |dex.strings| then Ok(env.mnemonic(i) + " " + Reg(dst) + " \"" + dex.strings[idx] + "\"")
                             else Err(String(idx))
  {
    var i := ConstStringJumbo(dst, idx);
    if idx < |dex.strings| {
      var m, d, t := env.mnemonic(i), Reg(dst), dex.strings[idx];
      assert Render(i, dex, env) == Ok((m + " ") + ((d + " \"") + (t + "\"")));
      Assoc(m + " ", d + " \"", t + "\"");
      Assoc(m + " ", d, " \"");
      Assoc(m + " " + d + " \"", t, "\"");
    }
  }

  /** const-class, check-cast and new-instance: the register and the type
      descriptor, or `Type(idx)` when the index is outside the type table. */
  lemma TypeOperandRendering(i: Instruction, reg: U8, idx: U16, dex: Dex.Dex, env: Env)
    requires i == ConstClass(reg, idx) || i == CheckCast(reg, idx) || i == NewInstance(reg, idx)
    ensures Render(i, dex, env) == if idx < |dex.types| then Ok(env.mnemonic(i) + " " + Reg(reg) + " " + dex.types[idx])
                                   else Err(Type(idx))
  {
    if idx < |dex.types| {
      var m, d, t := env.mnemonic(i), Reg(reg), dex.types[idx];
      assert Render(i, dex, env) == Ok((m + " ") + ((d + " ") + t));
      Assoc(m + " ", d + " ", t);
      Assoc(m + " ", d, " ");
    }
  }

  /** iget and iput render `v{reg} v{obj} <field>`, the field by
      `FieldIdItem::to_human_readable`; an index outside the field table is
      `FieldId(idx)`, and an error of the field's rendering is passed on. */
  lemma InstanceFieldRendering(i: Instruction, k: ValueKind, reg: U8, obj: U8, idx: U16, dex: Dex.Dex, env: Env)
    requires i == Iget(k, reg, obj, idx) || i == Iput(k, reg, obj, idx)
    ensures idx >= |dex.fieldIds| ==> Render(i, dex, env) == Err(FieldId(idx))
    ensures Render(i, dex, env) == Then(env.mnemonic(i) + " " + Reg(reg) + " " + Reg(obj) + " ", FieldText(dex, idx))
  {
    if idx < |dex.fieldIds| {
      var f := FieldText(dex, idx);
      if f.Ok? {
        var m, a, b, t := env.mnemonic(i), Reg(reg), Reg(obj), f.value;
        Assoc(m + " ", a + " " + b + " ", t);
        Assoc(m + " ", a + " " + b, " ");
        Assoc(m + " ", a + " ", b);
        Assoc(m + " ", a, " ");
      }
    }
  }

  /** sget and sput render `v{reg} <field>`, with the same errors. */
  lemma StaticFieldRendering(i: Instruction, k: ValueKind, reg: U8, idx: U16, dex: Dex.Dex, env: Env)
    requires i == Sget(k, reg, idx) || i == Sput(k, reg, idx)
    ensures idx >= |dex.fieldIds| ==> Render(i, dex, env) == Err(FieldId(idx))
    ensures Render(i, dex, env) == Then(env.mnemonic(i) + " " + Reg(reg) + " ", FieldText(dex, idx))
  {
    if idx < |dex.fieldIds| {
      var f := FieldText(dex, idx);
      if f.Ok? {
        var m, a, t := env.mnemonic(i), Reg(reg), f.value;
        Assoc(m + " ", a + " ", t);
        Assoc(m + " ", a, " ");
      }
    }
  }

  /** An invoke whose method index is outside the method table fails with
      `MethodId(idx)`, in the five-slot and the range form. */
  lemma InvokeMissingMethod(i: Instruction, k: InvokeKind, idx: U16, args: RegArgs, firstArg: U16, argCnt: U8, dex: Dex.Dex, env: Env)
    requires i == Invoke(k, idx, args, argCnt) || i == InvokeRange(k, idx, firstArg, argCnt)
    requires idx >= |dex.methodIds|
    ensures Render(i, dex, env) == Err(MethodId(idx))
  {
  }

  /** The five-slot invokes: the registers of the first min(arg_cnt, 5)
      slots, then the method by `MethodIdItem::to_human_readable`, whose
      error is passed on. */
  lemma InvokeRendering(k: InvokeKind, idx: U16, args: RegArgs, argCnt: U8, dex: Dex.Dex, env: Env)
    ensures var i := Invoke(k, idx, args, argCnt);
      Render(i, dex, env) == Then(env.mnemonic(i) + " " + Join(SlotRegs(args, argCnt), " ") + " ", MethodText(dex, env, idx))
  {
    var i := Invoke(k, idx, args, argCnt);
    SlotTextIsJoin(args, argCnt);
    var list := RegisterList(i);
    var m := MethodText(dex, env, idx);
    if m.Ok? {
      var n, t := env.mnemonic(i), m.value;
      Assoc(n + " ", list + " ", t);
      Assoc(n + " ", list, " ");
    }
  }

  /** The range invokes: the registers `v{first_arg}` onwards, then the
      method, whose error is passed on. */
  lemma InvokeRangeRendering(k: InvokeKind, idx: U16, firstArg: U16, argCnt: U8, dex: Dex.Dex, env: Env)
    ensures var i := InvokeRange(k, idx, firstArg, argCnt);
      Render(i, dex, env) == Then(env.mnemonic(i) + " " + Join(RangeRegs(firstArg, argCnt), " ") + " ", MethodText(dex, env, idx))
  {
    var i := InvokeRange(k, idx, firstArg, argCnt);
    RangeTextIsJoin(firstArg, argCnt);
    var list := RegisterList(i);
    var m := MethodText(dex, env, idx);
    if m.Ok? {
      var n, t := env.mnemonic(i), m.value;
      Assoc(n + " ", list + " ", t);
      Assoc(n + " ", list, " ");
    }
  }

  /** invoke-custom looks its index up in the call-site table. */
  lemma InvokeCustomRendering(idx: U16, args: RegArgs, argCnt: U8, dex: Dex.Dex, env: Env)
    ensures var i := InvokeCustom(idx, args, argCnt);
      Render(i, dex, env) == if idx < |env.callSites| then Ok(env.mnemonic(i) + " " + Join(SlotRegs(args, argCnt), " ") + " " + env.callSites[idx])
                             else Err(CallSite(idx))
  {
    var i := InvokeCustom(idx, args, argCnt);
    SlotTextIsJoin(args, argCnt);
    var list := RegisterList(i);
    if idx < |env.callSites| {
      var n, t := env.mnemonic(i), env.callSites[idx];
      assert Render(i, dex, env) == Ok((n + " ") + (list + " " + t));
      Assoc(n + " ", list + " ", t);
      Assoc(n + " ", list, " ");
    }
  }

  /** invoke-custom/range looks its call-site index up in the method table,
      not in the call-site table: an index the method table lacks fails
      with `MethodId` whatever the call-site table holds. */
  lemma InvokeCustomRangeUsesMethods(idx: U16, firstArg: U16, argCnt: U8, dex: Dex.Dex, env: Env)
    ensures var i := InvokeCustomRange(idx, firstArg, argCnt);
      idx >= |dex.methodIds| ==> Render(i, dex, env) == Err(MethodId(idx))
    ensures var i := InvokeCustomRange(idx, firstArg, argCnt);
      idx < |dex.methodIds| ==>
      var m := MethodIdItem.ToHumanReadable(dex.methodIds[idx], dex.types, dex.protoIds, dex.strings, env.protoText);
      Render(i, dex, env).Ok? <==> m.Ok?
  {
    var i := InvokeCustomRange(idx, firstArg, argCnt);
    assert Operands(i, RegisterList(i), dex, env) == After(RegisterList(i), MethodText(dex, env, idx));
  }

  /** invoke-polymorphic and its range form check the method index before
      the prototype index. */
  lemma PolymorphicLookupOrder(i: Instruction, methodIdx: U16, protoIdx: U16, args: RegArgs, firstArg: U16, argCnt: U8, dex: Dex.Dex, env: Env)
    requires i == InvokePolymorphic(methodIdx, protoIdx, args, argCnt) || i == InvokePolymorphicRange(methodIdx, protoIdx, firstArg, argCnt)
    ensures methodIdx >= |dex.methodIds| ==> Render(i, dex, env) == Err(MethodId(methodIdx))
    ensures methodIdx < |dex.methodIds| && protoIdx >= |dex.protoIds| ==> Render(i, dex, env) == Err(ProtoId(protoIdx))
  {
    assert Operands(i, RegisterList(i), dex, env) == PolymorphicText(dex, env, methodIdx, protoIdx, RegisterList(i));
  }

  /** Only a lookup can fail: an instruction whose operands are registers,
      literals and offsets always renders. */
  lemma OnlyLookupsFail(i: Instruction, dex: Dex.Dex, env: Env)
    ensures !UsesTable(i) ==> Render(i, dex, env).Ok?
  {
  }
}
