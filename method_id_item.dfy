/** `method_id_item` of the Dalvik Executable format
    (src/dex/method_id_item.rs): class index u16 at 0, prototype index u16
    at 2, name index u32 at 4; and its rendering `class->name(proto)`. */
module MethodIdItem {
  import opened Utils
  import opened RustTypes
  import opened Errors
  import Parse
  import ProtoIdItem

  const NAME: string := "method_id_item"
  const SIZE: nat := 8

  datatype MethodIdItem = MethodIdItem(classIdx: U16, protoIdx: U16, nameIdx: U32)

  /** The record's 8 bytes. */
  function Encode(m: MethodIdItem): (e: Bytes)
    ensures |e| == SIZE
  {
    EncodeU16Le(m.classIdx) + EncodeU16Le(m.protoIdx) + EncodeU32Le(m.nameIdx)
  }

  /** `parse_from_bytes`: the record whose encoding is the first 8 bytes. */
  function ParseFromBytes(buffer: Bytes): (r: MethodIdItem)
    requires |buffer| >= SIZE
    ensures Encode(r) == buffer[..SIZE]
  {
    var r := MethodIdItem(ReadU16Le(buffer, 0), ReadU16Le(buffer, 2), ReadU32Le(buffer, 4));
    assert buffer[..SIZE] == buffer[0..2] + buffer[2..4] + buffer[4..8];
    r
  }

  /** `try_parse_from_bytes` of the record. */
  function TryParseFromBytes(buffer: Bytes): (r: Result<MethodIdItem, DexParseError>)
    ensures r.Ok? <==> |buffer| >= SIZE
    ensures r.Err? ==> r.error == InvalidElementSize(NAME, SIZE, |buffer|)
    ensures r.Ok? ==> Encode(r.value) == buffer[..SIZE]
  {
    Parse.TryParseFromBytes(NAME, SIZE, ParseFromBytes, buffer)
  }

  /** Parsing an encoded record, whatever follows it, gives the record back. */
  lemma ParseEncode(m: MethodIdItem, rest: Bytes)
    ensures ParseFromBytes(Encode(m) + rest) == m
  {
    var b := Encode(m) + rest;
    assert b[..SIZE] == Encode(m);
    ReadU16LeOfEncode(b, 0, m.classIdx);
    ReadU16LeOfEncode(b, 2, m.protoIdx);
    ReadU32LeOfEncode(b, 4, m.nameIdx);
  }

  /** `to_human_readable`: the class descriptor, `->`, the method name and the
      prototype's own rendering (whose definition is not part of this model:
      `protoText` stands for it). The three lookups fail in the order class,
      prototype, name, and an error of the prototype's rendering is passed on. */
  function ToHumanReadable(m: MethodIdItem, types: seq<string>, protoIds: seq<ProtoIdItem.ProtoIdItem>, strings: seq<string>,
                           protoText: ProtoIdItem.ProtoIdItem -> Result<string, TableIdxError>): (r: Result<string, TableIdxError>)
    ensures m.classIdx >= |types| ==> r == Err(Type(m.classIdx))
    ensures m.classIdx < |types| && m.protoIdx >= |protoIds| ==> r == Err(ProtoId(m.protoIdx))
    ensures m.classIdx < |types| && m.protoIdx < |protoIds| && m.nameIdx >= |strings| ==> r == Err(String(m.nameIdx))
    ensures m.classIdx < |types| && m.protoIdx < |protoIds| && m.nameIdx < |strings| ==>
              var p := protoText(protoIds[m.protoIdx]);
              (p.Err? ==> r == Err(p.error)) &&
              (p.Ok? ==> r == Ok(types[m.classIdx] + "->" + strings[m.nameIdx] + p.value))
  {
    if m.classIdx >= |types| then Err(Type(m.classIdx))
    else if m.protoIdx >= |protoIds| then Err(ProtoId(m.protoIdx))
    else if m.nameIdx >= |strings| then Err(String(m.nameIdx))
    else
      match protoText(protoIds[m.protoIdx])
      case Err(e) => Err(e)
      case Ok(proto) => Ok(types[m.classIdx] + "->" + strings[m.nameIdx] + proto)
  }
}
