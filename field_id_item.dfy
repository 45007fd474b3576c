/** `field_id_item` of the Dalvik Executable format
    (src/dex/field_id_item.rs): class index u16 at 0, type index u16 at 2,
    name index u32 at 4; and its rendering `class->name:type`. */
module FieldIdItem {
  import opened Utils
  import opened RustTypes
  import opened Errors
  import Parse

  const NAME: string := "field_id_item"
  const SIZE: nat := 8

  datatype FieldIdItem = FieldIdItem(classIdx: U16, typeIdx: U16, nameIdx: U32)

  /** The record's 8 bytes. */
  function Encode(f: FieldIdItem): (e: Bytes)
    ensures |e| == SIZE
  {
    EncodeU16Le(f.classIdx) + EncodeU16Le(f.typeIdx) + EncodeU32Le(f.nameIdx)
  }

  /** `parse_from_bytes`: the record whose encoding is the first 8 bytes. */
  function ParseFromBytes(buffer: Bytes): (r: FieldIdItem)
    requires |buffer| >= SIZE
    ensures Encode(r) == buffer[..SIZE]
  {
    var r := FieldIdItem(ReadU16Le(buffer, 0), ReadU16Le(buffer, 2), ReadU32Le(buffer, 4));
    assert buffer[..SIZE] == buffer[0..2] + buffer[2..4] + buffer[4..8];
    r
  }

  /** `try_parse_from_bytes` of the record. */
  function TryParseFromBytes(buffer: Bytes): (r: Result<FieldIdItem, DexParseError>)
    ensures r.Ok? <==> |buffer| >= SIZE
    ensures r.Err? ==> r.error == InvalidElementSize(NAME, SIZE, |buffer|)
    ensures r.Ok? ==> Encode(r.value) == buffer[..SIZE]
  {
    Parse.TryParseFromBytes(NAME, SIZE, ParseFromBytes, buffer)
  }

  /** Parsing an encoded record, whatever follows it, gives the record back. */
  lemma ParseEncode(f: FieldIdItem, rest: Bytes)
    ensures ParseFromBytes(Encode(f) + rest) == f
  {
    var b := Encode(f) + rest;
    assert b[..SIZE] == Encode(f);
    ReadU16LeOfEncode(b, 0, f.classIdx);
    ReadU16LeOfEncode(b, 2, f.typeIdx);
    ReadU32LeOfEncode(b, 4, f.nameIdx);
  }

  /** `to_human_readable`: class descriptor, `->`, field name, `:`, type
      descriptor. The lookups fail in the order class, type, name; a bad
      class index and a bad type index give the same `Type` error. */
  function ToHumanReadable(f: FieldIdItem, types: seq<string>, strings: seq<string>): (r: Result<string, TableIdxError>)
    ensures r.Ok? <==> f.classIdx < |types| && f.typeIdx < |types| && f.nameIdx < |strings|
    ensures f.classIdx >= |types| ==> r == Err(Type(f.classIdx))
    ensures f.classIdx < |types| && f.typeIdx >= |types| ==> r == Err(Type(f.typeIdx))
    ensures f.classIdx < |types| && f.typeIdx < |types| && f.nameIdx >= |strings| ==> r == Err(String(f.nameIdx))
    ensures r.Ok? ==> r.value == types[f.classIdx] + "->" + strings[f.nameIdx] + ":" + types[f.typeIdx]
  {
    if f.classIdx >= |types| then Err(Type(f.classIdx))
    else if f.typeIdx >= |types| then Err(Type(f.typeIdx))
    else if f.nameIdx >= |strings| then Err(String(f.nameIdx))
    else Ok(types[f.classIdx] + "->" + strings[f.nameIdx] + ":" + types[f.typeIdx])
  }
}
