/** `class_def_item` of the Dalvik Executable format (src/dex/class_def_item.rs):
    eight little-endian u32 fields, 32 bytes in all. */
module ClassDefItem {
  import opened Utils
  import opened RustTypes
  import opened Errors
  import Parse

  const NAME: string := "class_def_item"
  const SIZE: nat := 32

  datatype ClassDefItem = ClassDefItem(
    classIdx: U32,
    accessFlags: U32,
    superclassIdx: U32,
    interfacesOff: U32,
    sourceFileIdx: U32,
    annotationsOff: U32,
    classDataOff: U32,
    staticValuesOff: U32)

  /** The record's 32 bytes: its fields in declaration order, each as a
      little-endian u32. */
  function Encode(c: ClassDefItem): (e: Bytes)
    ensures |e| == SIZE
  {
    EncodeU32Le(c.classIdx) + EncodeU32Le(c.accessFlags) + EncodeU32Le(c.superclassIdx) + EncodeU32Le(c.interfacesOff)
    + EncodeU32Le(c.sourceFileIdx) + EncodeU32Le(c.annotationsOff) + EncodeU32Le(c.classDataOff) + EncodeU32Le(c.staticValuesOff)
  }

  /** `parse_from_bytes`: the record whose encoding is the first 32 bytes;
      the bytes after them play no part. */
  function ParseFromBytes(buffer: Bytes): (r: ClassDefItem)
    requires |buffer| >= SIZE
    ensures Encode(r) == buffer[..SIZE]
  {
    var r := ClassDefItem(ReadU32Le(buffer, 0), ReadU32Le(buffer, 4), ReadU32Le(buffer, 8), ReadU32Le(buffer, 12),
                          ReadU32Le(buffer, 16), ReadU32Le(buffer, 20), ReadU32Le(buffer, 24), ReadU32Le(buffer, 28));
    assert buffer[..SIZE] == buffer[0..4] + buffer[4..8] + buffer[8..12] + buffer[12..16]
                             + buffer[16..20] + buffer[20..24] + buffer[24..28] + buffer[28..32];
    r
  }

  /** `try_parse_from_bytes` of the record. */
  function TryParseFromBytes(buffer: Bytes): (r: Result<ClassDefItem, DexParseError>)
    ensures r.Ok? <==> |buffer| >= SIZE
    ensures r.Err? ==> r.error == InvalidElementSize(NAME, SIZE, |buffer|)
    ensures r.Ok? ==> Encode(r.value) == buffer[..SIZE]
  {
    Parse.TryParseFromBytes(NAME, SIZE, ParseFromBytes, buffer)
  }

  /** Parsing an encoded record, whatever follows it, gives the record back. */
  lemma ParseEncode(c: ClassDefItem, rest: Bytes)
    ensures ParseFromBytes(Encode(c) + rest) == c
  {
    var b := Encode(c) + rest;
    assert b[..SIZE] == Encode(c);
    var e := Encode(c);
    ReadU32LeOfEncode(b, 0, c.classIdx);
    ReadU32LeOfEncode(b, 4, c.accessFlags);
    ReadU32LeOfEncode(b, 8, c.superclassIdx);
    ReadU32LeOfEncode(b, 12, c.interfacesOff);
    ReadU32LeOfEncode(b, 16, c.sourceFileIdx);
    ReadU32LeOfEncode(b, 20, c.annotationsOff);
    ReadU32LeOfEncode(b, 24, c.classDataOff);
    ReadU32LeOfEncode(b, 28, c.staticValuesOff);
  }
}
