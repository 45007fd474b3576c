/** `FieldIdItem::parse_from_bytes` of the dex2smali crate
    (dex2smali/src/dex/field_id_item.rs): the same 8-byte `field_id_item`
    record as src/dex/field_id_item.rs, but checked against the buffer's
    length with an `UnexpectedEof` I/O error. */
module Dex2SmaliFieldIdItem {
  import opened Utils
  import opened RustTypes
  import opened Errors
  import FieldIdItem

  const TOO_SMALL: string := "Buffer too small to read FieldIdItem"

  /** `parse_from_bytes`: an `UnexpectedEof` error for fewer than 8 bytes,
      otherwise the record whose encoding is the first 8 bytes. */
  function ParseFromBytes(buffer: Bytes): (r: Result<FieldIdItem.FieldIdItem, IoError>)
    ensures r.Ok? <==> |buffer| >= FieldIdItem.SIZE
    ensures r.Err? ==> r.error == IoError(UnexpectedEof, TOO_SMALL)
    ensures r.Ok? ==> FieldIdItem.Encode(r.value) == buffer[..FieldIdItem.SIZE]
  {
    if |buffer| < 8 then Err(IoError(UnexpectedEof, TOO_SMALL))
    else
      var f := FieldIdItem.FieldIdItem(ReadU16Le(buffer, 0), ReadU16Le(buffer, 2), ReadU32Le(buffer, 4));
      assert buffer[..8] == buffer[0..2] + buffer[2..4] + buffer[4..8];
      Ok(f)
  }

  /** The two crates read the same record from every buffer long enough for
      one, and differ only in the error they give for a short one. */
  lemma AgreesWithLibrary(buffer: Bytes)
    ensures ParseFromBytes(buffer).Ok? <==> FieldIdItem.TryParseFromBytes(buffer).Ok?
    ensures ParseFromBytes(buffer).Ok? ==> ParseFromBytes(buffer).value == FieldIdItem.TryParseFromBytes(buffer).value
  {
  }

  /** Parsing an encoded record, whatever follows it, gives the record back. */
  lemma ParseEncode(f: FieldIdItem.FieldIdItem, rest: Bytes)
    ensures ParseFromBytes(FieldIdItem.Encode(f) + rest) == Ok(f)
  {
    FieldIdItem.ParseEncode(f, rest);
  }
}
