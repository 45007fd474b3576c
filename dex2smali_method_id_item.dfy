/** `MethodIdItem::try_parse_from_bytes` of the dex2smali crate
    (dex2smali/src/dex/method_id_item.rs): the same 8-byte `method_id_item`
    record as src/dex/method_id_item.rs, but checked against the buffer's
    length with an `UnexpectedEof` I/O error. */
module Dex2SmaliMethodIdItem {
  import opened Utils
  import opened RustTypes
  import opened Errors
  import MethodIdItem

  const TOO_SMALL: string := "Buffer too small to read MethodIdItem"

  /** `try_parse_from_bytes`: an `UnexpectedEof` error for fewer than 8 bytes,
      otherwise the record whose encoding is the first 8 bytes. */
  function TryParseFromBytes(buffer: Bytes): (r: Result<MethodIdItem.MethodIdItem, IoError>)
    ensures r.Ok? <==> |buffer| >= MethodIdItem.SIZE
    ensures r.Err? ==> r.error == IoError(UnexpectedEof, TOO_SMALL)
    ensures r.Ok? ==> MethodIdItem.Encode(r.value) == buffer[..MethodIdItem.SIZE]
  {
    if |buffer| < 8 then Err(IoError(UnexpectedEof, TOO_SMALL))
    else
      var m := MethodIdItem.MethodIdItem(ReadU16Le(buffer, 0), ReadU16Le(buffer, 2), ReadU32Le(buffer, 4));
      assert buffer[..8] == buffer[0..2] + buffer[2..4] + buffer[4..8];
      Ok(m)
  }

  /** The two crates read the same record from every buffer long enough for
      one, and differ only in the error they give for a short one. */
  lemma AgreesWithLibrary(buffer: Bytes)
    ensures TryParseFromBytes(buffer).Ok? <==> MethodIdItem.TryParseFromBytes(buffer).Ok?
    ensures TryParseFromBytes(buffer).Ok? ==> TryParseFromBytes(buffer).value == MethodIdItem.TryParseFromBytes(buffer).value
  {
  }

  /** Parsing an encoded record, whatever follows it, gives the record back. */
  lemma ParseEncode(m: MethodIdItem.MethodIdItem, rest: Bytes)
    ensures TryParseFromBytes(MethodIdItem.Encode(m) + rest) == Ok(m)
  {
    MethodIdItem.ParseEncode(m, rest);
  }
}
