/** `proto_id_item` of the Dalvik Executable format
    (src/dex/proto_id_item.rs): three little-endian u32 fields, parsed with
    its own length check that reports an I/O error. */
module ProtoIdItem {
  import opened Utils
  import opened RustTypes
  import opened Errors

  const SIZE: nat := 12

  datatype ProtoIdItem = ProtoIdItem(shortyIdx: U32, returnTypeIdx: U32, parametersOff: U32)

  /** The record's 12 bytes. */
  function Encode(p: ProtoIdItem): (e: Bytes)
    ensures |e| == SIZE
  {
    EncodeU32Le(p.shortyIdx) + EncodeU32Le(p.returnTypeIdx) + EncodeU32Le(p.parametersOff)
  }

  /** `try_parse_from_bytes`: an `InvalidData` error for fewer than 12
      bytes, otherwise the record whose encoding is the first 12 bytes. */
  function TryParseFromBytes(buffer: Bytes): (r: Result<ProtoIdItem, IoError>)
    ensures r.Ok? <==> |buffer| >= SIZE
    ensures r.Err? ==> r.error == IoError(InvalidData, "Buffer too short to parse ProtoIdItem")
    ensures r.Ok? ==> Encode(r.value) == buffer[..SIZE]
  {
    if |buffer| < SIZE then Err(IoError(InvalidData, "Buffer too short to parse ProtoIdItem"))
    else
      var r := ProtoIdItem(ReadU32Le(buffer, 0), ReadU32Le(buffer, 4), ReadU32Le(buffer, 8));
      assert buffer[..SIZE] == buffer[0..4] + buffer[4..8] + buffer[8..12];
      Ok(r)
  }

  /** Parsing an encoded record, whatever follows it, gives the record back. */
  lemma ParseEncode(p: ProtoIdItem, rest: Bytes)
    ensures TryParseFromBytes(Encode(p) + rest) == Ok(p)
  {
    var b := Encode(p) + rest;
    assert b[..SIZE] == Encode(p);
    ReadU32LeOfEncode(b, 0, p.shortyIdx);
    ReadU32LeOfEncode(b, 4, p.returnTypeIdx);
    ReadU32LeOfEncode(b, 8, p.parametersOff);
  }
}
