/** `method_handle_item` of the Dalvik Executable format
    (src/dex/method_handle_item.rs): 8 bytes of which the parser reads the
    handle type (u16 at 0) and the field or method id (u16 at 4); bytes 2-3
    and 6-7 are unused. */
module MethodHandleItem {
  import opened Utils
  import opened RustTypes
  import opened Errors
  import Parse

  const NAME: string := "method_handle_item"
  const SIZE: nat := 8

  datatype MethodHandleItem = MethodHandleItem(methodHandleType: U16, fieldOrMethodId: U16)

  /** `parse_from_bytes`: the two u16 values at 0 and 4. */
  function ParseFromBytes(buffer: Bytes): (r: MethodHandleItem)
    requires |buffer| >= SIZE
    ensures EncodeU16Le(r.methodHandleType) == buffer[0..2]
    ensures EncodeU16Le(r.fieldOrMethodId) == buffer[4..6]
  {
    MethodHandleItem(ReadU16Le(buffer, 0), ReadU16Le(buffer, 4))
  }

  /** `try_parse_from_bytes` of the record. */
  function TryParseFromBytes(buffer: Bytes): (r: Result<MethodHandleItem, DexParseError>)
    ensures r.Ok? <==> |buffer| >= SIZE
    ensures r.Err? ==> r.error == InvalidElementSize(NAME, SIZE, |buffer|)
    ensures r.Ok? ==> r.value == ParseFromBytes(buffer)
  {
    Parse.TryParseFromBytes(NAME, SIZE, ParseFromBytes, buffer)
  }

  /** Only bytes 0-1 and 4-5 matter: two slices that agree there parse alike. */
  lemma UnusedBytesIgnored(a: Bytes, b: Bytes)
    requires |a| >= SIZE && |b| >= SIZE
    requires a[0..2] == b[0..2] && a[4..6] == b[4..6]
    ensures ParseFromBytes(a) == ParseFromBytes(b)
  {
    ReadU16LeLocal(a, 0, b, 0);
    ReadU16LeLocal(a, 4, b, 4);
  }

  /** Whatever fills bytes 2-3 and 6-7, the two encoded ids are read back. */
  lemma ParseEncode(m: MethodHandleItem, pad1: Bytes, pad2: Bytes, rest: Bytes)
    requires |pad1| == 2 && |pad2| == 2
    ensures ParseFromBytes(EncodeU16Le(m.methodHandleType) + pad1 + EncodeU16Le(m.fieldOrMethodId) + pad2 + rest) == m
  {
    var b := EncodeU16Le(m.methodHandleType) + pad1 + EncodeU16Le(m.fieldOrMethodId) + pad2 + rest;
    ReadU16LeOfEncode(b, 0, m.methodHandleType);
    assert b[4..6] == EncodeU16Le(m.fieldOrMethodId);
    ReadU16LeOfEncode(b, 4, m.fieldOrMethodId);
  }
}
