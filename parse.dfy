/** The `TryParseFromBytes` trait (src/traits/parse.rs): a fixed-size record
    is parsed only after the slice is checked to hold at least `SIZE` bytes.
    The trait becomes a generic function over the record's `NAME`, `SIZE` and
    `parse_from_bytes`, which may assume at least `SIZE` bytes. */
module Parse {
  import opened Utils
  import opened RustTypes
  import opened Errors

  /** `parse_from_bytes` may be called on any slice of at least `size` bytes. */
  ghost predicate ParsesAtLeast<T>(size: nat, parse: Bytes --> T)
  {
    forall b: Bytes :: size <= |b| ==> parse.requires(b)
  }

  /** `try_parse_from_bytes`: too short a slice is an `InvalidElementSize`
      error naming the record, the size it needs and the size it got;
      otherwise the record parsed from the slice. */
  function TryParseFromBytes<T>(name: string, size: nat, parse: Bytes --> T, buffer: Bytes): (r: Result<T, DexParseError>)
    requires ParsesAtLeast(size, parse)
    ensures r.Ok? <==> |buffer| >= size
    ensures r.Err? ==> r.error == InvalidElementSize(name, size, |buffer|)
    ensures r.Ok? ==> r.value == parse(buffer)
  {
    if |buffer| < size then Err(InvalidElementSize(name, size, |buffer|))
    else Ok(parse(buffer))
  }
}
