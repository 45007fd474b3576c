/** `type_list` of the Dalvik Executable format (src/dex/type_list.rs): a
    u32 count followed by that many 2-byte `type_item` entries. */
module TypeList {
  import opened Utils
  import opened RustTypes
  import opened Errors
  import Parse

  const NAME: string := "type_list"
  const ITEM_NAME: string := "type_item"
  const ITEM_SIZE: nat := 2

  datatype TypeItem = TypeItem(typeIdx: U16)

  datatype TypeList = TypeList(list: seq<TypeItem>)

  /** `TypeItem::parse_from_bytes`: the u16 at 0. */
  function ParseItem(buffer: Bytes): (r: TypeItem)
    requires |buffer| >= ITEM_SIZE
    ensures EncodeU16Le(r.typeIdx) == buffer[..ITEM_SIZE]
  {
    TypeItem(ReadU16Le(buffer, 0))
  }

  /** `TypeItem::try_parse_from_bytes`. */
  function TryParseItem(buffer: Bytes): (r: Result<TypeItem, DexParseError>)
    ensures r.Ok? <==> |buffer| >= ITEM_SIZE
    ensures r.Err? ==> r.error == InvalidElementSize(ITEM_NAME, ITEM_SIZE, |buffer|)
    ensures r.Ok? ==> r.value == ParseItem(buffer)
  {
    Parse.TryParseFromBytes(ITEM_NAME, ITEM_SIZE, ParseItem, buffer)
  }

  /** The parse, with its first length check asking for the 4 bytes of the
      count: too short for the count, too short for the items (the error
      names the size the items need), or exactly `size` items, item `i`
      being the u16 at 4 + 2i. */
  function TypeListOf(buffer: Bytes): (r: Result<TypeList, DexParseError>)
    ensures |buffer| < 4 ==> r == Err(InvalidElementSize(NAME, 4, |buffer|))
    ensures |buffer| >= 4 ==>
              var size := ReadU32Le(buffer, 0);
              (|buffer| < 4 + size * ITEM_SIZE ==> r == Err(InvalidElementSize(NAME, 4 + size * ITEM_SIZE, |buffer|))) &&
              (|buffer| >= 4 + size * ITEM_SIZE ==>
                 r.Ok? && |r.value.list| == size &&
                 forall i :: 0 <= i < size ==> EncodeU16Le(r.value.list[i].typeIdx) == buffer[4 + i * ITEM_SIZE..4 + i * ITEM_SIZE + 2])
  {
    if |buffer| < 4 then Err(InvalidElementSize(NAME, 4, |buffer|))
    else
      var size := ReadU32Le(buffer, 0);
      if |buffer| < 4 + size * ITEM_SIZE then Err(InvalidElementSize(NAME, 4 + size * ITEM_SIZE, |buffer|))
      else Ok(TypeList(seq(size, i requires 0 <= i < size => ParseItem(buffer[4 + i * ITEM_SIZE..]))))
  }

  /** `try_parse_from_bytes_unsized` with the corrected first check: the
      two length checks, then a loop that parses item `i` from offset
      4 + 2i. It is defined on every slice: no read goes out of bounds. */
  method TryParseFromBytesUnsized(buffer: Bytes) returns (r: Result<TypeList, DexParseError>)
    ensures r == TypeListOf(buffer)
  {
    if |buffer| < 4 {
      return Err(InvalidElementSize(NAME, 4, |buffer|));
    }
    var size := ReadU32Le(buffer, 0);
    if |buffer| < 4 + size * ITEM_SIZE {
      return Err(InvalidElementSize(NAME, 4 + size * ITEM_SIZE, |buffer|));
    }
    var list: seq<TypeItem> := [];
    for i := 0 to size
      invariant |list| == i
      invariant forall j :: 0 <= j < i ==> list[j] == ParseItem(buffer[4 + j * ITEM_SIZE..])
    {
      var offset := 4 + i * ITEM_SIZE;
      var item := TryParseItem(buffer[offset..]);
      // The `?` cannot fire: the second check leaves two bytes for every item.
      assert item.Ok?;
      list := list + [item.value];
    }
    assert list == seq(size, i requires 0 <= i < size => ParseItem(buffer[4 + i * ITEM_SIZE..]));
    return Ok(TypeList(list));
  }

  /** What a call of the parser can end in: a returned result, or a panic of
      an out-of-bounds slice read. */
  datatype Outcome = Returned(result: Result<TypeList, DexParseError>) | Panicked

  /** The first length check as written asks for 2 bytes, but the count is a
      u32 read at offset 0: 2- and 3-byte slices pass the check and the read
      panics. Past 4 bytes it behaves as the corrected parse. */
  function TryParseFromBytesUnsizedAsWritten(buffer: Bytes): (o: Outcome)
    ensures o.Panicked? <==> 2 <= |buffer| < 4
    ensures |buffer| < 2 ==> o == Returned(Err(InvalidElementSize(NAME, 2, |buffer|)))
    ensures |buffer| >= 4 ==> o == Returned(TypeListOf(buffer))
  {
    if |buffer| < 2 then Returned(Err(InvalidElementSize(NAME, 2, |buffer|)))
    else if |buffer| < 4 then Panicked
    else Returned(TypeListOf(buffer))
  }

  /** A 3-byte slice passes the check as written and then panics, where the
      corrected check reports it as too short. */
  lemma AsWrittenPanicsOnThreeBytes()
    ensures TryParseFromBytesUnsizedAsWritten([1, 0, 0]).Panicked?
    ensures TypeListOf([1, 0, 0]) == Err(InvalidElementSize(NAME, 4, 3))
  {
  }
}
