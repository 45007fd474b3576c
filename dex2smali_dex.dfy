/** `Dex::parse_from_bytes` of the dex2smali crate (dex2smali/src/dex/mod.rs):
    the header, then the string, type, method-id and class-definition tables,
    each read by a loop over its id count that keeps what parses; the
    prototype and field tables are not read. Two readers are not part of this
    model and are passed by the caller: `string::read_string_from_bytes` as
    `readString`, and `ClassDefItem::parse_from_bytes` (whose record type is
    a type parameter) as `parseClassDef`. The method-id reader is the
    `try_parse_from_bytes` of dex2smali/src/dex/method_id_item.rs, which the
    loop calls by the name `parse_from_bytes`. */
module Dex2SmaliDex {
  import opened Utils
  import opened RustTypes
  import opened Errors
  import opened Dex2SmaliHeader
  import MethodIdItem
  import Dex2SmaliMethodIdItem
  import Library = Dex

  datatype Dex<C> = Dex(
    strings: seq<string>,
    types: seq<string>,
    methodIds: seq<MethodIdItem.MethodIdItem>,
    classDefs: seq<C>)

  type StringReader = (Bytes, nat) -> Result<string, IoError>

  // Strings and types

  /** What `read_strings` needs not to panic: every `string_id_item` lies in
      the buffer. */
  predicate StringIdsInBounds(buffer: Bytes, h: HeaderItem)
  {
    forall i :: 0 <= i < h.stringIdsSize ==> h.stringIdsOff + i * 4 + 4 <= |buffer|
  }

  /** The result of reading each string, in id order. */
  function StringResults(buffer: Bytes, h: HeaderItem, readString: StringReader): (rs: seq<Result<string, IoError>>)
    requires StringIdsInBounds(buffer, h)
    ensures |rs| == h.stringIdsSize
    ensures forall i :: 0 <= i < |rs| ==> rs[i] == readString(buffer, ReadU32Le(buffer, h.stringIdsOff + i * 4))
  {
    seq(h.stringIdsSize, i requires 0 <= i < h.stringIdsSize => readString(buffer, ReadU32Le(buffer, h.stringIdsOff + i * 4)))
  }

  /** One step of the `read_strings` loop: string `i` is kept exactly when
      reading it at the offset its id holds succeeds. */
  lemma ReadStringsStep(buffer: Bytes, h: HeaderItem, readString: StringReader, i: nat)
    requires StringIdsInBounds(buffer, h) && i < h.stringIdsSize
    ensures var rs := StringResults(buffer, h, readString);
            var r := readString(buffer, ReadU32Le(buffer, h.stringIdsOff + i * 4));
            Kept(rs[..i + 1]) == Kept(rs[..i]) + if r.Ok? then [r.value] else []
  {
    KeptSnoc(StringResults(buffer, h, readString), i);
  }

  /** `read_strings`: for each string id, read the string at the offset it
      holds and keep it when the read succeeds. */
  method ReadStrings(buffer: Bytes, h: HeaderItem, readString: StringReader) returns (strings: seq<string>)
    requires StringIdsInBounds(buffer, h)
    ensures strings == Kept(StringResults(buffer, h, readString))
  {
    ghost var rs := StringResults(buffer, h, readString);
    strings := [];
    for i := 0 to h.stringIdsSize
      invariant strings == Kept(rs[..i])
    {
      var stringDataOff := ReadU32Le(buffer, h.stringIdsOff + i * 4);
      var str := readString(buffer, stringDataOff);
      ReadStringsStep(buffer, h, readString, i);
      if str.Ok? {
        strings := strings + [str.value];
      }
    }
    assert rs[..h.stringIdsSize] == rs;
  }

  /** What `read_types` needs not to panic: every `type_id_item` lies in the
      buffer and, as the strings are read again for each type id, so do the
      string ids when there is a type id. */
  predicate TypeIdsInBounds(buffer: Bytes, h: HeaderItem)
  {
    (h.typeIdsSize > 0 ==> StringIdsInBounds(buffer, h)) &&
    forall i :: 0 <= i < h.typeIdsSize ==> h.typeIdsOff + i * 4 + 4 <= |buffer|
  }

  /** The descriptor lookup of each type id, in id order. */
  function TypeResults(buffer: Bytes, h: HeaderItem, strings: seq<string>): (rs: seq<Result<string, nat>>)
    requires TypeIdsInBounds(buffer, h)
    ensures |rs| == h.typeIdsSize
    ensures forall i :: 0 <= i < |rs| ==> rs[i] == Library.Lookup(strings, ReadU32Le(buffer, h.typeIdsOff + i * 4))
  {
    seq(h.typeIdsSize, i requires 0 <= i < h.typeIdsSize => Library.Lookup(strings, ReadU32Le(buffer, h.typeIdsOff + i * 4)))
  }

  /** `read_types`: for each type id, read the strings again, look up the
      descriptor index and keep the descriptor when the index is in range
      (a warning is printed otherwise). */
  method ReadTypes(buffer: Bytes, h: HeaderItem, readString: StringReader) returns (types: seq<string>)
    requires TypeIdsInBounds(buffer, h)
    ensures h.typeIdsSize > 0 ==> types == Kept(TypeResults(buffer, h, Kept(StringResults(buffer, h, readString))))
    ensures h.typeIdsSize == 0 ==> types == []
  {
    types := [];
    if h.typeIdsSize == 0 {
      return;
    }
    ghost var allStrings := Kept(StringResults(buffer, h, readString));
    ghost var rs := TypeResults(buffer, h, allStrings);
    for i := 0 to h.typeIdsSize
      invariant types == Kept(rs[..i])
    {
      var descriptorIdx := ReadU32Le(buffer, h.typeIdsOff + i * 4);
      var strings := ReadStrings(buffer, h, readString);
      assert rs[i] == Library.Lookup(strings, descriptorIdx);
      Library.KeptLookupStep(rs, i, strings, descriptorIdx);
      if descriptorIdx < |strings| {
        types := types + [strings[descriptorIdx]];
      }
    }
    assert rs[..h.typeIdsSize] == rs;
  }

  // Method ids and class definitions

  /** Every record of a table of `size` records of `stride` bytes at `off`
      lies wholly in the buffer, as the loops slice exactly `stride` bytes. */
  predicate SlicesInBounds(buffer: Bytes, off: nat, size: nat, stride: nat)
  {
    forall i :: 0 <= i < size ==> off + i * stride + stride <= |buffer|
  }

  /** The result of parsing each record from exactly its `stride` bytes. */
  function SliceResults<T, E>(parse: Bytes -> Result<T, E>, buffer: Bytes, off: nat, size: nat, stride: nat): (rs: seq<Result<T, E>>)
    requires SlicesInBounds(buffer, off, size, stride)
    ensures |rs| == size
  {
    seq(size, i requires 0 <= i < size => parse(buffer[off + i * stride..off + i * stride + stride]))
  }

  /** The loop of `read_method_id_items` and `read_class_def_items`: parse
      each record from exactly its bytes, push it when it parses and skip it
      otherwise (an error is printed). */
  method ReadSliceTable<T, E>(parse: Bytes -> Result<T, E>, buffer: Bytes, off: nat, size: nat, stride: nat) returns (items: seq<T>)
    requires SlicesInBounds(buffer, off, size, stride)
    ensures items == Kept(SliceResults(parse, buffer, off, size, stride))
  {
    ghost var rs := SliceResults(parse, buffer, off, size, stride);
    items := [];
    for i := 0 to size
      invariant items == Kept(rs[..i])
    {
      var offset := off + i * stride;
      var r := parse(buffer[offset..offset + stride]);
      KeptSnoc(rs, i);
      if r.Ok? {
        items := items + [r.value];
      }
    }
    assert rs[..size] == rs;
  }

  function MethodIdResults(buffer: Bytes, h: HeaderItem): seq<Result<MethodIdItem.MethodIdItem, IoError>>
    requires SlicesInBounds(buffer, h.methodIdsOff, h.methodIdsSize, 8)
  {
    SliceResults(Dex2SmaliMethodIdItem.TryParseFromBytes, buffer, h.methodIdsOff, h.methodIdsSize, 8)
  }

  /** `read_method_id_items`: 8-byte records. */
  method ReadMethodIdItems(buffer: Bytes, h: HeaderItem) returns (methodIds: seq<MethodIdItem.MethodIdItem>)
    requires SlicesInBounds(buffer, h.methodIdsOff, h.methodIdsSize, 8)
    ensures methodIds == Kept(MethodIdResults(buffer, h))
  {
    methodIds := ReadSliceTable(Dex2SmaliMethodIdItem.TryParseFromBytes, buffer, h.methodIdsOff, h.methodIdsSize, 8);
  }

  /** `read_class_def_items`: 32-byte records. */
  method ReadClassDefItems<C>(buffer: Bytes, h: HeaderItem, parseClassDef: Bytes -> Result<C, IoError>) returns (classDefs: seq<C>)
    requires SlicesInBounds(buffer, h.classDefsOff, h.classDefsSize, 32)
    ensures classDefs == Kept(SliceResults(parseClassDef, buffer, h.classDefsOff, h.classDefsSize, 32))
  {
    classDefs := ReadSliceTable(parseClassDef, buffer, h.classDefsOff, h.classDefsSize, 32);
  }

  // The whole file

  /** What the four readers need not to panic. */
  predicate TablesInBounds(buffer: Bytes, h: HeaderItem)
  {
    StringIdsInBounds(buffer, h) && TypeIdsInBounds(buffer, h)
    && SlicesInBounds(buffer, h.methodIdsOff, h.methodIdsSize, 8)
    && SlicesInBounds(buffer, h.classDefsOff, h.classDefsSize, 32)
  }

  /** `parse_from_bytes`: the header, then the four tables; only the header's
      error is returned, every table reader skips what it cannot read. */
  method ParseFromBytes<C>(buffer: Bytes, readString: StringReader, parseClassDef: Bytes -> Result<C, IoError>) returns (r: Result<Dex<C>, IoError>)
    requires |buffer| >= SIZE ==> TablesInBounds(buffer, Dex2SmaliHeader.ParseFromBytes(buffer).value)
    ensures r.Err? <==> |buffer| < SIZE
    ensures r.Err? ==> r.error == IoError(InvalidData, TOO_SMALL)
    ensures r.Ok? ==>
              var h := Dex2SmaliHeader.ParseFromBytes(buffer).value;
              var strings := Kept(StringResults(buffer, h, readString));
              r.value.strings == strings
              && r.value.types == (if h.typeIdsSize == 0 then [] else Kept(TypeResults(buffer, h, strings)))
              && r.value.methodIds == Kept(MethodIdResults(buffer, h))
              && r.value.classDefs == Kept(SliceResults(parseClassDef, buffer, h.classDefsOff, h.classDefsSize, 32))
  {
    var header := Dex2SmaliHeader.ParseFromBytes(buffer);
    if header.Err? {
      return Err(header.error);
    }
    var h := header.value;
    var strings := ReadStrings(buffer, h, readString);
    var types := ReadTypes(buffer, h, readString);
    var methodIds := ReadMethodIdItems(buffer, h);
    var classDefs := ReadClassDefItems(buffer, h, parseClassDef);
    return Ok(Dex(strings, types, methodIds, classDefs));
  }

  // Properties of the tables

  /** A method id record always has its eight bytes, so no method id is
      skipped: the table has one entry per id, the record whose encoding is
      the id's eight bytes. */
  lemma {:induction false} MethodIdsComplete(buffer: Bytes, h: HeaderItem)
    requires SlicesInBounds(buffer, h.methodIdsOff, h.methodIdsSize, 8)
    ensures |Kept(MethodIdResults(buffer, h))| == h.methodIdsSize
    ensures forall i :: 0 <= i < h.methodIdsSize ==>
              var offset := h.methodIdsOff + i * 8;
              MethodIdItem.Encode(Kept(MethodIdResults(buffer, h))[i]) == buffer[offset..offset + 8]
  {
    var rs := MethodIdResults(buffer, h);
    forall i | 0 <= i < |rs|
      ensures rs[i].Ok? && MethodIdItem.Encode(rs[i].value) == buffer[h.methodIdsOff + i * 8..h.methodIdsOff + i * 8 + 8]
    {
      var offset := h.methodIdsOff + i * 8;
      var slice := buffer[offset..offset + 8];
      assert rs[i] == Dex2SmaliMethodIdItem.TryParseFromBytes(slice);
      assert |slice| == MethodIdItem.SIZE;
      assert slice[..MethodIdItem.SIZE] == slice;
    }
    KeptAllOk(rs);
  }

  /** The descriptor index each type id holds, in id order. */
  function TypeIdxs(buffer: Bytes, h: HeaderItem): (idxs: seq<nat>)
    requires TypeIdsInBounds(buffer, h)
    ensures |idxs| == h.typeIdsSize
  {
    seq(h.typeIdsSize, i requires 0 <= i < h.typeIdsSize => ReadU32Le(buffer, h.typeIdsOff + i * 4) as nat)
  }

  /** This crate's types table meets the library's reference: the types kept
      are the strings the in-range descriptor indices name, in type-id order,
      so with the same type ids and string table both crates keep the same
      types. */
  lemma TypesAreInRangeDescriptors(buffer: Bytes, h: HeaderItem, strings: seq<string>)
    requires TypeIdsInBounds(buffer, h)
    ensures Kept(TypeResults(buffer, h, strings)) == Library.InRangeDescriptors(strings, TypeIdxs(buffer, h))
  {
    Library.KeptLookups(TypeResults(buffer, h, strings), strings, TypeIdxs(buffer, h));
  }

  /** Every type descriptor kept is one of the strings it was looked up in. */
  lemma TypesAreStrings(buffer: Bytes, h: HeaderItem, strings: seq<string>)
    requires TypeIdsInBounds(buffer, h)
    ensures forall t :: t in Kept(TypeResults(buffer, h, strings)) ==> t in strings
  {
    var rs := TypeResults(buffer, h, strings);
    KeptIsOrderedSubsequence(rs);
    forall t | t in Kept(rs)
      ensures t in strings
    {
      var k :| 0 <= k < |Kept(rs)| && Kept(rs)[k] == t;
      var i := KeptPositions(rs)[k];
      var idx := ReadU32Le(buffer, h.typeIdsOff + i * 4);
      assert rs[i] == Ok(t);
      assert rs[i] == Library.Lookup(strings, idx);
      assert idx < |strings| && strings[idx] == t;
    }
  }
}
