/** `Dex::try_parse_from_bytes` (src/dex/mod.rs): after the header, the
    string, type, prototype, field, method and class-definition tables of a
    Dalvik Executable file, each read by a loop over its id count that keeps
    the entries that parse and skips the others. The header parser
    (src/dex/header_item.rs) is not part of this model: the caller passes it
    as `parseHeader`, and `String::from_utf8_lossy` as `lossy`. */
module Dex {
  import opened Utils
  import opened RustTypes
  import opened Errors
  import DexString
  import ProtoIdItem
  import FieldIdItem
  import MethodIdItem
  import ClassDefItem

  /** The header fields the table readers use: the size and file offset of
      each id table. */
  datatype HeaderItem = HeaderItem(
    stringIdsSize: U32, stringIdsOff: U32,
    typeIdsSize: U32, typeIdsOff: U32,
    protoIdsSize: U32, protoIdsOff: U32,
    fieldIdsSize: U32, fieldIdsOff: U32,
    methodIdsSize: U32, methodIdsOff: U32,
    classDefsSize: U32, classDefsOff: U32)

  datatype Dex = Dex(
    headerItem: HeaderItem,
    strings: seq<string>,
    types: seq<string>,
    protoIds: seq<ProtoIdItem.ProtoIdItem>,
    fieldIds: seq<FieldIdItem.FieldIdItem>,
    methodIds: seq<MethodIdItem.MethodIdItem>,
    classDefs: seq<ClassDefItem.ClassDefItem>)

  type HeaderParser = Bytes -> Result<HeaderItem, DexParseError>

  // Strings

  /** What `read_strings` needs not to panic: every `string_id_item` (a u32
      offset) lies in the buffer, and so does the string data it points to. */
  predicate StringIdsInBounds(buffer: Bytes, h: HeaderItem)
  {
    forall i :: 0 <= i < h.stringIdsSize ==>
      h.stringIdsOff + i * 4 + 4 <= |buffer| && ReadU32Le(buffer, h.stringIdsOff + i * 4) <= |buffer|
  }

  /** The result of reading string `i`. */
  function StringAt(buffer: Bytes, h: HeaderItem, lossy: Bytes -> string, i: nat): Result<string, IoError>
    requires StringIdsInBounds(buffer, h) && i < h.stringIdsSize
  {
    DexString.ReadStringFromBytes(buffer, ReadU32Le(buffer, h.stringIdsOff + i * 4), lossy)
  }

  /** The result of reading each string, in id order. */
  function StringResults(buffer: Bytes, h: HeaderItem, lossy: Bytes -> string): (rs: seq<Result<string, IoError>>)
    requires StringIdsInBounds(buffer, h)
    ensures |rs| == h.stringIdsSize
  {
    seq(h.stringIdsSize, i requires 0 <= i < h.stringIdsSize => StringAt(buffer, h, lossy, i))
  }

  /** One step of the `read_strings` loop: string `i` is kept exactly when
      reading it at the offset its id holds succeeds. */
  lemma ReadStringsStep(buffer: Bytes, h: HeaderItem, lossy: Bytes -> string, i: nat)
    requires StringIdsInBounds(buffer, h) && i < h.stringIdsSize
    ensures var rs := StringResults(buffer, h, lossy);
            var r := DexString.ReadStringFromBytes(buffer, ReadU32Le(buffer, h.stringIdsOff + i * 4), lossy);
            Kept(rs[..i + 1]) == Kept(rs[..i]) + if r.Ok? then [r.value] else []
  {
    var rs := StringResults(buffer, h, lossy);
    assert rs[i] == StringAt(buffer, h, lossy, i);
    KeptSnoc(rs, i);
  }

  /** `read_strings`: for each string id, read the string at the offset it
      holds and keep it when the read succeeds. */
  method ReadStrings(buffer: Bytes, h: HeaderItem, lossy: Bytes -> string) returns (strings: seq<string>)
    requires StringIdsInBounds(buffer, h)
    ensures strings == Kept(StringResults(buffer, h, lossy))
  {
    ghost var rs := StringResults(buffer, h, lossy);
    strings := [];
    for i := 0 to h.stringIdsSize
      invariant strings == Kept(rs[..i])
    {
      var stringDataOff := ReadU32Le(buffer, h.stringIdsOff + i * 4);
      var str := DexString.ReadStringFromBytes(buffer, stringDataOff, lossy);
      ReadStringsStep(buffer, h, lossy, i);
      if str.Ok? {
        strings := strings + [str.value];
      }
    }
    assert rs[..h.stringIdsSize] == rs;
  }

  // Types

  /** What `read_types` needs not to panic: every `type_id_item` lies in the
      buffer, and, as it reads the strings again for each type id, so do the
      strings when there is a type id. */
  predicate TypeIdsInBounds(buffer: Bytes, h: HeaderItem)
  {
    (h.typeIdsSize > 0 ==> StringIdsInBounds(buffer, h)) &&
    forall i :: 0 <= i < h.typeIdsSize ==> h.typeIdsOff + i * 4 + 4 <= |buffer|
  }

  /** `get(descriptor_idx)` on the string table: the string, or the index
      when it is out of range. */
  function Lookup(strings: seq<string>, idx: nat): Result<string, nat>
  {
    if idx < |strings| then Ok(strings[idx]) else Err(idx)
  }

  /** One step of the `read_types` loop: looking the index up keeps the
      string exactly when the index is in range. */
  lemma KeptLookupStep(rs: seq<Result<string, nat>>, i: nat, strings: seq<string>, idx: nat)
    requires i < |rs| && rs[i] == Lookup(strings, idx)
    ensures Kept(rs[..i + 1]) == Kept(rs[..i]) + if idx < |strings| then [strings[idx]] else []
  {
    KeptSnoc(rs, i);
  }

  /** The descriptor lookup of each type id, in id order. */
  function TypeResults(buffer: Bytes, h: HeaderItem, strings: seq<string>): (rs: seq<Result<string, nat>>)
    requires TypeIdsInBounds(buffer, h)
    ensures |rs| == h.typeIdsSize
    ensures forall i :: 0 <= i < |rs| ==> rs[i] == Lookup(strings, ReadU32Le(buffer, h.typeIdsOff + i * 4))
  {
    seq(h.typeIdsSize, i requires 0 <= i < h.typeIdsSize => Lookup(strings, ReadU32Le(buffer, h.typeIdsOff + i * 4)))
  }

  /** `read_types`: for each type id, read the strings again, look up the
      descriptor index and keep the descriptor when the index is in range
      (a warning is printed otherwise). */
  method ReadTypes(buffer: Bytes, h: HeaderItem, lossy: Bytes -> string) returns (types: seq<string>)
    requires TypeIdsInBounds(buffer, h)
    ensures h.typeIdsSize > 0 ==> types == Kept(TypeResults(buffer, h, Kept(StringResults(buffer, h, lossy))))
    ensures h.typeIdsSize == 0 ==> types == []
  {
    types := [];
    if h.typeIdsSize == 0 {
      return;
    }
    ghost var allStrings := Kept(StringResults(buffer, h, lossy));
    ghost var rs := TypeResults(buffer, h, allStrings);
    for i := 0 to h.typeIdsSize
      invariant types == Kept(rs[..i])
    {
      var descriptorIdx := ReadU32Le(buffer, h.typeIdsOff + i * 4);
      var strings := ReadStrings(buffer, h, lossy);
      assert rs[i] == Lookup(strings, descriptorIdx);
      KeptLookupStep(rs, i, strings, descriptorIdx);
      if descriptorIdx < |strings| {
        types := types + [strings[descriptorIdx]];
      }
    }
    assert rs[..h.typeIdsSize] == rs;
  }

  // Prototype, field, method and class-definition ids

  /** Every slice `buffer[offset..]` of a table with `size` entries of
      `stride` bytes from `off` starts inside the buffer. */
  predicate SuffixesInBounds(buffer: Bytes, off: nat, size: nat, stride: nat)
  {
    forall i :: 0 <= i < size ==> off + i * stride <= |buffer|
  }

  /** The result of parsing each entry of a table of `size` records of
      `stride` bytes at `off`, each from its start to the end of the buffer. */
  function SuffixResults<T, E>(parse: Bytes -> Result<T, E>, buffer: Bytes, off: nat, size: nat, stride: nat): (rs: seq<Result<T, E>>)
    requires SuffixesInBounds(buffer, off, size, stride)
    ensures |rs| == size
  {
    seq(size, i requires 0 <= i < size => parse(buffer[off + i * stride..]))
  }

  /** The loop of `read_proto_id_items`, `read_field_id_items` and
      `read_class_def_items`: parse each record from its offset to the end of
      the buffer, push it when it parses and skip it otherwise (an error is
      printed). */
  method ReadSuffixTable<T, E>(parse: Bytes -> Result<T, E>, buffer: Bytes, off: nat, size: nat, stride: nat) returns (items: seq<T>)
    requires SuffixesInBounds(buffer, off, size, stride)
    ensures items == Kept(SuffixResults(parse, buffer, off, size, stride))
  {
    ghost var rs := SuffixResults(parse, buffer, off, size, stride);
    items := [];
    for i := 0 to size
      invariant items == Kept(rs[..i])
    {
      var offset := off + i * stride;
      var r := parse(buffer[offset..]);
      KeptSnoc(rs, i);
      if r.Ok? {
        items := items + [r.value];
      }
    }
    assert rs[..size] == rs;
  }

  function ProtoIdResults(buffer: Bytes, h: HeaderItem): seq<Result<ProtoIdItem.ProtoIdItem, IoError>>
    requires SuffixesInBounds(buffer, h.protoIdsOff, h.protoIdsSize, 12)
  {
    SuffixResults(ProtoIdItem.TryParseFromBytes, buffer, h.protoIdsOff, h.protoIdsSize, 12)
  }

  /** `read_proto_id_items`: 12-byte records. */
  method ReadProtoIdItems(buffer: Bytes, h: HeaderItem) returns (protoIds: seq<ProtoIdItem.ProtoIdItem>)
    requires SuffixesInBounds(buffer, h.protoIdsOff, h.protoIdsSize, 12)
    ensures protoIds == Kept(ProtoIdResults(buffer, h))
  {
    protoIds := ReadSuffixTable(ProtoIdItem.TryParseFromBytes, buffer, h.protoIdsOff, h.protoIdsSize, 12);
  }

  function FieldIdResults(buffer: Bytes, h: HeaderItem): seq<Result<FieldIdItem.FieldIdItem, DexParseError>>
    requires SuffixesInBounds(buffer, h.fieldIdsOff, h.fieldIdsSize, 8)
  {
    SuffixResults(FieldIdItem.TryParseFromBytes, buffer, h.fieldIdsOff, h.fieldIdsSize, 8)
  }

  /** `read_field_id_items`: 8-byte records. */
  method ReadFieldIdItems(buffer: Bytes, h: HeaderItem) returns (fieldIds: seq<FieldIdItem.FieldIdItem>)
    requires SuffixesInBounds(buffer, h.fieldIdsOff, h.fieldIdsSize, 8)
    ensures fieldIds == Kept(FieldIdResults(buffer, h))
  {
    fieldIds := ReadSuffixTable(FieldIdItem.TryParseFromBytes, buffer, h.fieldIdsOff, h.fieldIdsSize, 8);
  }

  /** What `read_method_id_items` needs not to panic: every record lies
      wholly in the buffer, since it slices exactly eight bytes. */
  predicate MethodIdsInBounds(buffer: Bytes, h: HeaderItem)
  {
    forall i :: 0 <= i < h.methodIdsSize ==> h.methodIdsOff + i * 8 + 8 <= |buffer|
  }

  function MethodIdResults(buffer: Bytes, h: HeaderItem): (rs: seq<Result<MethodIdItem.MethodIdItem, DexParseError>>)
    requires MethodIdsInBounds(buffer, h)
    ensures |rs| == h.methodIdsSize
    ensures forall i :: 0 <= i < |rs| ==>
              var offset := h.methodIdsOff + i * 8;
              rs[i] == MethodIdItem.TryParseFromBytes(buffer[offset..offset + 8])
  {
    seq(h.methodIdsSize, i requires 0 <= i < h.methodIdsSize =>
      MethodIdItem.TryParseFromBytes(buffer[h.methodIdsOff + i * 8..h.methodIdsOff + i * 8 + 8]))
  }

  /** `read_method_id_items`: parse each record from exactly its eight bytes
      and keep those that parse. */
  method ReadMethodIdItems(buffer: Bytes, h: HeaderItem) returns (methodIds: seq<MethodIdItem.MethodIdItem>)
    requires MethodIdsInBounds(buffer, h)
    ensures methodIds == Kept(MethodIdResults(buffer, h))
  {
    ghost var rs := MethodIdResults(buffer, h);
    methodIds := [];
    for i := 0 to h.methodIdsSize
      invariant methodIds == Kept(rs[..i])
    {
      var offset := h.methodIdsOff + i * 8;
      var r := MethodIdItem.TryParseFromBytes(buffer[offset..offset + 8]);
      KeptSnoc(rs, i);
      if r.Ok? {
        methodIds := methodIds + [r.value];
      }
    }
    assert rs[..h.methodIdsSize] == rs;
  }

  function ClassDefResults(buffer: Bytes, h: HeaderItem): seq<Result<ClassDefItem.ClassDefItem, DexParseError>>
    requires SuffixesInBounds(buffer, h.classDefsOff, h.classDefsSize, 32)
  {
    SuffixResults(ClassDefItem.TryParseFromBytes, buffer, h.classDefsOff, h.classDefsSize, 32)
  }

  /** `read_class_def_items`: 32-byte records. */
  method ReadClassDefItems(buffer: Bytes, h: HeaderItem) returns (classDefs: seq<ClassDefItem.ClassDefItem>)
    requires SuffixesInBounds(buffer, h.classDefsOff, h.classDefsSize, 32)
    ensures classDefs == Kept(ClassDefResults(buffer, h))
  {
    classDefs := ReadSuffixTable(ClassDefItem.TryParseFromBytes, buffer, h.classDefsOff, h.classDefsSize, 32);
  }

  // The whole file

  /** What the six readers need not to panic. */
  predicate TablesInBounds(buffer: Bytes, h: HeaderItem)
  {
    StringIdsInBounds(buffer, h) && TypeIdsInBounds(buffer, h)
    && SuffixesInBounds(buffer, h.protoIdsOff, h.protoIdsSize, 12)
    && SuffixesInBounds(buffer, h.fieldIdsOff, h.fieldIdsSize, 8)
    && MethodIdsInBounds(buffer, h)
    && SuffixesInBounds(buffer, h.classDefsOff, h.classDefsSize, 32)
  }

  /** `try_parse_from_bytes`: the header, then the six tables; only a header
      error is returned, every table reader skips what it cannot parse. */
  method TryParseFromBytes(buffer: Bytes, parseHeader: HeaderParser, lossy: Bytes -> string) returns (r: Result<Dex, DexParseError>)
    requires parseHeader(buffer).Ok? ==> TablesInBounds(buffer, parseHeader(buffer).value)
    ensures r.Err? <==> parseHeader(buffer).Err?
    ensures r.Err? ==> r.error == parseHeader(buffer).error
    ensures r.Ok? ==>
              var h := parseHeader(buffer).value;
              var strings := Kept(StringResults(buffer, h, lossy));
              r.value.headerItem == h
              && r.value.strings == strings
              && r.value.types == (if h.typeIdsSize == 0 then [] else Kept(TypeResults(buffer, h, strings)))
              && r.value.protoIds == Kept(ProtoIdResults(buffer, h))
              && r.value.fieldIds == Kept(FieldIdResults(buffer, h))
              && r.value.methodIds == Kept(MethodIdResults(buffer, h))
              && r.value.classDefs == Kept(ClassDefResults(buffer, h))
  {
    var header := parseHeader(buffer);
    if header.Err? {
      return Err(header.error);
    }
    var h := header.value;
    var strings := ReadStrings(buffer, h, lossy);
    var types := ReadTypes(buffer, h, lossy);
    var protoIds := ReadProtoIdItems(buffer, h);
    var fieldIds := ReadFieldIdItems(buffer, h);
    var methodIds := ReadMethodIdItems(buffer, h);
    var classDefs := ReadClassDefItems(buffer, h);
    return Ok(Dex(h, strings, types, protoIds, fieldIds, methodIds, classDefs));
  }

  // Properties of the tables

  /** Every table keeps at most as many entries as its id count, and every
      entry it keeps is one that parsed, in file order. */
  lemma TablesNoLongerThanCounts(buffer: Bytes, h: HeaderItem, lossy: Bytes -> string)
    requires TablesInBounds(buffer, h)
    ensures |Kept(StringResults(buffer, h, lossy))| <= h.stringIdsSize
    ensures |Kept(TypeResults(buffer, h, Kept(StringResults(buffer, h, lossy))))| <= h.typeIdsSize
    ensures |Kept(ProtoIdResults(buffer, h))| <= h.protoIdsSize
    ensures |Kept(FieldIdResults(buffer, h))| <= h.fieldIdsSize
    ensures |Kept(MethodIdResults(buffer, h))| <= h.methodIdsSize
    ensures |Kept(ClassDefResults(buffer, h))| <= h.classDefsSize
  {
  }

  /** A method id record always has its eight bytes, so no method id is
      skipped: the table has one entry per id, each the record at its slot. */
  lemma {:induction false} MethodIdsComplete(buffer: Bytes, h: HeaderItem)
    requires MethodIdsInBounds(buffer, h)
    ensures |Kept(MethodIdResults(buffer, h))| == h.methodIdsSize
    ensures forall i :: 0 <= i < h.methodIdsSize ==>
              var offset := h.methodIdsOff + i * 8;
              Kept(MethodIdResults(buffer, h))[i] == MethodIdItem.ParseFromBytes(buffer[offset..offset + 8])
  {
    var rs := MethodIdResults(buffer, h);
    forall i | 0 <= i < |rs|
      ensures rs[i].Ok?
    {
      var offset := h.methodIdsOff + i * 8;
      assert |buffer[offset..offset + 8]| == MethodIdItem.SIZE;
    }
    KeptAllOk(rs);
    forall i | 0 <= i < h.methodIdsSize
      ensures var offset := h.methodIdsOff + i * 8;
              Kept(rs)[i] == MethodIdItem.ParseFromBytes(buffer[offset..offset + 8])
    {
      var offset := h.methodIdsOff + i * 8;
      var slice := buffer[offset..offset + 8];
      assert MethodIdItem.Encode(rs[i].value) + [] == slice;
      MethodIdItem.ParseEncode(rs[i].value, []);
    }
  }

  /** The descriptor index each type id holds, in id order. */
  function TypeIdxs(buffer: Bytes, h: HeaderItem): (idxs: seq<nat>)
    requires TypeIdsInBounds(buffer, h)
    ensures |idxs| == h.typeIdsSize
  {
    seq(h.typeIdsSize, i requires 0 <= i < h.typeIdsSize => ReadU32Le(buffer, h.typeIdsOff + i * 4) as nat)
  }

  /** The reference for the types table: the strings named by the indices
      that are in range of `strings`, in the order of the indices; an index
      past the end names nothing and is skipped. */
  function InRangeDescriptors(strings: seq<string>, idxs: seq<nat>): seq<string>
  {
    if idxs == [] then []
    else
      var last := idxs[|idxs| - 1];
      InRangeDescriptors(strings, idxs[..|idxs| - 1]) + if last < |strings| then [strings[last]] else []
  }

  /** Looking each index up and keeping the successes yields exactly the
      in-range descriptors, in order. */
  lemma {:induction false} KeptLookups(rs: seq<Result<string, nat>>, strings: seq<string>, idxs: seq<nat>)
    requires |rs| == |idxs|
    requires forall i :: 0 <= i < |rs| ==> rs[i] == Lookup(strings, idxs[i])
    ensures Kept(rs) == InRangeDescriptors(strings, idxs)
    decreases |rs|
  {
    if rs != [] {
      var n := |rs| - 1;
      KeptLookups(rs[..n], strings, idxs[..n]);
      KeptLookupStep(rs, n, strings, idxs[n]);
      assert rs[..n + 1] == rs;
    }
  }

  /** A type whose descriptor index is out of range of the string table is
      dropped: for every buffer, header and string table, the types kept are
      the strings the in-range indices name, in type-id order. */
  lemma OutOfRangeTypeSkipped(buffer: Bytes, h: HeaderItem, strings: seq<string>)
    requires TypeIdsInBounds(buffer, h)
    ensures Kept(TypeResults(buffer, h, strings)) == InRangeDescriptors(strings, TypeIdxs(buffer, h))
  {
    KeptLookups(TypeResults(buffer, h, strings), strings, TypeIdxs(buffer, h));
  }

  /** An instance: with one string and type descriptors 0 and 5 only the
      first type is kept. */
  lemma OutOfRangeTypeExample(s: string)
    ensures InRangeDescriptors([s], [0, 5]) == [s]
  {
    var idxs: seq<nat> := [0, 5];
    var first: seq<nat> := [0];
    assert idxs[..1] == first;
    assert first[..0] == [];
    assert InRangeDescriptors([s], [0]) == [s];
  }
}
