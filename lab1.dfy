/** The first lab's stand-alone DEX reader (lab1/src/main.rs): the header,
    the string table, the type ids, the class definitions and the four counts
    of a `class_data_item`. Its `decode_uleb128` is the same code as that of
    src/utils.rs and is modelled once, by `Utils.DecodeUleb128`; its
    `read_u32_le` is `Utils.ReadU32Le`. `String::from_utf8_lossy` is passed
    by the caller as `lossy`. */
module Lab1 {
  import opened Utils
  import opened RustTypes
  import opened Errors
  import DexString
  import ClassDefItem
  import ClassDataItem
  import Dex2SmaliHeader
  import Library = Dex

  // Header

  /** `DexHeader`: the 112-byte header without the two version-41 fields. */
  datatype DexHeader = DexHeader(
    magic: Dex2SmaliHeader.Magic,
    checksum: U32,
    signature: Dex2SmaliHeader.Signature,
    fileSize: U32,
    headerSize: U32,
    endianTag: U32,
    linkSize: U32,
    linkOff: U32,
    mapOff: U32,
    stringIdsSize: U32,
    stringIdsOff: U32,
    typeIdsSize: U32,
    typeIdsOff: U32,
    protoIdsSize: U32,
    protoIdsOff: U32,
    fieldIdsSize: U32,
    fieldIdsOff: U32,
    methodIdsSize: U32,
    methodIdsOff: U32,
    classDefsSize: U32,
    classDefsOff: U32,
    dataSize: U32,
    dataOff: U32)

  /** `parse_dex_header`: an `InvalidData` error when the buffer has fewer
      than 112 bytes, otherwise the fields at their fixed offsets. */
  function ParseDexHeader(buffer: Bytes): (r: Result<DexHeader, IoError>)
    ensures r.Ok? <==> |buffer| >= Dex2SmaliHeader.SIZE
    ensures r.Err? ==> r.error == IoError(InvalidData, Dex2SmaliHeader.TOO_SMALL)
    ensures r.Ok? ==> r.value.magic == buffer[0..8] && r.value.signature == buffer[12..32]
  {
    if |buffer| < 112 then Err(IoError(InvalidData, Dex2SmaliHeader.TOO_SMALL))
    else
      var b := buffer[..112];
      Ok(DexHeader(b[0..8], ReadU32Le(b, 8), b[12..32],
        ReadU32Le(b, 32), ReadU32Le(b, 36), ReadU32Le(b, 40), ReadU32Le(b, 44), ReadU32Le(b, 48), ReadU32Le(b, 52),
        ReadU32Le(b, 56), ReadU32Le(b, 60), ReadU32Le(b, 64), ReadU32Le(b, 68), ReadU32Le(b, 72), ReadU32Le(b, 76),
        ReadU32Le(b, 80), ReadU32Le(b, 84), ReadU32Le(b, 88), ReadU32Le(b, 92), ReadU32Le(b, 96), ReadU32Le(b, 100),
        ReadU32Le(b, 104), ReadU32Le(b, 108)))
  }

  /** The header without the two fields of version 41. */
  function WithoutVersion41(h: Dex2SmaliHeader.HeaderItem): DexHeader
  {
    DexHeader(h.magic, h.checksum, h.signature, h.fileSize, h.headerSize, h.endianTag, h.linkSize, h.linkOff, h.mapOff,
      h.stringIdsSize, h.stringIdsOff, h.typeIdsSize, h.typeIdsOff, h.protoIdsSize, h.protoIdsOff,
      h.fieldIdsSize, h.fieldIdsOff, h.methodIdsSize, h.methodIdsOff, h.classDefsSize, h.classDefsOff,
      h.dataSize, h.dataOff)
  }

  /** The lab's header parser and dex2smali's accept the same buffers, give
      the same error, and read the same fields: the header is the one whose
      encoding is the first 112 bytes. */
  lemma HeaderAgreesWithDex2Smali(buffer: Bytes)
    ensures ParseDexHeader(buffer).Ok? <==> Dex2SmaliHeader.ParseFromBytes(buffer).Ok?
    ensures ParseDexHeader(buffer).Err? ==> ParseDexHeader(buffer).error == Dex2SmaliHeader.ParseFromBytes(buffer).error
    ensures ParseDexHeader(buffer).Ok? ==> ParseDexHeader(buffer).value == WithoutVersion41(Dex2SmaliHeader.ParseFromBytes(buffer).value)
  {
  }

  // Strings

  const LENGTH_ERROR: string := "Failed to decode ULEB128 for string length"

  /** What `read_dex_strings` needs not to panic: every string id lies in the
      buffer and so does the offset it holds. */
  predicate StringIdsInBounds(buffer: Bytes, h: DexHeader)
  {
    forall i :: 0 <= i < h.stringIdsSize ==>
      h.stringIdsOff + i * 4 + 4 <= |buffer| && ReadU32Le(buffer, h.stringIdsOff + i * 4) <= |buffer|
  }

  /** The string data offsets the first loop collects. */
  function StringOffsets(buffer: Bytes, h: DexHeader): (offsets: seq<nat>)
    requires StringIdsInBounds(buffer, h)
    ensures |offsets| == h.stringIdsSize
    ensures forall i :: 0 <= i < |offsets| ==> offsets[i] == ReadU32Le(buffer, h.stringIdsOff + i * 4)
  {
    seq(h.stringIdsSize, i requires 0 <= i < h.stringIdsSize => ReadU32Le(buffer, h.stringIdsOff + i * 4))
  }

  /** One step of the second loop: an error that ends the whole read when
      the length does not decode; nothing when the bytes after the length
      hold no NUL (the string is skipped); otherwise the bytes up to the NUL.
      The decoded length is compared with the string's UTF-16 length only
      for a warning. */
  function StringStep(buffer: Bytes, offset: nat, lossy: Bytes -> string): Result<Option<string>, IoError>
    requires offset <= |buffer|
  {
    match Uleb128(buffer[offset..])
    case None => Err(IoError(InvalidData, LENGTH_ERROR))
    case Some((_, lenSize)) =>
      UlebUsedBound(buffer[offset..]);
      match DexString.UntilNul(buffer[offset + lenSize..])
      case None => Ok(None)
      case Some(bytes) => Ok(Some(lossy(bytes)))
  }

  /** The second loop from offset `k` on, with `strings` read before it:
      the first error, or those strings followed by each later step's
      string, in order. */
  function ReadFrom(buffer: Bytes, offsets: seq<nat>, k: nat, strings: seq<string>, lossy: Bytes -> string): Result<seq<string>, IoError>
    requires forall i :: 0 <= i < |offsets| ==> offsets[i] <= |buffer|
    requires k <= |offsets|
    decreases |offsets| - k
  {
    if k == |offsets| then Ok(strings)
    else
      match StringStep(buffer, offsets[k], lossy)
      case Err(e) => Err(e)
      case Ok(None) => ReadFrom(buffer, offsets, k + 1, strings, lossy)
      case Ok(Some(s)) => ReadFrom(buffer, offsets, k + 1, strings + [s], lossy)
  }

  /** The whole second loop. */
  function ReadAll(buffer: Bytes, offsets: seq<nat>, lossy: Bytes -> string): Result<seq<string>, IoError>
    requires forall i :: 0 <= i < |offsets| ==> offsets[i] <= |buffer|
  {
    ReadFrom(buffer, offsets, 0, [], lossy)
  }

  /** `read_dex_strings`: collect the string data offsets, then read each
      string, skipping those without a NUL and failing on a length that
      does not decode. */
  method ReadDexStrings(buffer: Bytes, h: DexHeader, lossy: Bytes -> string) returns (r: Result<seq<string>, IoError>)
    requires StringIdsInBounds(buffer, h)
    ensures r == ReadAll(buffer, StringOffsets(buffer, h), lossy)
  {
    ghost var all := StringOffsets(buffer, h);
    var stringOffsets: seq<nat> := [];
    for i := 0 to h.stringIdsSize
      invariant stringOffsets == all[..i]
    {
      var offset := h.stringIdsOff + i * 4;
      var strDataOff := ReadU32Le(buffer, offset) as nat;
      stringOffsets := stringOffsets + [strDataOff];
    }
    assert stringOffsets == all;
    r := ReadStringsAt(buffer, stringOffsets, lossy);
  }

  /** The second loop of `read_dex_strings`, over the collected offsets. */
  method ReadStringsAt(buffer: Bytes, stringOffsets: seq<nat>, lossy: Bytes -> string) returns (r: Result<seq<string>, IoError>)
    requires forall i :: 0 <= i < |stringOffsets| ==> stringOffsets[i] <= |buffer|
    ensures r == ReadAll(buffer, stringOffsets, lossy)
  {
    var strings: seq<string> := [];
    for k := 0 to |stringOffsets|
      invariant ReadAll(buffer, stringOffsets, lossy) == ReadFrom(buffer, stringOffsets, k, strings, lossy)
    {
      var offset := stringOffsets[k];
      var step := StringStep(buffer, offset, lossy);
      if step.Err? {
        return Err(step.error);
      }
      if step.value.None? {
        continue;
      }
      strings := strings + [step.value.value];
    }
    return Ok(strings);
  }

  /** A step of the lab's reader against src/dex/string.rs: the same string
      when that succeeds; the same error when the length does not decode;
      and a skipped string where that one reports a missing NUL. */
  lemma StepAgreesWithLibrary(buffer: Bytes, offset: nat, lossy: Bytes -> string)
    requires offset <= |buffer|
    ensures var lib := DexString.ReadStringFromBytes(buffer, offset, lossy);
            (lib.Ok? ==> StringStep(buffer, offset, lossy) == Ok(Some(lib.value)))
            && (lib.Err? && Uleb128(buffer[offset..]).None? ==> StringStep(buffer, offset, lossy) == Err(lib.error))
            && (lib.Err? && Uleb128(buffer[offset..]).Some? ==> StringStep(buffer, offset, lossy) == Ok(None))
  {
  }

  /** The read keeps at most one string per offset, and exactly one when
      every step finds a string. */
  lemma ReadAllLength(buffer: Bytes, offsets: seq<nat>, lossy: Bytes -> string)
    requires forall i :: 0 <= i < |offsets| ==> offsets[i] <= |buffer|
    ensures ReadAll(buffer, offsets, lossy).Ok? ==> |ReadAll(buffer, offsets, lossy).value| <= |offsets|
    ensures (forall i :: 0 <= i < |offsets| ==> StringStep(buffer, offsets[i], lossy).Ok? && StringStep(buffer, offsets[i], lossy).value.Some?) ==>
              ReadAll(buffer, offsets, lossy).Ok? && |ReadAll(buffer, offsets, lossy).value| == |offsets|
  {
    ReadFromLength(buffer, offsets, 0, [], lossy);
  }

  lemma {:induction false} ReadFromLength(buffer: Bytes, offsets: seq<nat>, k: nat, strings: seq<string>, lossy: Bytes -> string)
    requires forall i :: 0 <= i < |offsets| ==> offsets[i] <= |buffer|
    requires k <= |offsets|
    ensures ReadFrom(buffer, offsets, k, strings, lossy).Ok? ==>
              |ReadFrom(buffer, offsets, k, strings, lossy).value| <= |strings| + |offsets| - k
    ensures (forall i :: k <= i < |offsets| ==> StringStep(buffer, offsets[i], lossy).Ok? && StringStep(buffer, offsets[i], lossy).value.Some?) ==>
              ReadFrom(buffer, offsets, k, strings, lossy).Ok? && |ReadFrom(buffer, offsets, k, strings, lossy).value| == |strings| + |offsets| - k
    decreases |offsets| - k
  {
    if k < |offsets| {
      match StringStep(buffer, offsets[k], lossy)
      case Err(_) =>
      case Ok(None) => ReadFromLength(buffer, offsets, k + 1, strings, lossy);
      case Ok(Some(s)) => ReadFromLength(buffer, offsets, k + 1, strings + [s], lossy);
    }
  }

  /** A string without a NUL is dropped and the later strings move down: in
      `[1, 'a', 0, 1, 'b']`, string id 0 at offset 3 has no NUL after its
      length, so the string of id 1, at offset 0, comes out at index 0. */
  lemma DroppedStringShiftsIndices(lossy: Bytes -> string)
    ensures ReadAll([1, 0x61, 0, 1, 0x62], [3, 0], lossy) == Ok([lossy([0x61])])
  {
    var b: Bytes := [1, 0x61, 0, 1, 0x62];
    var offsets: seq<nat> := [3, 0];
    assert b[3..] == [1] + [0x62];
    UlebSingleByte(1, [0x62]);
    assert b[4..] == [0x62];
    assert DexString.UntilNul([0x62]) == None;
    assert StringStep(b, 3, lossy) == Ok(None);
    assert b[0..] == [1] + [0x61, 0, 1, 0x62];
    UlebSingleByte(1, [0x61, 0, 1, 0x62]);
    assert b[1..] == [0x61, 0, 1, 0x62];
    assert DexString.UntilNul([0x61, 0, 1, 0x62]) == Some([0x61]) by {
      assert [0x61, 0, 1, 0x62][1..] == [0, 1, 0x62];
      assert [0x61] + [] == [0x61];
    }
    assert StringStep(b, 0, lossy) == Ok(Some(lossy([0x61])));
    assert [] + [lossy([0x61])] == [lossy([0x61])];
    assert ReadFrom(b, offsets, 1, [], lossy) == Ok([lossy([0x61])]);
  }

  // Type ids

  const WRONG_DESCRIPTOR: string := "wrong descriptor index"

  datatype TypeId = TypeId(descriptor: string)

  /** What `read_type_ids` needs not to panic: every type id lies in the
      buffer. */
  predicate TypeIdsInBounds(buffer: Bytes, h: DexHeader)
  {
    forall i :: 0 <= i < h.typeIdsSize ==> h.typeIdsOff + i * 4 + 4 <= |buffer|
  }

  /** The types `read_type_ids` yields: one per id, the string at its
      descriptor index, or a placeholder when the index is out of range. */
  function TypeIds(buffer: Bytes, h: DexHeader, strings: seq<string>): (types: seq<TypeId>)
    requires TypeIdsInBounds(buffer, h)
    ensures |types| == h.typeIdsSize
    ensures forall i :: 0 <= i < |types| ==>
              var idx := ReadU32Le(buffer, h.typeIdsOff + i * 4);
              types[i].descriptor == if idx < |strings| then strings[idx] else WRONG_DESCRIPTOR
  {
    seq(h.typeIdsSize, i requires 0 <= i < h.typeIdsSize =>
      var idx := ReadU32Le(buffer, h.typeIdsOff + i * 4);
      TypeId(if idx < |strings| then strings[idx] else WRONG_DESCRIPTOR))
  }

  /** `read_type_ids`: a cursor that moves on four bytes per id; it never
      fails. */
  method ReadTypeIds(buffer: Bytes, h: DexHeader, strings: seq<string>) returns (r: Result<seq<TypeId>, IoError>)
    requires TypeIdsInBounds(buffer, h)
    ensures r == Ok(TypeIds(buffer, h, strings))
  {
    ghost var all := TypeIds(buffer, h, strings);
    var typeIds: seq<TypeId> := [];
    var offset := h.typeIdsOff as nat;
    for k := 0 to h.typeIdsSize
      invariant offset == h.typeIdsOff + k * 4
      invariant typeIds == all[..k]
    {
      var descriptorIdx := ReadU32Le(buffer, offset) as nat;
      offset := offset + 4;
      var descriptor := if descriptorIdx < |strings| then strings[descriptorIdx] else WRONG_DESCRIPTOR;
      typeIds := typeIds + [TypeId(descriptor)];
    }
    assert typeIds == all;
    return Ok(typeIds);
  }

  /** When every descriptor index is in range, the lab's type list holds the
      descriptors the library's `read_types` keeps from the same strings. */
  lemma {:induction false} TypeIdsAgreeWithLibrary(buffer: Bytes, h: DexHeader, strings: seq<string>)
    requires TypeIdsInBounds(buffer, h)
    requires forall i :: 0 <= i < h.typeIdsSize ==> ReadU32Le(buffer, h.typeIdsOff + i * 4) < |strings|
    ensures var lookups := seq(h.typeIdsSize, i requires 0 <= i < h.typeIdsSize =>
                                 Library.Lookup(strings, ReadU32Le(buffer, h.typeIdsOff + i * 4)));
            var types := TypeIds(buffer, h, strings);
            |Kept(lookups)| == |types| && forall i :: 0 <= i < |types| ==> Kept(lookups)[i] == types[i].descriptor
  {
    var lookups := seq(h.typeIdsSize, i requires 0 <= i < h.typeIdsSize =>
                         Library.Lookup(strings, ReadU32Le(buffer, h.typeIdsOff + i * 4)));
    var types := TypeIds(buffer, h, strings);
    forall i | 0 <= i < |lookups|
      ensures lookups[i] == Ok(types[i].descriptor)
    {
      var idx := ReadU32Le(buffer, h.typeIdsOff + i * 4);
      assert lookups[i] == Library.Lookup(strings, idx);
      assert idx < |strings| && types[i].descriptor == strings[idx];
    }
    KeptAllOk(lookups);
  }

  // Class definitions

  /** What `read_class_defs` needs not to panic: every 32-byte record lies
      in the buffer. */
  predicate ClassDefsInBounds(buffer: Bytes, h: DexHeader)
  {
    forall i :: 0 <= i < h.classDefsSize ==> h.classDefsOff + i * 32 + 32 <= |buffer|
  }

  /** The record at `offset`: its eight u32 fields at +0 to +28. */
  function ClassDefAt(buffer: Bytes, offset: nat): ClassDefItem.ClassDefItem
    requires offset + 32 <= |buffer|
  {
    ClassDefItem.ClassDefItem(ReadU32Le(buffer, offset), ReadU32Le(buffer, offset + 4), ReadU32Le(buffer, offset + 8),
      ReadU32Le(buffer, offset + 12), ReadU32Le(buffer, offset + 16), ReadU32Le(buffer, offset + 20),
      ReadU32Le(buffer, offset + 24), ReadU32Le(buffer, offset + 28))
  }

  /** The records `read_class_defs` yields: one per id, record k at
      `class_defs_off + 32 k`. */
  function ClassDefs(buffer: Bytes, h: DexHeader): (defs: seq<ClassDefItem.ClassDefItem>)
    requires ClassDefsInBounds(buffer, h)
    ensures |defs| == h.classDefsSize
  {
    seq(h.classDefsSize, i requires 0 <= i < h.classDefsSize => ClassDefAt(buffer, h.classDefsOff + i * 32))
  }

  /** `read_class_defs`: a cursor that moves on 32 bytes per record; it never
      fails. */
  method ReadClassDefs(buffer: Bytes, h: DexHeader) returns (r: Result<seq<ClassDefItem.ClassDefItem>, IoError>)
    requires ClassDefsInBounds(buffer, h)
    ensures r == Ok(ClassDefs(buffer, h))
  {
    ghost var all := ClassDefs(buffer, h);
    var classDefs: seq<ClassDefItem.ClassDefItem> := [];
    var offset := h.classDefsOff as nat;
    for k := 0 to h.classDefsSize
      invariant offset == h.classDefsOff + k * 32
      invariant classDefs == all[..k]
    {
      var classIdx := ReadU32Le(buffer, offset);
      var accessFlags := ReadU32Le(buffer, offset + 4);
      var superclassIdx := ReadU32Le(buffer, offset + 8);
      var interfacesOff := ReadU32Le(buffer, offset + 12);
      var sourceFileIdx := ReadU32Le(buffer, offset + 16);
      var annotationsOff := ReadU32Le(buffer, offset + 20);
      var classDataOff := ReadU32Le(buffer, offset + 24);
      var staticValuesOff := ReadU32Le(buffer, offset + 28);
      assert all[k] == ClassDefAt(buffer, offset);
      offset := offset + 32;
      classDefs := classDefs + [ClassDefItem.ClassDefItem(classIdx, accessFlags, superclassIdx, interfacesOff,
                                                         sourceFileIdx, annotationsOff, classDataOff, staticValuesOff)];
    }
    assert classDefs == all;
    return Ok(classDefs);
  }

  /** Each record is what the library's `ClassDefItem::parse_from_bytes`
      reads at its offset, so it is the one whose encoding is its 32 bytes. */
  lemma ClassDefAtEncodes(buffer: Bytes, offset: nat)
    requires offset + 32 <= |buffer|
    ensures ClassDefAt(buffer, offset) == ClassDefItem.ParseFromBytes(buffer[offset..])
    ensures ClassDefItem.Encode(ClassDefAt(buffer, offset)) == buffer[offset..offset + 32]
  {
    var b := buffer[offset..];
    ReadU32LeLocal(buffer, offset, b, 0);
    ReadU32LeLocal(buffer, offset + 4, b, 4);
    ReadU32LeLocal(buffer, offset + 8, b, 8);
    ReadU32LeLocal(buffer, offset + 12, b, 12);
    ReadU32LeLocal(buffer, offset + 16, b, 16);
    ReadU32LeLocal(buffer, offset + 20, b, 20);
    ReadU32LeLocal(buffer, offset + 24, b, 24);
    ReadU32LeLocal(buffer, offset + 28, b, 28);
    assert b[..32] == buffer[offset..offset + 32];
  }

  // Class data

  /** `read_class_data_item`: the four counts at `class_data_off`, each
      ULEB128 read after the one before, with the messages of the dex2smali
      reader; the lists themselves are not read and come back empty. */
  function ReadClassDataItem(buffer: Bytes, classDataOff: U32): (r: Result<ClassDataItem.ClassDataItem, IoError>)
    requires classDataOff <= |buffer|
    ensures Uleb128(buffer[classDataOff..]).None? ==> r == Err(IoError(InvalidData, ClassDataItem.STATIC_FIELDS_SIZE))
    ensures r.Err? <==> ClassDataItem.Counts(buffer, classDataOff).Err?
    ensures r.Err? ==> r.error.kind == InvalidData
    ensures r.Ok? ==> r.value == ClassDataItem.ClassDataItem([], [], [], [])
  {
    match ClassDataItem.Counts(buffer, classDataOff)
    case Err(e) => Err(e)
    case Ok(_) => Ok(ClassDataItem.ClassDataItem([], [], [], []))
  }

  /** From the start of a buffer the lab's reader and dex2smali's fail alike
      on the counts, and yield the same item when the four counts are 0. */
  lemma ClassDataAgreesWithDex2Smali(buffer: Bytes, readField: ClassDataItem.Reader<ClassDataItem.EncodedField>,
                                     fieldIdx: ClassDataItem.EncodedField -> nat,
                                     readMethod: ClassDataItem.Reader<ClassDataItem.EncodedMethod>,
                                     methodIdx: ClassDataItem.EncodedMethod -> nat)
    ensures var counts := ClassDataItem.Counts(buffer, 0);
            counts.Err? || (counts.value.0 == 0 && counts.value.1 == 0 && counts.value.2 == 0 && counts.value.3 == 0) ==>
              ClassDataItem.ParseClassData(buffer, readField, fieldIdx, readMethod, methodIdx) == ReadClassDataItem(buffer, 0)
  {
  }
}
