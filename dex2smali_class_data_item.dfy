/** `ClassDataItem::try_parse_from_bytes` (dex2smali/src/dex/class_data_item.rs):
    a `class_data_item` of the Dalvik Executable format is four ULEB128
    counts (static fields, instance fields, direct methods, virtual methods)
    followed by those four lists of encoded elements, all read with one
    cursor. The element readers (`EncodedField::parse_from_bytes_with_offset`
    and its method counterpart) are not part of this model: the caller passes
    them, each with the function giving the index the loop carries to the
    next element. The DEX `decode_uleb128` of this crate is taken to be that
    of src/utils.rs. */
module ClassDataItem {
  import opened Utils
  import opened RustTypes
  import opened Errors

  /** `encoded_field` (dex2smali/src/dex/encoded.rs). */
  datatype EncodedField = EncodedField(fieldIdxDiff: U32, accessFlags: U32)

  /** `encoded_method` (dex2smali/src/dex/encoded.rs). */
  datatype EncodedMethod = EncodedMethod(methodIdxDiff: U32, accessFlags: U32, codeOff: U32)

  datatype ClassDataItem = ClassDataItem(
    staticFields: seq<EncodedField>,
    instanceFields: seq<EncodedField>,
    directMethods: seq<EncodedMethod>,
    virtualMethods: seq<EncodedMethod>)

  /** An element reader: from the buffer, the previous element's index and
      the cursor, the element and the cursor after it. */
  type Reader<T> = (Bytes, nat, nat) -> Result<(T, nat), IoError>

  /** Rust's `?` on a list read that follows `items`: the error, or `items`
      in front of the list. */
  function Prepend<T>(items: seq<T>, r: Result<(seq<T>, nat), IoError>): Result<(seq<T>, nat), IoError>
  {
    match r
    case Err(e) => Err(e)
    case Ok((rest, end)) => Ok((items + rest, end))
  }

  /** The `size` elements read from `offset` on, the first with `prev` as
      the previous index: the first error, or the list and the cursor after
      it. */
  function ReadList<T>(read: Reader<T>, index: T -> nat, buffer: Bytes, offset: nat, prev: nat, size: nat): Result<(seq<T>, nat), IoError>
    decreases size
  {
    if size == 0 then Ok(([], offset))
    else
      match read(buffer, prev, offset)
      case Err(e) => Err(e)
      case Ok((item, next)) => Prepend([item], ReadList(read, index, buffer, next, index(item), size - 1))
  }

  /** The loop of `read_encoded_fields` and `read_encoded_methods`: start
      with previous index 0, read `size` elements, each with the index of the
      one before, and stop at the first error. */
  method ReadEncoded<T>(read: Reader<T>, index: T -> nat, buffer: Bytes, offset: nat, size: nat) returns (r: Result<(seq<T>, nat), IoError>)
    ensures r == ReadList(read, index, buffer, offset, 0, size)
  {
    var items: seq<T> := [];
    var prev: nat := 0;
    var cursor := offset;
    PrependNothing(ReadList(read, index, buffer, offset, 0, size));
    for k := 0 to size
      invariant ReadList(read, index, buffer, offset, 0, size) == Prepend(items, ReadList(read, index, buffer, cursor, prev, size - k))
    {
      var element := read(buffer, prev, cursor);
      if element.Err? {
        return Err(element.error);
      }
      var (item, next) := element.value;
      PrependTwice(items, item, ReadList(read, index, buffer, next, index(item), size - k - 1));
      prev := index(item);
      items := items + [item];
      cursor := next;
    }
    assert items + [] == items;
    return Ok((items, cursor));
  }

  /** Prepending no elements changes nothing. */
  lemma PrependNothing<T>(r: Result<(seq<T>, nat), IoError>)
    ensures Prepend([], r) == r
  {
    if r.Ok? {
      assert [] + r.value.0 == r.value.0;
    }
  }

  /** Prepending one element and then a list is prepending the longer list. */
  lemma PrependTwice<T>(items: seq<T>, item: T, r: Result<(seq<T>, nat), IoError>)
    ensures Prepend(items, Prepend([item], r)) == Prepend(items + [item], r)
  {
    if r.Ok? {
      assert items + ([item] + r.value.0) == (items + [item]) + r.value.0;
    }
  }

  /** A successful list read has exactly `size` elements. */
  lemma {:induction false} ReadListLength<T>(read: Reader<T>, index: T -> nat, buffer: Bytes, offset: nat, prev: nat, size: nat)
    ensures ReadList(read, index, buffer, offset, prev, size).Ok? ==> |ReadList(read, index, buffer, offset, prev, size).value.0| == size
    decreases size
  {
    if size > 0 && read(buffer, prev, offset).Ok? {
      var (item, next) := read(buffer, prev, offset).value;
      ReadListLength(read, index, buffer, next, index(item), size - 1);
    }
  }

  /** A list read fails exactly when the reader fails on one of the
      elements it reaches; with one element, when the reader fails on it. */
  lemma ReadListOne<T>(read: Reader<T>, index: T -> nat, buffer: Bytes, offset: nat, prev: nat)
    ensures ReadList(read, index, buffer, offset, prev, 1).Err? <==> read(buffer, prev, offset).Err?
    ensures read(buffer, prev, offset).Ok? ==>
              ReadList(read, index, buffer, offset, prev, 1) == Ok(([read(buffer, prev, offset).value.0], read(buffer, prev, offset).value.1))
  {
    if read(buffer, prev, offset).Ok? {
      var (item, next) := read(buffer, prev, offset).value;
      assert ReadList(read, index, buffer, next, index(item), 0) == Ok(([], next));
      assert [item] + [] == [item];
    }
  }

  /** `read_encoded_fields`. */
  method ReadEncodedFields(buffer: Bytes, offset: nat, size: nat, read: Reader<EncodedField>, fieldIdx: EncodedField -> nat)
    returns (r: Result<(seq<EncodedField>, nat), IoError>)
    ensures r == ReadList(read, fieldIdx, buffer, offset, 0, size)
  {
    r := ReadEncoded(read, fieldIdx, buffer, offset, size);
  }

  /** `read_encoded_methods`. */
  method ReadEncodedMethods(buffer: Bytes, offset: nat, size: nat, read: Reader<EncodedMethod>, methodIdx: EncodedMethod -> nat)
    returns (r: Result<(seq<EncodedMethod>, nat), IoError>)
    ensures r == ReadList(read, methodIdx, buffer, offset, 0, size)
  {
    r := ReadEncoded(read, methodIdx, buffer, offset, size);
  }

  const STATIC_FIELDS_SIZE: string := "Failed to decode ULEB128 for static fields size"
  const INSTANCE_FIELDS_SIZE: string := "Failed to decode ULEB128 for instance fields size"
  const DIRECT_METHODS_SIZE: string := "Failed to decode ULEB128 for direct methods size"
  const VIRTUAL_METHODS_SIZE: string := "Failed to decode ULEB128 for virtual methods size"

  /** The ULEB128 at `offset`, or the `InvalidData` error with `message`:
      the value and the cursor after it. */
  function Count(buffer: Bytes, offset: nat, message: string): (r: Result<(nat, nat), IoError>)
    requires offset <= |buffer|
    ensures r.Err? <==> Uleb128(buffer[offset..]).None?
    ensures r.Err? ==> r.error == IoError(InvalidData, message)
    ensures r.Ok? ==> r.value.0 == Uleb128(buffer[offset..]).value.0 && offset < r.value.1 <= |buffer|
  {
    match Uleb128(buffer[offset..])
    case None => Err(IoError(InvalidData, message))
    case Some((v, used)) =>
      UlebUsedBound(buffer[offset..]);
      Ok((v, offset + used))
  }

  /** The four counts read one after the other from `start`, and the cursor
      after the last. */
  function Counts(buffer: Bytes, start: nat): Result<(nat, nat, nat, nat, nat), IoError>
    requires start <= |buffer|
  {
    match Count(buffer, start, STATIC_FIELDS_SIZE)
    case Err(e) => Err(e)
    case Ok((s, o1)) =>
      match Count(buffer, o1, INSTANCE_FIELDS_SIZE)
      case Err(e) => Err(e)
      case Ok((i, o2)) =>
        match Count(buffer, o2, DIRECT_METHODS_SIZE)
        case Err(e) => Err(e)
        case Ok((d, o3)) =>
          match Count(buffer, o3, VIRTUAL_METHODS_SIZE)
          case Err(e) => Err(e)
          case Ok((v, o4)) => Ok((s, i, d, v, o4))
  }

  /** The whole parse as a function of the buffer and the element readers. */
  function ParseClassData(buffer: Bytes, readField: Reader<EncodedField>, fieldIdx: EncodedField -> nat,
                          readMethod: Reader<EncodedMethod>, methodIdx: EncodedMethod -> nat): Result<ClassDataItem, IoError>
  {
    match Counts(buffer, 0)
    case Err(e) => Err(e)
    case Ok((s, i, d, v, o)) =>
      match ReadList(readField, fieldIdx, buffer, o, 0, s)
      case Err(e) => Err(e)
      case Ok((staticFields, o1)) =>
        match ReadList(readField, fieldIdx, buffer, o1, 0, i)
        case Err(e) => Err(e)
        case Ok((instanceFields, o2)) =>
          match ReadList(readMethod, methodIdx, buffer, o2, 0, d)
          case Err(e) => Err(e)
          case Ok((directMethods, o3)) =>
            match ReadList(readMethod, methodIdx, buffer, o3, 0, v)
            case Err(e) => Err(e)
            case Ok((virtualMethods, _)) => Ok(ClassDataItem(staticFields, instanceFields, directMethods, virtualMethods))
  }

  /** `try_parse_from_bytes`: the four counts, then the four lists, the
      cursor running on from one to the next; the first error ends it. */
  method TryParseFromBytes(buffer: Bytes, readField: Reader<EncodedField>, fieldIdx: EncodedField -> nat,
                           readMethod: Reader<EncodedMethod>, methodIdx: EncodedMethod -> nat)
    returns (r: Result<ClassDataItem, IoError>)
    ensures Uleb128(buffer).None? ==> r == Err(IoError(InvalidData, STATIC_FIELDS_SIZE))
    ensures r == ParseClassData(buffer, readField, fieldIdx, readMethod, methodIdx)
  {
    var offset := 0;
    var staticFieldsSize := Count(buffer, offset, STATIC_FIELDS_SIZE);
    if staticFieldsSize.Err? {
      return Err(staticFieldsSize.error);
    }
    offset := staticFieldsSize.value.1;
    var instanceFieldsSize := Count(buffer, offset, INSTANCE_FIELDS_SIZE);
    if instanceFieldsSize.Err? {
      return Err(instanceFieldsSize.error);
    }
    offset := instanceFieldsSize.value.1;
    var directMethodsSize := Count(buffer, offset, DIRECT_METHODS_SIZE);
    if directMethodsSize.Err? {
      return Err(directMethodsSize.error);
    }
    offset := directMethodsSize.value.1;
    var virtualMethodsSize := Count(buffer, offset, VIRTUAL_METHODS_SIZE);
    if virtualMethodsSize.Err? {
      return Err(virtualMethodsSize.error);
    }
    offset := virtualMethodsSize.value.1;

    var staticFields := ReadEncodedFields(buffer, offset, staticFieldsSize.value.0, readField, fieldIdx);
    if staticFields.Err? {
      return Err(staticFields.error);
    }
    offset := staticFields.value.1;
    var instanceFields := ReadEncodedFields(buffer, offset, instanceFieldsSize.value.0, readField, fieldIdx);
    if instanceFields.Err? {
      return Err(instanceFields.error);
    }
    offset := instanceFields.value.1;
    var directMethods := ReadEncodedMethods(buffer, offset, directMethodsSize.value.0, readMethod, methodIdx);
    if directMethods.Err? {
      return Err(directMethods.error);
    }
    offset := directMethods.value.1;
    var virtualMethods := ReadEncodedMethods(buffer, offset, virtualMethodsSize.value.0, readMethod, methodIdx);
    if virtualMethods.Err? {
      return Err(virtualMethods.error);
    }
    return Ok(ClassDataItem(staticFields.value.0, instanceFields.value.0, directMethods.value.0, virtualMethods.value.0));
  }

  /** On success each list has as many elements as its count says. */
  lemma ListsHaveTheirCounts(buffer: Bytes, readField: Reader<EncodedField>, fieldIdx: EncodedField -> nat,
                             readMethod: Reader<EncodedMethod>, methodIdx: EncodedMethod -> nat)
    requires ParseClassData(buffer, readField, fieldIdx, readMethod, methodIdx).Ok?
    ensures var c := ParseClassData(buffer, readField, fieldIdx, readMethod, methodIdx).value;
            var (s, i, d, v, _) := Counts(buffer, 0).value;
            |c.staticFields| == s && |c.instanceFields| == i && |c.directMethods| == d && |c.virtualMethods| == v
  {
    var (s, i, d, v, o) := Counts(buffer, 0).value;
    ReadListLength(readField, fieldIdx, buffer, o, 0, s);
    var o1 := ReadList(readField, fieldIdx, buffer, o, 0, s).value.1;
    ReadListLength(readField, fieldIdx, buffer, o1, 0, i);
    var o2 := ReadList(readField, fieldIdx, buffer, o1, 0, i).value.1;
    ReadListLength(readMethod, methodIdx, buffer, o2, 0, d);
    var o3 := ReadList(readMethod, methodIdx, buffer, o2, 0, d).value.1;
    ReadListLength(readMethod, methodIdx, buffer, o3, 0, v);
  }

  /** A count written as a ULEB128, whatever follows it, is read back with
      the cursor just after it. */
  lemma CountOfEncoding(buffer: Bytes, offset: nat, message: string, v: U64, tail: Bytes)
    requires offset <= |buffer| && buffer[offset..] == EncodeUleb128(v) + tail
    ensures Count(buffer, offset, message) == Ok((v, offset + |EncodeUleb128(v)|))
  {
    UlebRoundTrip(v, tail);
  }

  /** Four zero counts give four empty lists without calling a reader. */
  lemma EmptyClassData(rest: Bytes, readField: Reader<EncodedField>, fieldIdx: EncodedField -> nat,
                       readMethod: Reader<EncodedMethod>, methodIdx: EncodedMethod -> nat)
    ensures ParseClassData([0, 0, 0, 0] + rest, readField, fieldIdx, readMethod, methodIdx) == Ok(ClassDataItem([], [], [], []))
  {
    var b := [0, 0, 0, 0] + rest;
    assert b[0..] == [0] + b[1..];
    UlebSingleByte(0, b[1..]);
    assert b[1..] == [0] + b[2..];
    UlebSingleByte(0, b[2..]);
    assert b[2..] == [0] + b[3..];
    UlebSingleByte(0, b[3..]);
    assert b[3..] == [0] + b[4..];
    UlebSingleByte(0, b[4..]);
    assert Counts(b, 0) == Ok((0, 0, 0, 0, 4));
  }
}
