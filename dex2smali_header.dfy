/** `HeaderItem::parse_from_bytes` (dex2smali/src/dex/header.rs): the
    112-byte `header_item` of a Dalvik Executable file (format version 40 or
    earlier): the 8-byte magic, the adler32 checksum, the 20-byte SHA-1
    signature and twenty little-endian u32 sizes and offsets. The two fields
    of version 41 headers are not read and are set to 0. The `read_u32_le` of
    this crate (dex2smali/src/utils.rs) is not part of this model; it is taken
    to be the little-endian read of src/utils.rs. */
module Dex2SmaliHeader {
  import opened Utils
  import opened RustTypes
  import opened Errors

  const SIZE: nat := 112
  const TOO_SMALL: string := "Buffer too small to contain Dex header"

  type Magic = s: Bytes | |s| == 8 witness [0, 0, 0, 0, 0, 0, 0, 0]
  type Signature = s: Bytes | |s| == 20 witness [0, 0, 0, 0, 0, 0, 0, 0, 0, 0, 0, 0, 0, 0, 0, 0, 0, 0, 0, 0]

  datatype HeaderItem = HeaderItem(
    magic: Magic,
    checksum: U32,
    signature: Signature,
    fileSize: U32,
    headerSize: U32,
    endianTag: U32,
    linkSize: U32,
    linkOff: U32,
    mapOff: U32,
    stringIdsSize: U32,
    stringIdsOff: U32,
    typeIdsSize: U32,
    typeIdsOff: U32,
    protoIdsSize: U32,
    protoIdsOff: U32,
    fieldIdsSize: U32,
    fieldIdsOff: U32,
    methodIdsSize: U32,
    methodIdsOff: U32,
    classDefsSize: U32,
    classDefsOff: U32,
    dataSize: U32,
    dataOff: U32,
    containzerSize: U32,
    headerOffset: U32)

  /** The header's 112 bytes. */
  function Encode(h: HeaderItem): (e: Bytes)
    ensures |e| == SIZE
  {
    h.magic + EncodeU32Le(h.checksum) + h.signature
    + EncodeU32Le(h.fileSize) + EncodeU32Le(h.headerSize) + EncodeU32Le(h.endianTag) + EncodeU32Le(h.linkSize)
    + EncodeU32Le(h.linkOff) + EncodeU32Le(h.mapOff) + EncodeU32Le(h.stringIdsSize) + EncodeU32Le(h.stringIdsOff)
    + EncodeU32Le(h.typeIdsSize) + EncodeU32Le(h.typeIdsOff) + EncodeU32Le(h.protoIdsSize) + EncodeU32Le(h.protoIdsOff)
    + EncodeU32Le(h.fieldIdsSize) + EncodeU32Le(h.fieldIdsOff) + EncodeU32Le(h.methodIdsSize) + EncodeU32Le(h.methodIdsOff)
    + EncodeU32Le(h.classDefsSize) + EncodeU32Le(h.classDefsOff) + EncodeU32Le(h.dataSize) + EncodeU32Le(h.dataOff)
  }

  /** The header read from the first 112 bytes of a buffer that has them. */
  function ReadHeader(b: Bytes): (h: HeaderItem)
    requires |b| >= SIZE
  {
    HeaderItem(b[0..8], ReadU32Le(b, 8), b[12..32],
      ReadU32Le(b, 32), ReadU32Le(b, 36), ReadU32Le(b, 40), ReadU32Le(b, 44), ReadU32Le(b, 48), ReadU32Le(b, 52), ReadU32Le(b, 56), ReadU32Le(b, 60), ReadU32Le(b, 64), ReadU32Le(b, 68), ReadU32Le(b, 72), ReadU32Le(b, 76), ReadU32Le(b, 80), ReadU32Le(b, 84), ReadU32Le(b, 88), ReadU32Le(b, 92), ReadU32Le(b, 96), ReadU32Le(b, 100), ReadU32Le(b, 104), ReadU32Le(b, 108),
      0, 0)
  }

  /** `parse_from_bytes`: an `InvalidData` error for fewer than 112 bytes;
      otherwise the header whose encoding is the first 112 bytes, with the
      version-41 fields 0, whatever follows. */
  function ParseFromBytes(buffer: Bytes): (r: Result<HeaderItem, IoError>)
    ensures r.Ok? <==> |buffer| >= SIZE
    ensures r.Err? ==> r.error == IoError(InvalidData, TOO_SMALL)
    ensures r.Ok? ==> Encode(r.value) == buffer[..SIZE] && r.value.containzerSize == 0 && r.value.headerOffset == 0
  {
    if |buffer| < SIZE then Err(IoError(InvalidData, TOO_SMALL))
    else
      var b := buffer[..SIZE];
      var h := ReadHeader(b);
      ReadHeaderEncodes(b);
      Ok(h)
  }

  lemma ReadHeaderEncodes(b: Bytes)
    requires |b| == SIZE
    ensures Encode(ReadHeader(b)) == b
  {
    assert b == b[0..8] + b[8..12] + b[12..32]
             + b[32..36] + b[36..40] + b[40..44] + b[44..48]
             + b[48..52] + b[52..56] + b[56..60] + b[60..64]
             + b[64..68] + b[68..72] + b[72..76] + b[76..80]
             + b[80..84] + b[84..88] + b[88..92] + b[92..96]
             + b[96..100] + b[100..104] + b[104..108] + b[108..112];
  }

  /** Two concatenations with equally long left parts are equal exactly when
      both parts are. */
  lemma SplitEq(a: Bytes, b: Bytes, c: Bytes, d: Bytes)
    requires a + b == c + d && |a| == |c|
    ensures a == c && b == d
  {
    assert a == (a + b)[..|a|] && c == (c + d)[..|c|];
    assert b == (a + b)[|a|..] && d == (c + d)[|c|..];
  }

  lemma EncodeU32LeInjective(x: U32, y: U32)
    requires EncodeU32Le(x) == EncodeU32Le(y)
    ensures x == y
  {
    ReadU32LeOfEncode(EncodeU32Le(x), 0, x);
    ReadU32LeOfEncode(EncodeU32Le(y), 0, y);
  }

  /** Headers with the same encoding and the same version-41 fields are
      equal. */
  lemma EncodeInjective(g: HeaderItem, h: HeaderItem)
    requires Encode(g) == Encode(h)
    requires g.containzerSize == h.containzerSize && g.headerOffset == h.headerOffset
    ensures g == h
  {
    SplitEq(g.magic + EncodeU32Le(g.checksum) + g.signature + EncodeU32Le(g.fileSize) + EncodeU32Le(g.headerSize) + EncodeU32Le(g.endianTag) + EncodeU32Le(g.linkSize) + EncodeU32Le(g.linkOff) + EncodeU32Le(g.mapOff) + EncodeU32Le(g.stringIdsSize) + EncodeU32Le(g.stringIdsOff) + EncodeU32Le(g.typeIdsSize) + EncodeU32Le(g.typeIdsOff) + EncodeU32Le(g.protoIdsSize) + EncodeU32Le(g.protoIdsOff) + EncodeU32Le(g.fieldIdsSize) + EncodeU32Le(g.fieldIdsOff) + EncodeU32Le(g.methodIdsSize) + EncodeU32Le(g.methodIdsOff) + EncodeU32Le(g.classDefsSize) + EncodeU32Le(g.classDefsOff) + EncodeU32Le(g.dataSize),
      EncodeU32Le(g.dataOff),
      h.magic + EncodeU32Le(h.checksum) + h.signature + EncodeU32Le(h.fileSize) + EncodeU32Le(h.headerSize) + EncodeU32Le(h.endianTag) + EncodeU32Le(h.linkSize) + EncodeU32Le(h.linkOff) + EncodeU32Le(h.mapOff) + EncodeU32Le(h.stringIdsSize) + EncodeU32Le(h.stringIdsOff) + EncodeU32Le(h.typeIdsSize) + EncodeU32Le(h.typeIdsOff) + EncodeU32Le(h.protoIdsSize) + EncodeU32Le(h.protoIdsOff) + EncodeU32Le(h.fieldIdsSize) + EncodeU32Le(h.fieldIdsOff) + EncodeU32Le(h.methodIdsSize) + EncodeU32Le(h.methodIdsOff) + EncodeU32Le(h.classDefsSize) + EncodeU32Le(h.classDefsOff) + EncodeU32Le(h.dataSize),
      EncodeU32Le(h.dataOff));
    SplitEq(g.magic + EncodeU32Le(g.checksum) + g.signature + EncodeU32Le(g.fileSize) + EncodeU32Le(g.headerSize) + EncodeU32Le(g.endianTag) + EncodeU32Le(g.linkSize) + EncodeU32Le(g.linkOff) + EncodeU32Le(g.mapOff) + EncodeU32Le(g.stringIdsSize) + EncodeU32Le(g.stringIdsOff) + EncodeU32Le(g.typeIdsSize) + EncodeU32Le(g.typeIdsOff) + EncodeU32Le(g.protoIdsSize) + EncodeU32Le(g.protoIdsOff) + EncodeU32Le(g.fieldIdsSize) + EncodeU32Le(g.fieldIdsOff) + EncodeU32Le(g.methodIdsSize) + EncodeU32Le(g.methodIdsOff) + EncodeU32Le(g.classDefsSize) + EncodeU32Le(g.classDefsOff),
      EncodeU32Le(g.dataSize),
      h.magic + EncodeU32Le(h.checksum) + h.signature + EncodeU32Le(h.fileSize) + EncodeU32Le(h.headerSize) + EncodeU32Le(h.endianTag) + EncodeU32Le(h.linkSize) + EncodeU32Le(h.linkOff) + EncodeU32Le(h.mapOff) + EncodeU32Le(h.stringIdsSize) + EncodeU32Le(h.stringIdsOff) + EncodeU32Le(h.typeIdsSize) + EncodeU32Le(h.typeIdsOff) + EncodeU32Le(h.protoIdsSize) + EncodeU32Le(h.protoIdsOff) + EncodeU32Le(h.fieldIdsSize) + EncodeU32Le(h.fieldIdsOff) + EncodeU32Le(h.methodIdsSize) + EncodeU32Le(h.methodIdsOff) + EncodeU32Le(h.classDefsSize) + EncodeU32Le(h.classDefsOff),
      EncodeU32Le(h.dataSize));
    SplitEq(g.magic + EncodeU32Le(g.checksum) + g.signature + EncodeU32Le(g.fileSize) + EncodeU32Le(g.headerSize) + EncodeU32Le(g.endianTag) + EncodeU32Le(g.linkSize) + EncodeU32Le(g.linkOff) + EncodeU32Le(g.mapOff) + EncodeU32Le(g.stringIdsSize) + EncodeU32Le(g.stringIdsOff) + EncodeU32Le(g.typeIdsSize) + EncodeU32Le(g.typeIdsOff) + EncodeU32Le(g.protoIdsSize) + EncodeU32Le(g.protoIdsOff) + EncodeU32Le(g.fieldIdsSize) + EncodeU32Le(g.fieldIdsOff) + EncodeU32Le(g.methodIdsSize) + EncodeU32Le(g.methodIdsOff) + EncodeU32Le(g.classDefsSize),
      EncodeU32Le(g.classDefsOff),
      h.magic + EncodeU32Le(h.checksum) + h.signature + EncodeU32Le(h.fileSize) + EncodeU32Le(h.headerSize) + EncodeU32Le(h.endianTag) + EncodeU32Le(h.linkSize) + EncodeU32Le(h.linkOff) + EncodeU32Le(h.mapOff) + EncodeU32Le(h.stringIdsSize) + EncodeU32Le(h.stringIdsOff) + EncodeU32Le(h.typeIdsSize) + EncodeU32Le(h.typeIdsOff) + EncodeU32Le(h.protoIdsSize) + EncodeU32Le(h.protoIdsOff) + EncodeU32Le(h.fieldIdsSize) + EncodeU32Le(h.fieldIdsOff) + EncodeU32Le(h.methodIdsSize) + EncodeU32Le(h.methodIdsOff) + EncodeU32Le(h.classDefsSize),
      EncodeU32Le(h.classDefsOff));
    SplitEq(g.magic + EncodeU32Le(g.checksum) + g.signature + EncodeU32Le(g.fileSize) + EncodeU32Le(g.headerSize) + EncodeU32Le(g.endianTag) + EncodeU32Le(g.linkSize) + EncodeU32Le(g.linkOff) + EncodeU32Le(g.mapOff) + EncodeU32Le(g.stringIdsSize) + EncodeU32Le(g.stringIdsOff) + EncodeU32Le(g.typeIdsSize) + EncodeU32Le(g.typeIdsOff) + EncodeU32Le(g.protoIdsSize) + EncodeU32Le(g.protoIdsOff) + EncodeU32Le(g.fieldIdsSize) + EncodeU32Le(g.fieldIdsOff) + EncodeU32Le(g.methodIdsSize) + EncodeU32Le(g.methodIdsOff),
      EncodeU32Le(g.classDefsSize),
      h.magic + EncodeU32Le(h.checksum) + h.signature + EncodeU32Le(h.fileSize) + EncodeU32Le(h.headerSize) + EncodeU32Le(h.endianTag) + EncodeU32Le(h.linkSize) + EncodeU32Le(h.linkOff) + EncodeU32Le(h.mapOff) + EncodeU32Le(h.stringIdsSize) + EncodeU32Le(h.stringIdsOff) + EncodeU32Le(h.typeIdsSize) + EncodeU32Le(h.typeIdsOff) + EncodeU32Le(h.protoIdsSize) + EncodeU32Le(h.protoIdsOff) + EncodeU32Le(h.fieldIdsSize) + EncodeU32Le(h.fieldIdsOff) + EncodeU32Le(h.methodIdsSize) + EncodeU32Le(h.methodIdsOff),
      EncodeU32Le(h.classDefsSize));
    SplitEq(g.magic + EncodeU32Le(g.checksum) + g.signature + EncodeU32Le(g.fileSize) + EncodeU32Le(g.headerSize) + EncodeU32Le(g.endianTag) + EncodeU32Le(g.linkSize) + EncodeU32Le(g.linkOff) + EncodeU32Le(g.mapOff) + EncodeU32Le(g.stringIdsSize) + EncodeU32Le(g.stringIdsOff) + EncodeU32Le(g.typeIdsSize) + EncodeU32Le(g.typeIdsOff) + EncodeU32Le(g.protoIdsSize) + EncodeU32Le(g.protoIdsOff) + EncodeU32Le(g.fieldIdsSize) + EncodeU32Le(g.fieldIdsOff) + EncodeU32Le(g.methodIdsSize),
      EncodeU32Le(g.methodIdsOff),
      h.magic + EncodeU32Le(h.checksum) + h.signature + EncodeU32Le(h.fileSize) + EncodeU32Le(h.headerSize) + EncodeU32Le(h.endianTag) + EncodeU32Le(h.linkSize) + EncodeU32Le(h.linkOff) + EncodeU32Le(h.mapOff) + EncodeU32Le(h.stringIdsSize) + EncodeU32Le(h.stringIdsOff) + EncodeU32Le(h.typeIdsSize) + EncodeU32Le(h.typeIdsOff) + EncodeU32Le(h.protoIdsSize) + EncodeU32Le(h.protoIdsOff) + EncodeU32Le(h.fieldIdsSize) + EncodeU32Le(h.fieldIdsOff) + EncodeU32Le(h.methodIdsSize),
      EncodeU32Le(h.methodIdsOff));
    SplitEq(g.magic + EncodeU32Le(g.checksum) + g.signature + EncodeU32Le(g.fileSize) + EncodeU32Le(g.headerSize) + EncodeU32Le(g.endianTag) + EncodeU32Le(g.linkSize) + EncodeU32Le(g.linkOff) + EncodeU32Le(g.mapOff) + EncodeU32Le(g.stringIdsSize) + EncodeU32Le(g.stringIdsOff) + EncodeU32Le(g.typeIdsSize) + EncodeU32Le(g.typeIdsOff) + EncodeU32Le(g.protoIdsSize) + EncodeU32Le(g.protoIdsOff) + EncodeU32Le(g.fieldIdsSize) + EncodeU32Le(g.fieldIdsOff),
      EncodeU32Le(g.methodIdsSize),
      h.magic + EncodeU32Le(h.checksum) + h.signature + EncodeU32Le(h.fileSize) + EncodeU32Le(h.headerSize) + EncodeU32Le(h.endianTag) + EncodeU32Le(h.linkSize) + EncodeU32Le(h.linkOff) + EncodeU32Le(h.mapOff) + EncodeU32Le(h.stringIdsSize) + EncodeU32Le(h.stringIdsOff) + EncodeU32Le(h.typeIdsSize) + EncodeU32Le(h.typeIdsOff) + EncodeU32Le(h.protoIdsSize) + EncodeU32Le(h.protoIdsOff) + EncodeU32Le(h.fieldIdsSize) + EncodeU32Le(h.fieldIdsOff),
      EncodeU32Le(h.methodIdsSize));
    SplitEq(g.magic + EncodeU32Le(g.checksum) + g.signature + EncodeU32Le(g.fileSize) + EncodeU32Le(g.headerSize) + EncodeU32Le(g.endianTag) + EncodeU32Le(g.linkSize) + EncodeU32Le(g.linkOff) + EncodeU32Le(g.mapOff) + EncodeU32Le(g.stringIdsSize) + EncodeU32Le(g.stringIdsOff) + EncodeU32Le(g.typeIdsSize) + EncodeU32Le(g.typeIdsOff) + EncodeU32Le(g.protoIdsSize) + EncodeU32Le(g.protoIdsOff) + EncodeU32Le(g.fieldIdsSize),
      EncodeU32Le(g.fieldIdsOff),
      h.magic + EncodeU32Le(h.checksum) + h.signature + EncodeU32Le(h.fileSize) + EncodeU32Le(h.headerSize) + EncodeU32Le(h.endianTag) + EncodeU32Le(h.linkSize) + EncodeU32Le(h.linkOff) + EncodeU32Le(h.mapOff) + EncodeU32Le(h.stringIdsSize) + EncodeU32Le(h.stringIdsOff) + EncodeU32Le(h.typeIdsSize) + EncodeU32Le(h.typeIdsOff) + EncodeU32Le(h.protoIdsSize) + EncodeU32Le(h.protoIdsOff) + EncodeU32Le(h.fieldIdsSize),
      EncodeU32Le(h.fieldIdsOff));
    SplitEq(g.magic + EncodeU32Le(g.checksum) + g.signature + EncodeU32Le(g.fileSize) + EncodeU32Le(g.headerSize) + EncodeU32Le(g.endianTag) + EncodeU32Le(g.linkSize) + EncodeU32Le(g.linkOff) + EncodeU32Le(g.mapOff) + EncodeU32Le(g.stringIdsSize) + EncodeU32Le(g.stringIdsOff) + EncodeU32Le(g.typeIdsSize) + EncodeU32Le(g.typeIdsOff) + EncodeU32Le(g.protoIdsSize) + EncodeU32Le(g.protoIdsOff),
      EncodeU32Le(g.fieldIdsSize),
      h.magic + EncodeU32Le(h.checksum) + h.signature + EncodeU32Le(h.fileSize) + EncodeU32Le(h.headerSize) + EncodeU32Le(h.endianTag) + EncodeU32Le(h.linkSize) + EncodeU32Le(h.linkOff) + EncodeU32Le(h.mapOff) + EncodeU32Le(h.stringIdsSize) + EncodeU32Le(h.stringIdsOff) + EncodeU32Le(h.typeIdsSize) + EncodeU32Le(h.typeIdsOff) + EncodeU32Le(h.protoIdsSize) + EncodeU32Le(h.protoIdsOff),
      EncodeU32Le(h.fieldIdsSize));
    SplitEq(g.magic + EncodeU32Le(g.checksum) + g.signature + EncodeU32Le(g.fileSize) + EncodeU32Le(g.headerSize) + EncodeU32Le(g.endianTag) + EncodeU32Le(g.linkSize) + EncodeU32Le(g.linkOff) + EncodeU32Le(g.mapOff) + EncodeU32Le(g.stringIdsSize) + EncodeU32Le(g.stringIdsOff) + EncodeU32Le(g.typeIdsSize) + EncodeU32Le(g.typeIdsOff) + EncodeU32Le(g.protoIdsSize),
      EncodeU32Le(g.protoIdsOff),
      h.magic + EncodeU32Le(h.checksum) + h.signature + EncodeU32Le(h.fileSize) + EncodeU32Le(h.headerSize) + EncodeU32Le(h.endianTag) + EncodeU32Le(h.linkSize) + EncodeU32Le(h.linkOff) + EncodeU32Le(h.mapOff) + EncodeU32Le(h.stringIdsSize) + EncodeU32Le(h.stringIdsOff) + EncodeU32Le(h.typeIdsSize) + EncodeU32Le(h.typeIdsOff) + EncodeU32Le(h.protoIdsSize),
      EncodeU32Le(h.protoIdsOff));
    SplitEq(g.magic + EncodeU32Le(g.checksum) + g.signature + EncodeU32Le(g.fileSize) + EncodeU32Le(g.headerSize) + EncodeU32Le(g.endianTag) + EncodeU32Le(g.linkSize) + EncodeU32Le(g.linkOff) + EncodeU32Le(g.mapOff) + EncodeU32Le(g.stringIdsSize) + EncodeU32Le(g.stringIdsOff) + EncodeU32Le(g.typeIdsSize) + EncodeU32Le(g.typeIdsOff),
      EncodeU32Le(g.protoIdsSize),
      h.magic + EncodeU32Le(h.checksum) + h.signature + EncodeU32Le(h.fileSize) + EncodeU32Le(h.headerSize) + EncodeU32Le(h.endianTag) + EncodeU32Le(h.linkSize) + EncodeU32Le(h.linkOff) + EncodeU32Le(h.mapOff) + EncodeU32Le(h.stringIdsSize) + EncodeU32Le(h.stringIdsOff) + EncodeU32Le(h.typeIdsSize) + EncodeU32Le(h.typeIdsOff),
      EncodeU32Le(h.protoIdsSize));
    SplitEq(g.magic + EncodeU32Le(g.checksum) + g.signature + EncodeU32Le(g.fileSize) + EncodeU32Le(g.headerSize) + EncodeU32Le(g.endianTag) + EncodeU32Le(g.linkSize) + EncodeU32Le(g.linkOff) + EncodeU32Le(g.mapOff) + EncodeU32Le(g.stringIdsSize) + EncodeU32Le(g.stringIdsOff) + EncodeU32Le(g.typeIdsSize),
      EncodeU32Le(g.typeIdsOff),
      h.magic + EncodeU32Le(h.checksum) + h.signature + EncodeU32Le(h.fileSize) + EncodeU32Le(h.headerSize) + EncodeU32Le(h.endianTag) + EncodeU32Le(h.linkSize) + EncodeU32Le(h.linkOff) + EncodeU32Le(h.mapOff) + EncodeU32Le(h.stringIdsSize) + EncodeU32Le(h.stringIdsOff) + EncodeU32Le(h.typeIdsSize),
      EncodeU32Le(h.typeIdsOff));
    SplitEq(g.magic + EncodeU32Le(g.checksum) + g.signature + EncodeU32Le(g.fileSize) + EncodeU32Le(g.headerSize) + EncodeU32Le(g.endianTag) + EncodeU32Le(g.linkSize) + EncodeU32Le(g.linkOff) + EncodeU32Le(g.mapOff) + EncodeU32Le(g.stringIdsSize) + EncodeU32Le(g.stringIdsOff),
      EncodeU32Le(g.typeIdsSize),
      h.magic + EncodeU32Le(h.checksum) + h.signature + EncodeU32Le(h.fileSize) + EncodeU32Le(h.headerSize) + EncodeU32Le(h.endianTag) + EncodeU32Le(h.linkSize) + EncodeU32Le(h.linkOff) + EncodeU32Le(h.mapOff) + EncodeU32Le(h.stringIdsSize) + EncodeU32Le(h.stringIdsOff),
      EncodeU32Le(h.typeIdsSize));
    SplitEq(g.magic + EncodeU32Le(g.checksum) + g.signature + EncodeU32Le(g.fileSize) + EncodeU32Le(g.headerSize) + EncodeU32Le(g.endianTag) + EncodeU32Le(g.linkSize) + EncodeU32Le(g.linkOff) + EncodeU32Le(g.mapOff) + EncodeU32Le(g.stringIdsSize),
      EncodeU32Le(g.stringIdsOff),
      h.magic + EncodeU32Le(h.checksum) + h.signature + EncodeU32Le(h.fileSize) + EncodeU32Le(h.headerSize) + EncodeU32Le(h.endianTag) + EncodeU32Le(h.linkSize) + EncodeU32Le(h.linkOff) + EncodeU32Le(h.mapOff) + EncodeU32Le(h.stringIdsSize),
      EncodeU32Le(h.stringIdsOff));
    SplitEq(g.magic + EncodeU32Le(g.checksum) + g.signature + EncodeU32Le(g.fileSize) + EncodeU32Le(g.headerSize) + EncodeU32Le(g.endianTag) + EncodeU32Le(g.linkSize) + EncodeU32Le(g.linkOff) + EncodeU32Le(g.mapOff),
      EncodeU32Le(g.stringIdsSize),
      h.magic + EncodeU32Le(h.checksum) + h.signature + EncodeU32Le(h.fileSize) + EncodeU32Le(h.headerSize) + EncodeU32Le(h.endianTag) + EncodeU32Le(h.linkSize) + EncodeU32Le(h.linkOff) + EncodeU32Le(h.mapOff),
      EncodeU32Le(h.stringIdsSize));
    SplitEq(g.magic + EncodeU32Le(g.checksum) + g.signature + EncodeU32Le(g.fileSize) + EncodeU32Le(g.headerSize) + EncodeU32Le(g.endianTag) + EncodeU32Le(g.linkSize) + EncodeU32Le(g.linkOff),
      EncodeU32Le(g.mapOff),
      h.magic + EncodeU32Le(h.checksum) + h.signature + EncodeU32Le(h.fileSize) + EncodeU32Le(h.headerSize) + EncodeU32Le(h.endianTag) + EncodeU32Le(h.linkSize) + EncodeU32Le(h.linkOff),
      EncodeU32Le(h.mapOff));
    SplitEq(g.magic + EncodeU32Le(g.checksum) + g.signature + EncodeU32Le(g.fileSize) + EncodeU32Le(g.headerSize) + EncodeU32Le(g.endianTag) + EncodeU32Le(g.linkSize),
      EncodeU32Le(g.linkOff),
      h.magic + EncodeU32Le(h.checksum) + h.signature + EncodeU32Le(h.fileSize) + EncodeU32Le(h.headerSize) + EncodeU32Le(h.endianTag) + EncodeU32Le(h.linkSize),
      EncodeU32Le(h.linkOff));
    SplitEq(g.magic + EncodeU32Le(g.checksum) + g.signature + EncodeU32Le(g.fileSize) + EncodeU32Le(g.headerSize) + EncodeU32Le(g.endianTag),
      EncodeU32Le(g.linkSize),
      h.magic + EncodeU32Le(h.checksum) + h.signature + EncodeU32Le(h.fileSize) + EncodeU32Le(h.headerSize) + EncodeU32Le(h.endianTag),
      EncodeU32Le(h.linkSize));
    SplitEq(g.magic + EncodeU32Le(g.checksum) + g.signature + EncodeU32Le(g.fileSize) + EncodeU32Le(g.headerSize),
      EncodeU32Le(g.endianTag),
      h.magic + EncodeU32Le(h.checksum) + h.signature + EncodeU32Le(h.fileSize) + EncodeU32Le(h.headerSize),
      EncodeU32Le(h.endianTag));
    SplitEq(g.magic + EncodeU32Le(g.checksum) + g.signature + EncodeU32Le(g.fileSize),
      EncodeU32Le(g.headerSize),
      h.magic + EncodeU32Le(h.checksum) + h.signature + EncodeU32Le(h.fileSize),
      EncodeU32Le(h.headerSize));
    SplitEq(g.magic + EncodeU32Le(g.checksum) + g.signature,
      EncodeU32Le(g.fileSize),
      h.magic + EncodeU32Le(h.checksum) + h.signature,
      EncodeU32Le(h.fileSize));
    SplitEq(g.magic + EncodeU32Le(g.checksum),
      g.signature,
      h.magic + EncodeU32Le(h.checksum),
      h.signature);
    SplitEq(g.magic,
      EncodeU32Le(g.checksum),
      h.magic,
      EncodeU32Le(h.checksum));
    EncodeU32LeInjective(g.checksum, h.checksum);
    EncodeU32LeInjective(g.fileSize, h.fileSize);
    EncodeU32LeInjective(g.headerSize, h.headerSize);
    EncodeU32LeInjective(g.endianTag, h.endianTag);
    EncodeU32LeInjective(g.linkSize, h.linkSize);
    EncodeU32LeInjective(g.linkOff, h.linkOff);
    EncodeU32LeInjective(g.mapOff, h.mapOff);
    EncodeU32LeInjective(g.stringIdsSize, h.stringIdsSize);
    EncodeU32LeInjective(g.stringIdsOff, h.stringIdsOff);
    EncodeU32LeInjective(g.typeIdsSize, h.typeIdsSize);
    EncodeU32LeInjective(g.typeIdsOff, h.typeIdsOff);
    EncodeU32LeInjective(g.protoIdsSize, h.protoIdsSize);
    EncodeU32LeInjective(g.protoIdsOff, h.protoIdsOff);
    EncodeU32LeInjective(g.fieldIdsSize, h.fieldIdsSize);
    EncodeU32LeInjective(g.fieldIdsOff, h.fieldIdsOff);
    EncodeU32LeInjective(g.methodIdsSize, h.methodIdsSize);
    EncodeU32LeInjective(g.methodIdsOff, h.methodIdsOff);
    EncodeU32LeInjective(g.classDefsSize, h.classDefsSize);
    EncodeU32LeInjective(g.classDefsOff, h.classDefsOff);
    EncodeU32LeInjective(g.dataSize, h.dataSize);
    EncodeU32LeInjective(g.dataOff, h.dataOff);
  }

  /** Parsing an encoded header, whatever follows it, gives it back when its
      version-41 fields are 0. */
  lemma ParseEncode(h: HeaderItem, rest: Bytes)
    requires h.containzerSize == 0 && h.headerOffset == 0
    ensures ParseFromBytes(Encode(h) + rest) == Ok(h)
  {
    var buffer := Encode(h) + rest;
    var b := buffer[..SIZE];
    assert b == Encode(h);
    ReadHeaderEncodes(b);
    EncodeInjective(ReadHeader(b), h);
  }
}
