/** `read_string_from_bytes` (src/dex/string.rs): a `string_data_item` of
    the Dalvik Executable format is a ULEB128 count of UTF-16 code units
    followed by the string's bytes up to a NUL byte. `String::from_utf8_lossy`
    is outside this model: the caller passes it as `lossy`. */
module DexString {
  import opened Utils
  import opened RustTypes
  import opened Errors

  /** The message `CStr::from_bytes_until_nul`'s error displays. */
  const NO_NUL: string := "data provided does not contain a nul"

  /** `CStr::from_bytes_until_nul(..).to_bytes()`: the bytes before the
      first NUL, or nothing when there is no NUL. */
  function UntilNul(s: Bytes): (r: Option<Bytes>)
    ensures r.None? <==> 0 !in s
    ensures r.Some? ==> |r.value| < |s| && r.value == s[..|r.value|] && 0 !in r.value && s[|r.value|] == 0
  {
    if s == [] then None
    else if s[0] == 0 then Some([])
    else
      match UntilNul(s[1..])
      case None => None
      case Some(t) => Some([s[0]] + t)
  }

  /** The string data after its length: the bytes up to, and not including,
      the first NUL, decoded by `lossy`; an `InvalidData` error without a
      NUL. */
  function ReadUntilNul(buffer: Bytes, start: nat, lossy: Bytes -> string): (r: Result<string, IoError>)
    requires start <= |buffer|
    ensures r.Ok? <==> 0 in buffer[start..]
    ensures r.Err? ==> r.error.kind == InvalidData
    ensures r.Ok? ==> r.value == lossy(UntilNul(buffer[start..]).value)
  {
    var bytes := UntilNul(buffer[start..]);
    if bytes.None? then Err(IoError(InvalidData, "Failed to parse CStr: " + NO_NUL))
    else Ok(lossy(bytes.value))
  }

  /** `read_string_from_bytes`: the ULEB128 length at `offset`, then the bytes
      after it up to the first NUL. The decoded length is only compared with
      the string's UTF-16 length for a warning, so it never changes the
      result. Its contract is `ReadStringFromBytesShape`. */
  function ReadStringFromBytes(buffer: Bytes, offset: nat, lossy: Bytes -> string): Result<string, IoError>
    requires offset <= |buffer|
  {
    var len := Uleb128(buffer[offset..]);
    if len.None? then Err(IoError(InvalidData, "Failed to decode ULEB128 for string length"))
    else
      UlebUsedBound(buffer[offset..]);
      ReadUntilNul(buffer, offset + len.value.1, lossy)
  }

  /** Without a ULEB128 length the read fails with that message; with one,
      the string starts inside the buffer after the length, the read succeeds
      exactly when a NUL follows, the string is the bytes before that NUL, and
      every failure is `InvalidData`. */
  lemma ReadStringFromBytesShape(buffer: Bytes, offset: nat, lossy: Bytes -> string)
    requires offset <= |buffer|
    ensures var r := ReadStringFromBytes(buffer, offset, lossy);
            Uleb128(buffer[offset..]).None? ==> r == Err(IoError(InvalidData, "Failed to decode ULEB128 for string length"))
    ensures var r := ReadStringFromBytes(buffer, offset, lossy);
            Uleb128(buffer[offset..]).Some? ==>
              var start := offset + Uleb128(buffer[offset..]).value.1;
              start <= |buffer| &&
              (r.Ok? <==> 0 in buffer[start..]) &&
              (r.Err? ==> r.error.kind == InvalidData) &&
              (r.Ok? ==> r.value == lossy(UntilNul(buffer[start..]).value))
  {
    var len := Uleb128(buffer[offset..]);
    if len.Some? {
      UlebUsedBound(buffer[offset..]);
    }
  }
}
