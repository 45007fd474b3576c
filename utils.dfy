/** Byte-level primitives of the disassembler (src/utils.rs): fixed-width
    little-endian reads, the nibble split of a byte, and the ULEB128 decoder
    of the Dalvik Executable format (the encoding of section 7.6 of DWARF 3).
    Rust's fixed-width integers are modelled as subset types of `int`. */
module Utils {
  import opened RustTypes

  const TWO_8: int := 0x100
  const TWO_16: int := 0x1_0000
  const TWO_32: int := 0x1_0000_0000
  const TWO_64: int := 0x1_0000_0000_0000_0000

  type U8 = x: int | 0 <= x < 0x100
  type U16 = x: int | 0 <= x < 0x1_0000
  type U32 = x: int | 0 <= x < 0x1_0000_0000
  type U64 = x: int | 0 <= x < 0x1_0000_0000_0000_0000
  type I8 = x: int | -0x80 <= x < 0x80
  type I16 = x: int | -0x8000 <= x < 0x8000
  type I32 = x: int | -0x8000_0000 <= x < 0x8000_0000
  type I64 = x: int | -0x8000_0000_0000_0000 <= x < 0x8000_0000_0000_0000

  /** A byte slice `&[u8]`. */
  type Bytes = seq<U8>

  // ---------------------------------------------------------------------
  // Little-endian encodings: the reference the reads are the inverse of.

  function EncodeU16Le(x: U16): (r: Bytes)
    ensures |r| == 2
  {
    [x % 0x100, x / 0x100]
  }

  function EncodeU32Le(x: U32): (r: Bytes)
    ensures |r| == 4
  {
    EncodeU16Le(x % TWO_16) + EncodeU16Le(x / TWO_16)
  }

  function EncodeU64Le(x: U64): (r: Bytes)
    ensures |r| == 8
  {
    EncodeU32Le(x % TWO_32) + EncodeU32Le(x / TWO_32)
  }

  // ---------------------------------------------------------------------
  // Reads. Each panics in the source when the slice is too short; here that
  // is the precondition.

  /** `read_u16_le`: the u16 whose little-endian bytes are `data[offset..offset+2]`. */
  function ReadU16Le(data: Bytes, offset: nat): (r: U16)
    requires offset + 2 <= |data|
    ensures EncodeU16Le(r) == data[offset..offset + 2]
  {
    var r := data[offset] as int + 0x100 * data[offset + 1] as int;
    DivModUnique(r, 0x100, data[offset + 1], data[offset]);
    r
  }

  /** `read_u32_le`: the u32 whose little-endian bytes are `data[offset..offset+4]`. */
  function ReadU32Le(data: Bytes, offset: nat): (r: U32)
    requires offset + 4 <= |data|
    ensures EncodeU32Le(r) == data[offset..offset + 4]
    ensures r == data[offset] as int + 0x100 * data[offset + 1] as int + 0x1_0000 * data[offset + 2] as int + 0x100_0000 * data[offset + 3] as int
  {
    var lo := ReadU16Le(data, offset);
    var hi := ReadU16Le(data, offset + 2);
    SplitJoin(lo, hi, TWO_16);
    lo + TWO_16 * hi
  }

  /** `read_u64_le`, which the shown source imports but does not define; it is
      taken to be the 8-byte little-endian read its two siblings are. */
  function ReadU64Le(data: Bytes, offset: nat): (r: U64)
    requires offset + 8 <= |data|
    ensures EncodeU64Le(r) == data[offset..offset + 8]
  {
    var lo := ReadU32Le(data, offset);
    var hi := ReadU32Le(data, offset + 4);
    SplitJoin(lo, hi, TWO_32);
    lo + TWO_32 * hi
  }

  /** Splitting `lo + m * hi` at `m` gives back `lo` and `hi`. */
  lemma SplitJoin(lo: int, hi: int, m: int)
    requires 0 <= lo < m && 0 <= hi < m
    ensures (lo + m * hi) % m == lo && (lo + m * hi) / m == hi
    ensures 0 <= lo + m * hi < m * m
  {
    DivModUnique(lo + m * hi, m, hi, lo);
    assert m * hi <= m * (m - 1) by { MulMono(m, hi, m - 1); }
  }

  lemma MulMono(m: int, a: int, b: int)
    requires m >= 0 && a <= b
    ensures m * a <= m * b
  {
    assert m * b - m * a == m * (b - a);
  }

  /** Euclidean division is determined by its quotient and remainder. */
  lemma DivModUnique(a: int, m: int, q: int, r: int)
    requires m > 0 && 0 <= r < m && a == q * m + r
    ensures a / m == q && a % m == r
  {
    var q0, r0 := a / m, a % m;
    assert a == q0 * m + r0;
    assert (q - q0) * m == r0 - r;
    if q > q0 {
      MulMono(m, 1, q - q0);
      assert false;
    }
    if q < q0 {
      MulMono(m, q - q0, -1);
      assert false;
    }
  }

  /** A read of an encoding gives back the encoded value, wherever the
      encoding sits in the slice. */
  lemma {:induction false} ReadU16LeOfEncode(data: Bytes, offset: nat, x: U16)
    requires offset + 2 <= |data| && data[offset..offset + 2] == EncodeU16Le(x)
    ensures ReadU16Le(data, offset) == x
  {
    assert data[offset] == x % 0x100 && data[offset + 1] == x / 0x100;
  }

  lemma {:induction false} ReadU32LeOfEncode(data: Bytes, offset: nat, x: U32)
    requires offset + 4 <= |data| && data[offset..offset + 4] == EncodeU32Le(x)
    ensures ReadU32Le(data, offset) == x
  {
    var w := data[offset..offset + 4];
    assert data[offset..offset + 2] == w[..2] == EncodeU16Le(x % TWO_16);
    assert data[offset + 2..offset + 4] == w[2..] == EncodeU16Le(x / TWO_16);
    ReadU16LeOfEncode(data, offset, x % TWO_16);
    ReadU16LeOfEncode(data, offset + 2, x / TWO_16);
  }

  lemma {:induction false} ReadU64LeOfEncode(data: Bytes, offset: nat, x: U64)
    requires offset + 8 <= |data| && data[offset..offset + 8] == EncodeU64Le(x)
    ensures ReadU64Le(data, offset) == x
  {
    var w := data[offset..offset + 8];
    assert data[offset..offset + 4] == w[..4] == EncodeU32Le(x % TWO_32);
    assert data[offset + 4..offset + 8] == w[4..] == EncodeU32Le(x / TWO_32);
    ReadU32LeOfEncode(data, offset, x % TWO_32);
    ReadU32LeOfEncode(data, offset + 4, x / TWO_32);
  }

  /** A read depends on its own bytes only. */
  lemma ReadU32LeLocal(a: Bytes, oa: nat, b: Bytes, ob: nat)
    requires oa + 4 <= |a| && ob + 4 <= |b| && a[oa..oa + 4] == b[ob..ob + 4]
    ensures ReadU32Le(a, oa) == ReadU32Le(b, ob)
  {
    assert a[oa] == b[ob] && a[oa + 1] == b[ob + 1] && a[oa + 2] == b[ob + 2] && a[oa + 3] == b[ob + 3];
  }

  lemma ReadU16LeLocal(a: Bytes, oa: nat, b: Bytes, ob: nat)
    requires oa + 2 <= |a| && ob + 2 <= |b| && a[oa..oa + 2] == b[ob..ob + 2]
    ensures ReadU16Le(a, oa) == ReadU16Le(b, ob)
  {
    assert a[oa] == b[ob] && a[oa + 1] == b[ob + 1];
  }

  // ---------------------------------------------------------------------
  // Two's-complement reinterpretation (`as i8`, `as i16`, `as i32`, `as i64`).

  /** `x as i8`: the i8 with the same low 8 bits as `x`. */
  function AsI8(x: U8): (r: I8)
    ensures (r - x) % TWO_8 == 0
    ensures (r < 0) == (x >= 0x80)
  {
    if x < 0x80 then x else x - TWO_8
  }

  /** `x as i16`: the i16 with the same low 16 bits as `x`. */
  function AsI16(x: U16): (r: I16)
    ensures (r - x) % TWO_16 == 0
    ensures (r < 0) == (x >= 0x8000)
  {
    if x < 0x8000 then x else x - TWO_16
  }

  /** `x as i32`: the i32 with the same low 32 bits as `x`. */
  function AsI32(x: U32): (r: I32)
    ensures (r - x) % TWO_32 == 0
    ensures (r < 0) == (x >= 0x8000_0000)
  {
    if x < 0x8000_0000 then x else x - TWO_32
  }

  /** `x as i64`: the i64 with the same low 64 bits as `x`. */
  function AsI64(x: U64): (r: I64)
    ensures (r - x) % TWO_64 == 0
    ensures (r < 0) == (x >= 0x8000_0000_0000_0000)
  {
    if x < 0x8000_0000_0000_0000 then x else x - TWO_64
  }

  // ---------------------------------------------------------------------
  // Nibbles.

  /** `to_nibbles`: `(byte & 0x0F, byte >> 4)`, the low nibble first. */
  function ToNibbles(b: U8): (r: (U8, U8))
    ensures r.0 < 16 && r.1 < 16
    ensures r.0 + 16 * r.1 == b
  {
    (b % 16, b / 16)
  }

  function Lo(b: U8): U8 { ToNibbles(b).0 }
  function Hi(b: U8): U8 { ToNibbles(b).1 }

  // ---------------------------------------------------------------------
  // ULEB128.

  function Pow2(k: nat): (r: nat)
    ensures r >= 1
  {
    if k == 0 then 1 else 2 * Pow2(k - 1)
  }

  /** Σ_{i<n} (s[i] & 0x7F) · 2^(7i), without truncation. */
  function UlebSum(s: Bytes, n: nat): nat
    requires n <= |s|
  {
    if n == 0 then 0 else (s[0] % 0x80) + 0x80 * UlebSum(s[1..], n - 1)
  }

  /** The index of the first byte without the continuation bit among the
      first `min(10, |s|)` bytes, if there is one. */
  function UlebEnd(s: Bytes, from: nat): (r: Option<nat>)
    requires from <= |s|
    decreases |s| - from
    ensures r.Some? ==> from <= r.value < |s| && r.value < 10 && s[r.value] < 0x80
    ensures r.Some? ==> forall i :: from <= i < r.value ==> s[i] >= 0x80
    ensures r.None? ==> forall i :: from <= i < |s| && i < 10 ==> s[i] >= 0x80
  {
    if from == |s| || from >= 10 then None
    else if s[from] < 0x80 then Some(from)
    else UlebEnd(s, from + 1)
  }

  /** What `decode_uleb128` returns: the value, truncated to 64 bits as the
      u64 shifts truncate it, and the number of bytes consumed. */
  function Uleb128(s: Bytes): Option<(U64, nat)>
  {
    match UlebEnd(s, 0)
    case None => None
    case Some(last) => Some((UlebSum(s, last + 1) % TWO_64, last + 1))
  }

  lemma {:induction false} UlebSumStep(s: Bytes, k: nat)
    requires k < |s|
    ensures UlebSum(s, k + 1) == UlebSum(s, k) + (s[k] % 0x80) * Pow2(7 * k)
  {
    if k > 0 {
      var rest := UlebSum(s[1..], k - 1);
      var d := s[k] % 0x80;
      var p := Pow2(7 * (k - 1));
      UlebSumStep(s[1..], k - 1);
      assert s[1..][k - 1] == s[k];
      assert UlebSum(s[1..], k) == rest + d * p;
      assert Pow2(7 * k) == 0x80 * p by { Pow2Add(7, 7 * (k - 1)); }
      ShiftGroup(rest, d, p);
    }
  }

  /** Multiplying by 0x80 distributes over a sum of a rest and a shifted group. */
  lemma ShiftGroup(rest: int, d: int, p: int)
    ensures 0x80 * (rest + d * p) == 0x80 * rest + d * (0x80 * p)
  {
  }

  lemma {:induction false} Pow2Add(a: nat, b: nat)
    ensures Pow2(a + b) == Pow2(a) * Pow2(b)
  {
    if a > 0 {
      Pow2Add(a - 1, b);
    }
  }

  lemma ModAdd(a: int, b: int, m: int)
    requires m > 0
    ensures (a % m + b) % m == (a + b) % m
  {
    var q, r := a / m, a % m;
    assert a == q * m + r;
    var q2, r2 := (r + b) / m, (r + b) % m;
    assert r + b == q2 * m + r2;
    assert a + b == (q + q2) * m + r2;
    DivModUnique(a + b, m, q + q2, r2);
  }

  /** `decode_uleb128`: reads 7 payload bits per byte, low group first, while
      bit 7 is set, giving up after 10 bytes. */
  method DecodeUleb128(input: Bytes) returns (r: Option<(U64, nat)>)
    ensures r == Uleb128(input)
  {
    var result: U64 := 0;
    var shift: nat := 0;
    var count: nat := 0;
    while count < |input|
      invariant count <= |input| && count < 10
      invariant shift == 7 * count
      invariant result == UlebSum(input, count) % TWO_64
      invariant UlebEnd(input, 0) == UlebEnd(input, count)
    {
      var byte := input[count];
      var value := byte % 0x80;
      // `result |= value << shift`: the u64 shift drops the bits above 63, and
      // the bits it sets lie above those of `result`, so the OR is an addition.
      UlebSumStep(input, count);
      ModAdd(UlebSum(input, count), value * Pow2(shift), TWO_64);
      result := (result + value * Pow2(shift)) % TWO_64;
      count := count + 1;
      if byte < 0x80 {
        return Some((result, count));
      }
      shift := shift + 7;
      if shift >= 64 {
        break;
      }
    }
    return None;
  }

  /** The reference encoder: the inverse of the decoder. */
  function EncodeUleb128(v: nat): (r: Bytes)
    ensures |r| >= 1
    decreases v
  {
    if v < 0x80 then [v] else [v % 0x80 + 0x80] + EncodeUleb128(v / 0x80)
  }

  lemma {:induction false} EncodeUleb128Length(v: nat, k: nat)
    requires k >= 1 && v < Pow2(7 * k)
    ensures |EncodeUleb128(v)| <= k
  {
    if v >= 0x80 {
      assert Pow2(7) == 0x80;
      if k == 1 {
        assert false;
      }
      Pow2Add(7, 7 * (k - 1));
      assert 7 * k == 7 + 7 * (k - 1);
      EncodeUleb128Length(v / 0x80, k - 1);
    }
  }

  lemma {:induction false} EncodeUleb128Bits(v: nat)
    ensures EncodeUleb128(v)[|EncodeUleb128(v)| - 1] < 0x80
    ensures forall i :: 0 <= i < |EncodeUleb128(v)| - 1 ==> EncodeUleb128(v)[i] >= 0x80
  {
    if v >= 0x80 {
      var e := EncodeUleb128(v);
      EncodeUleb128Bits(v / 0x80);
      assert e[1..] == EncodeUleb128(v / 0x80);
      assert forall i :: 1 <= i < |e| ==> e[i] == e[1..][i - 1];
    }
  }

  lemma {:induction false} EncodeUleb128Sum(v: nat)
    ensures UlebSum(EncodeUleb128(v), |EncodeUleb128(v)|) == v
  {
    if v >= 0x80 {
      var e := EncodeUleb128(v);
      EncodeUleb128Sum(v / 0x80);
      assert e[1..] == EncodeUleb128(v / 0x80);
      assert e[0] % 0x80 == v % 0x80;
    }
  }

  /** Decoding an encoding of any u64, whatever bytes follow it, gives back
      the value and the length of the encoding. */
  lemma UlebRoundTrip(v: U64, rest: Bytes)
    ensures |EncodeUleb128(v)| <= 10
    ensures Uleb128(EncodeUleb128(v) + rest) == Some((v, |EncodeUleb128(v)|))
  {
    var e := EncodeUleb128(v);
    assert Pow2(70) > TWO_64 by {
      Pow2Add(64, 6);
      Pow2Is(64);
    }
    EncodeUleb128Length(v, 10);
    EncodeUleb128Bits(v);
    EncodeUleb128Sum(v);
    var s := e + rest;
    assert s[..|e|] == e;
    UlebEndFinds(s, 0, |e| - 1);
    UlebSumPrefix(s, e, |e|);
  }

  lemma {:induction false} Pow2Is16(k: nat)
    requires k == 16
    ensures Pow2(k) == TWO_16
  {
    assert Pow2(2) == 4;
    assert Pow2(4) == 16 by { Pow2Add(2, 2); }
    assert Pow2(8) == 0x100 by { Pow2Add(4, 4); }
    Pow2Add(8, 8);
  }

  lemma {:induction false} Pow2Is32(k: nat)
    requires k == 32
    ensures Pow2(k) == TWO_32
  {
    Pow2Is16(16);
    Pow2Add(16, 16);
  }

  lemma {:induction false} Pow2Is(k: nat)
    requires k == 64
    ensures Pow2(k) == TWO_64
  {
    Pow2Is32(32);
    Pow2Add(32, 32);
  }

  lemma {:induction false} UlebEndFinds(s: Bytes, from: nat, last: nat)
    requires from <= last < |s| && last < 10
    requires s[last] < 0x80 && forall i :: from <= i < last ==> s[i] >= 0x80
    ensures UlebEnd(s, from) == Some(last)
    decreases last - from
  {
    if from < last {
      UlebEndFinds(s, from + 1, last);
    }
  }

  lemma {:induction false} UlebSumPrefix(s: Bytes, p: Bytes, n: nat)
    requires n <= |p| <= |s| && s[..|p|] == p
    ensures UlebSum(s, n) == UlebSum(p, n)
  {
    if n > 0 {
      assert s[0] == p[0];
      assert s[1..][..|p[1..]|] == p[1..];
      UlebSumPrefix(s[1..], p[1..], n - 1);
    }
  }

  /** The characterisation of the decoder's result, one statement at a time. */
  lemma UlebResultShape(s: Bytes)
    ensures s == [] ==> Uleb128(s) == None
    ensures Uleb128(s).None? <==> forall i :: 0 <= i < |s| && i < 10 ==> s[i] >= 0x80
    ensures Uleb128(s).Some? ==>
              var n := Uleb128(s).value.1;
              1 <= n <= |s| && n <= 10 && s[n - 1] < 0x80 &&
              (forall i :: 0 <= i < n - 1 ==> s[i] >= 0x80) &&
              Uleb128(s).value.0 == UlebSum(s, n) % TWO_64
  {
  }

  /** A decoded ULEB128 never uses more bytes than there are. */
  lemma UlebUsedBound(s: Bytes)
    ensures Uleb128(s).Some? ==> 1 <= Uleb128(s).value.1 <= |s|
  {
    UlebResultShape(s);
  }

  /** A single byte below 0x80 decodes to itself, consuming one byte. */
  lemma UlebSingleByte(b: U8, rest: Bytes)
    requires b < 0x80
    ensures Uleb128([b] + rest) == Some((b, 1))
  {
    var s := [b] + rest;
    assert UlebEnd(s, 0) == Some(0);
    assert UlebSum(s, 1) == b;
  }
}
