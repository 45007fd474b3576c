/** The text building blocks the renderers use: Rust's `{}` formatting of
    integers, `Vec::join`, `str::trim_start`, and `{:#x}` of a byte. */
module Fmt {

  function Digit(d: nat): (c: char)
    requires d < 10
    ensures '0' <= c <= '9' && c as int - '0' as int == d
  {
    ('0' as int + d) as char
  }

  predicate IsDigits(s: string)
  {
    forall i :: 0 <= i < |s| ==> '0' <= s[i] <= '9'
  }

  /** The value of a string of decimal digits: the reference `NatToString` inverts. */
  function DecimalValue(s: string): nat
    requires IsDigits(s)
  {
    if s == [] then 0
    else 10 * DecimalValue(s[..|s| - 1]) + (s[|s| - 1] as int - '0' as int)
  }

  /** `{}` of an unsigned integer: its decimal digits. Its facts are
      `NatToStringShape`, kept out of the function so that the renderer's
      many applications of it stay cheap. */
  function NatToString(n: nat): string
  {
    if n < 10 then [Digit(n)] else NatToString(n / 10) + [Digit(n % 10)]
  }

  /** The digits of `n`, no leading zero, whose value is `n`. */
  lemma {:induction false} NatToStringShape(n: nat)
    ensures var s := NatToString(n);
      |s| >= 1 && IsDigits(s) && (|s| > 1 ==> s[0] != '0') && DecimalValue(s) == n
  {
    if n >= 10 {
      var p := NatToString(n / 10);
      NatToStringShape(n / 10);
      var s := p + [Digit(n % 10)];
      assert s[..|s| - 1] == p;
    }
  }

  /** `{}` of a signed integer: a minus sign before the digits of a negative value. */
  function IntToString(i: int): string
  {
    if i < 0 then "-" + NatToString(-i) else NatToString(i)
  }

  lemma IntToStringShape(i: int)
    ensures var s := IntToString(i);
      |s| >= 1 &&
      (i < 0 ==> s[0] == '-' && IsDigits(s[1..]) && DecimalValue(s[1..]) == -i) &&
      (i >= 0 ==> IsDigits(s) && DecimalValue(s) == i)
  {
    if i < 0 {
      NatToStringShape(-i);
      assert IntToString(i)[1..] == NatToString(-i);
    } else {
      NatToStringShape(i);
    }
  }

  /** A register operand, `v{r}`. */
  function Reg(r: nat): string
  {
    "v" + NatToString(r)
  }

  /** `v` and the digits of the register number. */
  lemma RegShape(r: nat)
    ensures var s := Reg(r);
      |s| >= 2 && s[0] == 'v' && IsDigits(s[1..]) && DecimalValue(s[1..]) == r
  {
    NatToStringShape(r);
    assert Reg(r)[1..] == NatToString(r);
  }

  /** `words.join(sep)`. */
  function Join(words: seq<string>, sep: string): (s: string)
    ensures words == [] ==> s == ""
    ensures |words| == 1 ==> s == words[0]
  {
    if words == [] then ""
    else if |words| == 1 then words[0]
    else words[0] + sep + Join(words[1..], sep)
  }

  lemma {:induction false} JoinAppend(words: seq<string>, w: string, sep: string)
    requires words != []
    ensures Join(words + [w], sep) == Join(words, sep) + sep + w
  {
    if |words| == 1 {
      assert (words + [w])[1..] == [w];
    } else {
      assert (words + [w])[1..] == words[1..] + [w];
      JoinAppend(words[1..], w, sep);
    }
  }

  /** The ASCII whitespace `trim_start` removes (all text rendered here is ASCII). */
  predicate IsWhitespace(c: char)
  {
    c == ' ' || c == '\t' || c == '\n' || c == '\r' || c == '\U{B}' || c == '\U{C}'
  }

  /** `s.trim_start()`: `s` without its leading whitespace. */
  function TrimStart(s: string): string
  {
    if s != [] && IsWhitespace(s[0]) then TrimStart(s[1..]) else s
  }

  /** `trim_start` removes a prefix of whitespace and stops at the first
      other character. */
  lemma {:induction false} TrimStartShape(s: string)
    ensures var r := TrimStart(s);
      |r| <= |s| && r == s[|s| - |r|..] &&
      (r != [] ==> !IsWhitespace(r[0])) &&
      (forall i :: 0 <= i < |s| - |r| ==> IsWhitespace(s[i]))
    decreases |s|
  {
    if s != [] && IsWhitespace(s[0]) {
      TrimStartShape(s[1..]);
      var r := TrimStart(s);
      assert forall i :: 1 <= i < |s| - |r| ==> s[i] == s[1..][i - 1];
    }
  }

  function HexDigit(d: nat): (c: char)
    requires d < 16
  {
    "0123456789abcdef"[d]
  }

  /** `{:#x}` of a byte: `0x` and its lower-case hexadecimal digits, no leading zero. */
  function HexByte(b: nat): (s: string)
    requires b < 0x100
    ensures |s| == 3 || |s| == 4
    ensures s[..2] == "0x"
  {
    if b < 16 then "0x" + [HexDigit(b)] else "0x" + [HexDigit(b / 16), HexDigit(b % 16)]
  }
}
