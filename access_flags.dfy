/** `AccessFlags::to_human_readable` (src/dex/access_flags.rs): the
    `access_flags` bits of the Dalvik Executable format tested one by one in
    a fixed order, the words of the set ones pushed onto a list, and the list
    joined with single spaces. */
module AccessFlags {
  import opened Fmt

  const PUBLIC: bv32 := 0x1
  const PRIVATE: bv32 := 0x2
  const PROTECTED: bv32 := 0x4
  const STATIC: bv32 := 0x8
  const FINAL: bv32 := 0x10
  const SYNCHRONIZED: bv32 := 0x20
  const VOLATILE: bv32 := 0x40
  const BRIDGE: bv32 := 0x40
  const TRANSIENT: bv32 := 0x80
  const VARARGS: bv32 := 0x80
  const NATIVE: bv32 := 0x100
  const INTERFACE: bv32 := 0x200
  const ABSTRACT: bv32 := 0x400
  const STRICT: bv32 := 0x800
  const SYNTHETIC: bv32 := 0x1000
  const ANNOTATION: bv32 := 0x2000
  const ENUM: bv32 := 0x4000
  const CONSTRUCTOR: bv32 := 0x10000
  const DECLARED_SYNCHRONIZED: bv32 := 0x20000

  /** `contains`: every bit of `mask` is set in `flags`. */
  predicate Contains(flags: bv32, mask: bv32)
  {
    flags & mask == mask
  }

  /** The words the renderer can push, one per distinct string literal. */
  datatype FlagWord = Public | Private | Protected | Static | Final | Synchronized | Volatile | Transient | Native | Interface | Abstract | Strictfp | Constructor

  function Text(w: FlagWord): string
  {
    match w
    case Public => "public"
    case Private => "private"
    case Protected => "protected"
    case Static => "static"
    case Final => "final"
    case Synchronized => "synchronized"
    case Volatile => "volatile"
    case Transient => "transient"
    case Native => "native"
    case Interface => "interface"
    case Abstract => "abstract"
    case Strictfp => "strictfp"
    case Constructor => "constructor"
  }

  /** The bit that selects each word. */
  function Mask(w: FlagWord): bv32
  {
    match w
    case Public => PUBLIC
    case Private => PRIVATE
    case Protected => PROTECTED
    case Static => STATIC
    case Final => FINAL
    case Synchronized => SYNCHRONIZED
    case Volatile => VOLATILE
    case Transient => TRANSIENT
    case Native => NATIVE
    case Interface => INTERFACE
    case Abstract => ABSTRACT
    case Strictfp => STRICT
    case Constructor => CONSTRUCTOR
  }

  /** A table of tests, read from the first to the last: `Then(t, w)` makes
      the tests of `t` and then tests the bit of `w`. */
  datatype Table = Start | Then(before: Table, word: FlagWord)

  /** The tests of `to_human_readable` in order; `SYNCHRONIZED` is tested
      twice, first and last. */
  const TESTS: Table := Then(Then(Then(Then(Then(Then(Then(Then(Then(Then(Then(Then(Then(Then(Start, Public), Private), Protected), Static), Final), Synchronized), Volatile), Transient), Native), Interface), Abstract), Strictfp), Constructor), Synchronized)

  /** What one test contributes: its word when the mask is set. */
  function Piece(flags: bv32, mask: bv32, word: FlagWord): seq<FlagWord>
  {
    if Contains(flags, mask) then [word] else []
  }

  /** The words a table selects, in the order of its tests. */
  function Select(flags: bv32, t: Table): seq<FlagWord>
  {
    match t
    case Start => []
    case Then(before, w) => Select(flags, before) + Piece(flags, Mask(w), w)
  }

  /** The words `to_human_readable` selects. */
  function Words(flags: bv32): seq<FlagWord>
  {
    Select(flags, TESTS)
  }

  /** Whether a table tests for `x`. */
  function Has(t: Table, x: FlagWord): bool
  {
    match t
    case Start => false
    case Then(before, w) => Has(before, x) || w == x
  }

  /** How many tests of a table are for `x`. */
  function Count(t: Table, x: FlagWord): nat
  {
    match t
    case Start => 0
    case Then(before, w) => Count(before, x) + if w == x then 1 else 0
  }

  /** The texts of a list of words. */
  function Texts(ws: seq<FlagWord>): (ts: seq<string>)
    ensures |ts| == |ws| && forall i :: 0 <= i < |ws| ==> ts[i] == Text(ws[i])
  {
    if ws == [] then [] else Texts(ws[..|ws| - 1]) + [Text(ws[|ws| - 1])]
  }

  /** One test of `to_human_readable`: push the word when the mask is set. */
  method PushIf(words: seq<FlagWord>, flags: bv32, mask: bv32, word: FlagWord) returns (r: seq<FlagWord>)
    ensures r == words + Piece(flags, mask, word)
  {
    r := words;
    if Contains(flags, mask) {
      r := r + [word];
    }
  }

  /** `to_human_readable`: the fourteen tests in order, then the join of the
      words with single spaces. */
  method ToHumanReadable(flags: bv32) returns (s: string)
    ensures s == Join(Texts(Words(flags)), " ")
  {
    var words: seq<FlagWord> := [];
    ghost var done := Start;
    words := PushIf(words, flags, PUBLIC, Public);
    done := Then(done, Public);
    assert words == Select(flags, done);
    words := PushIf(words, flags, PRIVATE, Private);
    done := Then(done, Private);
    assert words == Select(flags, done);
    words := PushIf(words, flags, PROTECTED, Protected);
    done := Then(done, Protected);
    assert words == Select(flags, done);
    words := PushIf(words, flags, STATIC, Static);
    done := Then(done, Static);
    assert words == Select(flags, done);
    words := PushIf(words, flags, FINAL, Final);
    done := Then(done, Final);
    assert words == Select(flags, done);
    words := PushIf(words, flags, SYNCHRONIZED, Synchronized);
    done := Then(done, Synchronized);
    assert words == Select(flags, done);
    words := PushIf(words, flags, VOLATILE, Volatile);
    done := Then(done, Volatile);
    assert words == Select(flags, done);
    words := PushIf(words, flags, TRANSIENT, Transient);
    done := Then(done, Transient);
    assert words == Select(flags, done);
    words := PushIf(words, flags, NATIVE, Native);
    done := Then(done, Native);
    assert words == Select(flags, done);
    words := PushIf(words, flags, INTERFACE, Interface);
    done := Then(done, Interface);
    assert words == Select(flags, done);
    words := PushIf(words, flags, ABSTRACT, Abstract);
    done := Then(done, Abstract);
    assert words == Select(flags, done);
    words := PushIf(words, flags, STRICT, Strictfp);
    done := Then(done, Strictfp);
    assert words == Select(flags, done);
    words := PushIf(words, flags, CONSTRUCTOR, Constructor);
    done := Then(done, Constructor);
    assert words == Select(flags, done);
    words := PushIf(words, flags, SYNCHRONIZED, Synchronized);
    done := Then(done, Synchronized);
    assert words == Select(flags, done);
    assert done == TESTS;
    return Join(Texts(words), " ");
  }

  /** A word is selected by a table exactly when its bit is set and the
      table tests for it. */
  lemma {:induction false} SelectIn(flags: bv32, t: Table, x: FlagWord)
    ensures (x in Select(flags, t)) == (Contains(flags, Mask(x)) && Has(t, x))
  {
    if t.Then? {
      SelectIn(flags, t.before, x);
    }
  }

  /** How often a table selects a word: as often as it tests for it when its
      bit is set, and never otherwise. */
  lemma {:induction false} SelectCount(flags: bv32, t: Table, x: FlagWord)
    ensures multiset(Select(flags, t))[x] == if Contains(flags, Mask(x)) then Count(t, x) else 0
  {
    if t.Then? {
      SelectCount(flags, t.before, x);
    }
  }

  /** The masks the renderer tests. */
  const RENDERED: bv32 := 0x1_0FFF

  /** Bits outside `RENDERED` do not affect any word's test. */
  lemma ContainsRendered(flags: bv32, w: FlagWord)
    ensures Contains(flags, Mask(w)) == Contains(flags & RENDERED, Mask(w))
  {
    var m := Mask(w);
    assert m & RENDERED == m;
    assert (flags & RENDERED) & m == flags & m;
  }

  /** A table's selection does not depend on bits outside `RENDERED`. */
  lemma {:induction false} SelectMasked(flags: bv32, t: Table)
    ensures Select(flags, t) == Select(flags & RENDERED, t)
  {
    if t.Then? {
      SelectMasked(flags, t.before);
      ContainsRendered(flags, t.word);
    }
  }

  /** The renderer tests for every word. */
  lemma TestsCoverAllWords(x: FlagWord)
    ensures Has(TESTS, x)
  {
  }

  /** The renderer tests for "synchronized" twice. */
  lemma SynchronizedTestedTwice()
    ensures Count(TESTS, Synchronized) == 2
  {
  }

  /** Every word is rendered exactly when its bit is set; for a method the
      bits 0x40 and 0x80 (`BRIDGE`, `VARARGS`) still read "volatile" and
      "transient". */
  lemma WordPresence(flags: bv32, x: FlagWord)
    ensures (x in Words(flags)) == Contains(flags, Mask(x))
  {
    SelectIn(flags, TESTS, x);
    TestsCoverAllWords(x);
  }

  /** "synchronized" is rendered twice when bit 0x20 is set and not at all
      otherwise. */
  lemma SynchronizedTwice(flags: bv32)
    ensures multiset(Words(flags))[Synchronized] == if Contains(flags, SYNCHRONIZED) then 2 else 0
  {
    SelectCount(flags, TESTS, Synchronized);
    SynchronizedTestedTwice();
  }

  /** No word the renderer can push reads "bridge" or "varargs". */
  lemma NoBridgeOrVarargs(ws: seq<FlagWord>)
    ensures "bridge" !in Texts(ws) && "varargs" !in Texts(ws)
  {
    var ts := Texts(ws);
    forall i | 0 <= i < |ts|
      ensures ts[i] != "bridge" && ts[i] != "varargs"
    {
      assert ts[i] == Text(ws[i]);
      assert |"bridge"| == 6 && |"varargs"| == 7;
    }
  }

  /** Bits outside `RENDERED` (synthetic, annotation, enum, declared-synchronized
      and all bits above them) never change the output. */
  lemma UnrenderedBitsIgnored(flags: bv32)
    ensures Words(flags) == Words(flags & RENDERED)
  {
    SelectMasked(flags, TESTS);
  }

  /** No flags render as the empty string. */
  lemma NoFlagsRenderEmpty()
    ensures Words(0) == [] && Join(Texts(Words(0)), " ") == ""
  {
    if Words(0) != [] {
      var x := Words(0)[0];
      assert Mask(x) != 0;
      WordPresence(0, x);
    }
  }
}
