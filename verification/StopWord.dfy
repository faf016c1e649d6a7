/** The packed state word of a stop state: two flags and two reference counts, and
    what the atomic operations on the word mean for them. */
module StopWord {
  import opened Words

  const REQUESTED: word := 1
  const COMPLETE: word := 2
  const SOURCE_REF: word := 4
  const TOKEN_REF: word := 0x2_0000_0000
  const STOP_POSSIBLE_MASK: word := TOKEN_REF - 1
  const REF_COUNT_MASK: word := TWO64 - 4

  /** A count fits its field of the word. */
  const COUNT_LIMIT: nat := 0x8000_0000

  datatype Fields = Fields(requested: bool, complete: bool, sources: nat, tokens: nat) {
    predicate Fits() { sources < COUNT_LIMIT && tokens < COUNT_LIMIT }
  }

  function Bit(b: bool): nat { if b then 1 else 0 }

  /** The word that 64-bit arithmetic makes of the fields. */
  function Pack(f: Fields): word {
    Wrap(Bit(f.requested) + COMPLETE * Bit(f.complete) + SOURCE_REF * f.sources + TOKEN_REF * f.tokens)
  }

  function Sources(w: word): nat { (w % TOKEN_REF) / SOURCE_REF }

  function Tokens(w: word): nat { w / TOKEN_REF }

  /** While both counts fit, the word determines all four fields. */
  lemma PackDetermines(f: Fields)
    requires f.Fits()
    ensures Pack(f) == Bit(f.requested) + COMPLETE * Bit(f.complete) + SOURCE_REF * f.sources + TOKEN_REF * f.tokens
    ensures Sources(Pack(f)) == f.sources && Tokens(Pack(f)) == f.tokens
    ensures Pack(f) % 2 == Bit(f.requested) && Pack(f) % 4 == Flags(f)
  {
    var low := Flags(f) + SOURCE_REF * f.sources;
    PackFits(f);
    ModIs(Pack(f), TOKEN_REF, f.tokens, low);
    ModIs(low, SOURCE_REF, f.sources, Flags(f));
    ModIs(Pack(f), SOURCE_REF, f.sources + COUNT_LIMIT * f.tokens, Flags(f));
    ModIs(Pack(f), 2, Bit(f.complete) + 2 * f.sources + 2 * COUNT_LIMIT * f.tokens, Bit(f.requested));
  }

  function Flags(f: Fields): nat { Bit(f.requested) + COMPLETE * Bit(f.complete) }

  lemma PackFits(f: Fields)
    requires f.Fits()
    ensures Pack(f) == Flags(f) + SOURCE_REF * f.sources + TOKEN_REF * f.tokens
  {
    WrapSmall(Flags(f) + SOURCE_REF * f.sources + TOKEN_REF * f.tokens);
  }

  /** Beyond that they do not: one source too many reads as one token more and no
      source. */
  lemma SourcesCarry(f: Fields)
    requires f.Fits()
    ensures Pack(f.(sources := COUNT_LIMIT)) == Pack(f.(sources := 0, tokens := f.tokens + 1))
  {
  }

  /** Adding a source reference counts one more source and changes nothing else
      exactly as long as the count stays within its field. */
  lemma AddSourceRefines(f: Fields)
    requires f.Fits()
    ensures AddWords(Pack(f), SOURCE_REF) == Pack(f.(sources := f.sources + 1))
    ensures Sources(AddWords(Pack(f), SOURCE_REF)) == f.sources + 1 <==> f.sources + 1 < COUNT_LIMIT
    ensures f.sources + 1 < COUNT_LIMIT ==> Tokens(AddWords(Pack(f), SOURCE_REF)) == f.tokens
  {
    PackDetermines(f);
    if f.sources + 1 < COUNT_LIMIT {
      PackDetermines(f.(sources := f.sources + 1));
    }
  }

  lemma AddTokenRefines(f: Fields)
    requires f.Fits()
    ensures AddWords(Pack(f), TOKEN_REF) == Pack(f.(tokens := f.tokens + 1))
    ensures Tokens(AddWords(Pack(f), TOKEN_REF)) == f.tokens + 1 <==> f.tokens + 1 < COUNT_LIMIT
    ensures Sources(AddWords(Pack(f), TOKEN_REF)) == f.sources
  {
    PackDetermines(f);
    if f.tokens + 1 < COUNT_LIMIT {
      PackDetermines(f.(tokens := f.tokens + 1));
    } else {
      PackDetermines(f.(tokens := 0));
      WrapShift(Pack(f.(tokens := 0)), 1);
    }
  }

  lemma SubRefines(f: Fields)
    requires f.Fits()
    ensures f.sources > 0 ==> SubWords(Pack(f), SOURCE_REF) == Pack(f.(sources := f.sources - 1))
    ensures f.tokens > 0 ==> SubWords(Pack(f), TOKEN_REF) == Pack(f.(tokens := f.tokens - 1))
  {
    PackDetermines(f);
  }

  // ---------- bits ----------

  /** Bitwise disjunction of two naturals, bit by bit. */
  function BitOr(x: nat, y: nat): nat
    decreases x + y
  {
    if x == 0 && y == 0 then 0 else 2 * BitOr(x / 2, y / 2) + if x % 2 == 1 || y % 2 == 1 then 1 else 0
  }

  lemma {:induction false} OrWithZero(x: nat)
    ensures BitOr(x, 0) == x
  {
    if x > 0 { OrWithZero(x / 2); }
  }

  /** `fetch_or` of the requested flag sets that flag and nothing else. */
  lemma OrRequestedRefines(f: Fields)
    requires f.Fits()
    ensures BitOr(Pack(f), REQUESTED) == Pack(f.(requested := true))
  {
    PackDetermines(f);
    PackDetermines(f.(requested := true));
    OrWithZero(Pack(f) / 2);
  }

  /** `fetch_add` of the complete flag sets it, provided it was not set. */
  lemma AddCompleteRefines(f: Fields)
    requires f.Fits()
    ensures AddWords(Pack(f), COMPLETE) == Pack(f.(complete := true)) <==> !f.complete
  {
    PackDetermines(f);
    PackDetermines(f.(complete := true));
  }

  lemma FlagsRefine(f: Fields)
    requires f.Fits()
    ensures BitAnd(Pack(f), REQUESTED) != 0 <==> f.requested
    ensures BitAnd(Pack(f), COMPLETE) != 0 <==> f.complete
  {
    PackDetermines(f);
    var w := Pack(f);
    AndWithZero(w / 2);
    AndWithZero(w / 4);
    if w > 0 {
      assert BitAnd(w, 1) == 2 * BitAnd(w / 2, 0) + w % 2;
      assert BitAnd(w, 2) == 2 * BitAnd(w / 2, 1);
    }
    if w / 2 > 0 { assert BitAnd(w / 2, 1) == 2 * BitAnd(w / 4, 0) + (w / 2) % 2; }
  }

  lemma PowersOfTwo()
    ensures Pow2(33) == TOKEN_REF && Pow2(62) * 4 == TWO64
  {
    Pow2Of64();
    Pow2Sum(62, 2);
    assert Pow2(2) == 4;
    assert Pow2(8) == 256;
    Pow2Sum(8, 8);
    Pow2Sum(16, 16);
    Pow2Sum(32, 1);
  }

  /** Masking finds that a stop is possible if a source is left, or if it was
      requested already; tokens alone do not make it possible. */
  lemma StopPossibleRefines(f: Fields)
    requires f.Fits()
    ensures BitAnd(Pack(f), STOP_POSSIBLE_MASK) != 0 <==> f.sources > 0 || f.requested || f.complete
  {
    PackDetermines(f);
    PowersOfTwo();
    MaskIsModulo(Pack(f), 33);
  }

  /** The mask of the reference counts drops just the two flags. */
  lemma RefCountMaskRefines(f: Fields)
    requires f.Fits()
    ensures BitAnd(Pack(f), REF_COUNT_MASK) == SOURCE_REF * f.sources + TOKEN_REF * f.tokens
  {
    PackDetermines(f);
    MaskDropsTwo(Pack(f));
  }

  lemma MaskDropsTwo(w: word)
    ensures BitAnd(w, REF_COUNT_MASK) == w - w % 4
  {
    PowersOfTwo();
    var m := Pow2(62) - 1;
    assert REF_COUNT_MASK == 4 * m;
    MaskIsModulo(w / 4, 62);
    WrapSmall(w);
    assert (w / 4) % Pow2(62) == w / 4 by { ModIs(w / 4, Pow2(62), 0, w / 4); }
    DoubleMask(w / 2, 2 * m, m);
    DoubleMask(w, 4 * m, 2 * m);
    assert w / 2 / 2 == w / 4;
  }

  lemma DoubleMask(w: nat, mask: nat, half: nat)
    requires mask == 2 * half
    ensures BitAnd(w, mask) == 2 * BitAnd(w / 2, half)
  {
    if w == 0 { assert BitAnd(w / 2, half) == 0; } else { assert mask / 2 == half; }
  }

  /** A release saw the last reference exactly if no reference is left after it. */
  lemma LastReleaseRefines(f: Fields)
    requires f.Fits()
    ensures f.sources > 0 ==>
      (BitAnd(Pack(f), REF_COUNT_MASK) == SOURCE_REF <==> f.sources - 1 == 0 && f.tokens == 0)
    ensures f.tokens > 0 ==>
      (BitAnd(Pack(f), REF_COUNT_MASK) == TOKEN_REF <==> f.sources == 0 && f.tokens - 1 == 0)
  {
    RefCountMaskRefines(f);
  }
}
