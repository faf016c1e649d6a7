/** The multi-producer sequencer's array and counter in 64-bit words. Each method
    runs on one thread without interruption; its contract ties the words to the
    steps of module Ring. */
module SequenceMpscs {
  import opened Words
  import opened Ranges
  import R = Ring
  import opened RingResults

  /** What reading a slot as `x` decides, in words. */
  ghost predicate Images(published: seq<word>, slots: seq<int>) {
    |published| == |slots| && forall i :: 0 <= i < |slots| ==> published[i] == Wrap(slots[i])
  }

  lemma SlotBounds(s: R.State, x: int)
    requires R.Inv(s)
    ensures s.consumed - s.size < s.slots[R.SlotOf(s.size, x)] <= s.consumed + s.size
  {
    var y := WindowRepresentative(s.size, s.consumed + 1, x);
    assert R.SlotOf(s.size, y) == R.SlotOf(s.size, x);
  }

  lemma SameWord(a: int, b: int)
    requires -TWO64 < a - b < TWO64
    ensures Wrap(a) == Wrap(b) <==> a == b
  {
    assert a - b == TWO64 * (a / TWO64 - b / TWO64) + (Wrap(a) - Wrap(b));
  }

  /** Up to one past the window a slot holds the word of `x` exactly when `x` is
      published. */
  lemma WordReadIsExact(s: R.State, published: seq<word>, x: int)
    requires R.Inv(s) && Images(published, s.slots) && s.size < TWO63
    requires s.consumed < x <= s.consumed + s.size + 1
    ensures published[R.SlotOf(s.size, x)] == Wrap(x) <==> x in s.published
  {
    SlotBounds(s, x);
    ReadIsExact(s, x);
    SameWord(s.slots[R.SlotOf(s.size, x)], x);
  }

  class SequenceMpsc {
    const bufferSize: nat
    const published: array<word>
    ghost const bits: nat
    var nextToClaim: word
    ghost var ring: R.State

    /** The array and the counter are the words of the ring state. */
    ghost predicate Encodes(s: R.State)
      reads this, published
    {
      && bits <= 62 && bufferSize == Pow2(bits) == s.size && bufferSize < TWO63
      && published.Length == bufferSize
      && nextToClaim == Wrap(s.next) && Images(published[..], s.slots)
    }

    ghost predicate Valid()
      reads this, published
    {
      Encodes(ring) && R.Inv(ring)
    }

    /** `sequence & m_sequenceMask` */
    function Index(sequence: word): nat
      requires bufferSize > 0
    {
      BitAnd(sequence, bufferSize - 1)
    }

    lemma IndexIsSlot(x: int)
      requires bits <= 62 && bufferSize == Pow2(bits)
      ensures Index(Wrap(x)) == x % bufferSize < bufferSize
    {
      SlotRefines(x, bits);
    }

    constructor (bufferSize: nat, initialSequence: word, ghost bits: nat, ghost initial: int)
      requires bits <= 62 && bufferSize == Pow2(bits) && bufferSize < TWO63
      requires initialSequence == Wrap(initial)
      ensures Valid() && R.Init(ring) && ring.initial == initial && this.bufferSize == bufferSize
      ensures fresh(published)
    {
      this.bufferSize, this.bits := bufferSize, bits;
      published := new word[bufferSize](_ => 0);
      nextToClaim := AddWords(initialSequence, 1);
      new;
      var sequence := SubWords(initialSequence, bufferSize - 1);
      ghost var x, slots := initial - (bufferSize - 1), seq(bufferSize, _ => 0);
      StartWords(initial, bufferSize);
      var done := false;
      while !done
        invariant |slots| == bufferSize && Images(published[..], slots)
        invariant initial - bufferSize < x <= initial + 1 && (done <==> x == initial + 1)
        invariant !done ==> sequence == Wrap(x)
        invariant forall y :: initial - bufferSize < y < x ==> slots[y % bufferSize] == y
        modifies published
        decreases initial + 1 - x
      {
        IndexIsSlot(x);
        SameWord(x, initial);
        FillOne(slots, initial, x);
        published[Index(sequence)] := sequence;
        slots := slots[x % bufferSize := x];
        done := sequence == initialSequence;
        NextWord(x);
        sequence := AddWords(sequence, 1);
        x := x + 1;
      }
      ring := R.State(bufferSize, initial, initial + 1, initial, initial, slots, map[], [], {});
      R.InitInv(ring);
    }

    /** `fetch_add` on the counter and the number the claim has to wait for. */
    method ClaimUpTo(count: nat, ghost id: nat) returns (claimed: Range, target: word)
      requires Valid() && id !in ring.claims
      modifies this`nextToClaim, this`ring
      ensures Valid() && ring == R.Apply(old(ring), R.ClaimUpTo(id, count))
      ensures id in ring.claims && ring.claims[id].first == old(ring.next) && !ring.claims[id].granted
      ensures ring.claims[id].count == if count < bufferSize then count else bufferSize
      ensures ring.next == old(ring.next) + ring.claims[id].count && ring.claims.Keys == old(ring.claims.Keys) + {id}
      ensures claimed.Denotes(ring.claims[id].first, ring.claims[id].first + ring.claims[id].count)
      ensures target == Wrap(ring.claims[id].first + ring.claims[id].count - 1 - bufferSize)
    {
      hide R.Inv;
      var taken := if count < bufferSize then count else bufferSize;
      var first := nextToClaim;
      ghost var f := ring.next;
      AddSmall(f, taken);
      nextToClaim := AddWords(nextToClaim, taken);
      R.ClaimPreserves(ring, id, count);
      ring := R.Apply(ring, R.ClaimUpTo(id, count));
      claimed := Range(first, AddWords(first, taken));
      ElementsRefine(claimed, f, f + taken);
      BackTarget(f + taken - 1, bufferSize);
      target := SubWords(claimed.Back(), bufferSize);
    }

    /** The store into the array, from a ring state `s` to the next. */
    method StoreWord(sequence: word, ghost x: int, ghost s: R.State, ghost s': R.State)
      requires Encodes(s) && sequence == Wrap(x) && |s.slots| == s.size
      requires s' == s.(slots := s.slots[R.SlotOf(s.size, x) := x], published := s.published + {x})
      modifies published
      ensures Encodes(s') && Index(sequence) == x % bufferSize
      ensures published[..] == old(published[..])[x % bufferSize := sequence]
    {
      IndexIsSlot(x);
      published[Index(sequence)] := sequence;
    }

    /** Storing one number. */
    method PublishOne(sequence: word, ghost id: nat, ghost x: int)
      requires Valid() && R.Enabled(ring, R.Store(id, x)) && sequence == Wrap(x)
      modifies this`ring, published
      ensures Valid() && ring == R.Apply(old(ring), R.Store(id, x))
      ensures ring.published == old(ring.published) + {x}
      ensures Index(sequence) == x % bufferSize && published[..] == old(published[..])[x % bufferSize := sequence]
    {
      R.StorePreserves(ring, id, x);
      StoreWord(sequence, x, ring, R.Apply(ring, R.Store(id, x)));
      ring := R.Apply(ring, R.Store(id, x));
    }

    /** Reading the slot after a known number. */
    lemma ReadNext(x: int)
      requires Valid() && ring.consumed <= x <= ring.consumed + bufferSize
      ensures AddWords(Wrap(x), 1) == Wrap(x + 1)
      ensures Index(Wrap(x + 1)) < bufferSize
      ensures published[Index(Wrap(x + 1))] == Wrap(x + 1) <==> x + 1 in ring.published
    {
      NextWord(x);
      IndexIsSlot(x + 1);
      WordReadIsExact(ring, published[..], x + 1);
    }

    /** The scan for the last published number: on an array that stays as it is
        it ends, within one buffer length, at the end of the contiguous run. */
    method LastPublishedAfter(lastKnownPublished: word, ghost l: int) returns (r: word)
      requires Valid() && lastKnownPublished == Wrap(l)
      requires ring.consumed <= l <= ring.consumed + bufferSize
      ensures r == Wrap(End(ring, l)) && End(ring, l) - l <= bufferSize
    {
      r := lastKnownPublished;
      ghost var x := l;
      ReadNext(x);
      var sequence := AddWords(r, 1);
      while published[Index(sequence)] == sequence
        invariant l <= x <= ring.consumed + bufferSize && r == Wrap(x)
        invariant sequence == Wrap(x + 1) && Index(sequence) < bufferSize
        invariant published[Index(sequence)] == sequence <==> x + 1 in ring.published
        invariant forall y :: l < y <= x ==> y in ring.published
        decreases ring.consumed + bufferSize - x
      {
        R.PublishedInWindow(ring, x + 1);
        r, x := sequence, x + 1;
        ReadNext(x);
        sequence := AddWords(sequence, 1);
      }
      EndIsUnique(ring, l, x);
    }

    /** The loop over all but the first number of a range. After `i` stores the
        ring is in the state `TailStored`, in which no reader sees the range. */
    method PublishTail(rest: Range, ghost before: R.State, ghost first: int, ghost count: nat)
      requires Encodes(before) && |before.slots| == before.size && count > 0
      requires rest.Denotes(first + 1, first + count)
      modifies published
      ensures Encodes(TailStored(before, first, count - 1))
    {
      ghost var i := 0;
      var sequence := rest.begin;
      SameWord(first + 1, first + count);
      while sequence != rest.end
        invariant i < count && sequence == Wrap(first + 1 + i)
        invariant sequence == rest.end <==> i == count - 1
        invariant Encodes(TailStored(before, first, i))
        decreases count - i
      {
        ghost var t := TailStored(before, first, i);
        ghost var x := first + 1 + i;
        StoreWord(sequence, x, t, t.(slots := t.slots[R.SlotOf(t.size, x) := x], published := t.published + {x}));
        NextWord(x);
        sequence := AddWords(sequence, 1);
        i := i + 1;
        SameWord(first + 1 + i, first + count);
      }
    }

    /** The store of the first number, after the tail. */
    method PublishFront(front: word, ghost id: nat, ghost before: R.State, ghost c: R.Claim)
      requires Publishable(before, id) && c == before.claims[id] && c.count > 0 && front == Wrap(c.first)
      requires Encodes(TailStored(before, c.first, c.count - 1))
      modifies this`ring, published
      ensures Valid() && ring == R.Apply(TailStored(before, c.first, c.count - 1), R.Store(id, c.first))
      ensures forall x :: x in ring.published <==> x in before.published || c.Has(x)
    {
      ghost var t := TailStored(before, c.first, c.count - 1);
      FrontPublishesRange(before, id);
      StoreWord(front, c.first, t, R.Apply(t, R.Store(id, c.first)));
      ring := R.Apply(t, R.Store(id, c.first));
    }

    /** Publishing a range, tail first: afterwards exactly its numbers are
        published in addition. */
    method PublishRange(r: Range, ghost id: nat, ghost c: R.Claim)
      requires Valid() && Publishable(ring, id) && c == ring.claims[id] && r.Denotes(c.first, c.first + c.count)
      modifies this`ring, published
      ensures Valid()
      ensures c.count == 0 ==> ring == old(ring)
      ensures c.count > 0 ==> ring == R.Apply(TailStored(old(ring), c.first, c.count - 1), R.Store(id, c.first))
      ensures forall x :: x in ring.published <==> x in old(ring.published) || c.Has(x)
    {
      SizeRefines(r, c.first, c.first + c.count);
      if r.Empty() { return; }
      FirstAndSkipSplit(r, c.first, c.first + c.count, 1);
      PublishTail(r.Skip(1), ring, c.first, c.count);
      PublishFront(r.Front(), id, ring, c);
    }

    /** Whether a slot is free for the taking: exact about a strict comparison,
        hence conservative by one. */
    method AnyAvailable(consumerPublished: word) returns (available: bool)
      requires Valid() && consumerPublished == Wrap(ring.consumed)
      requires -TWO63 < ring.next - (ring.consumed + bufferSize) < TWO63
      ensures available <==> ring.next < ring.consumed + bufferSize
    {
      AddSmall(ring.consumed, bufferSize);
      PrecedesRefines(ring.next, ring.consumed + bufferSize);
      available := Precedes(nextToClaim, AddWords(consumerPublished, bufferSize));
    }
  }

  lemma BackTarget(b: int, size: nat)
    requires size < TWO63
    ensures SubWords(Wrap(b), size) == Wrap(b - size)
  {
    WrapSmall(size);
    WrapIsHomomorphic(b, size);
  }

  /** A claim of one number is granted at once exactly when the next number is at
      most one buffer ahead; `any_available` misses the case of equality. */
  lemma AvailableIsConservative(s: R.State, id: nat)
    requires R.Inv(s) && id !in s.claims
    ensures R.Enabled(R.Apply(s, R.ClaimUpTo(id, 1)), R.Grant(id)) <==> s.next <= s.consumed + s.size
    ensures s.next < s.consumed + s.size ==> R.Enabled(R.Apply(s, R.ClaimUpTo(id, 1)), R.Grant(id))
  {
  }

  lemma NextWord(x: int)
    ensures AddWords(Wrap(x), 1) == Wrap(x + 1)
  {
    WrapSmall(1);
    WrapIsHomomorphic(x, 1);
  }

  lemma StartWords(initial: int, size: nat)
    requires 0 < size < TWO63
    ensures SubWords(Wrap(initial), size - 1) == Wrap(initial - (size - 1))
    ensures AddWords(Wrap(initial), 1) == Wrap(initial + 1)
  {
    WrapSmall(size - 1);
    WrapIsHomomorphic(initial, size - 1);
    NextWord(initial);
  }

  lemma FillOne(slots: seq<int>, initial: int, x: int)
    requires |slots| > 0 && initial - |slots| < x <= initial
    requires forall y :: initial - |slots| < y < x ==> slots[y % |slots|] == y
    ensures var after := slots[x % |slots| := x];
            forall y :: initial - |slots| < y <= x ==> after[y % |slots|] == y
  {
    forall y | initial - |slots| < y < x ensures y % |slots| != x % |slots| {
      WindowSlotsDistinct(|slots|, y, x);
    }
  }
}
