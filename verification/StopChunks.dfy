/** Finding a slot for a registration in a list of chunks, on one thread without
    interruption, from any approximate tail and any approximate free counts, also
    those below the threshold that a scan on another thread has yet to reset. */
module StopChunks {
  import opened Words
  import P = StopProtocol

  const FORCED_SEARCH: int := -10

  /** A chunk is searched if its approximate count is positive, or has come down to the
      threshold. */
  predicate Promising(free: int) { free > 0 || free <= FORCED_SEARCH }

  /** The approximate count after the chunk's turn. */
  function Recounted(free: int, found: bool): int {
    if !Promising(free) || (found && free > 0) then free - 1 else 0
  }

  /** The approximate count after `n` turns in vain. */
  function AfterTurns(free: int, n: nat): int { if n == 0 then free else Recounted(AfterTurns(free, n - 1), false) }

  lemma {:induction false} CountsDown(free: int, n: nat)
    requires FORCED_SEARCH < free < 1 && n <= free - FORCED_SEARCH
    ensures AfterTurns(free, n) == free - n
  {
    if n > 0 { CountsDown(free, n - 1); }
  }

  /** However wrong its count is, a chunk is searched within eleven turns. */
  lemma SearchedAgain(free: int) returns (n: nat)
    ensures n <= 10 && Promising(AfterTurns(free, n))
  {
    n := if Promising(free) then 0 else free - FORCED_SEARCH;
    if n > 0 { CountsDown(free, n); }
  }

  class Registration {
    var chunk: Chunk?
    var index: nat

    constructor ()
      ensures chunk == null
    {
      chunk, index := null, 0;
    }
  }

  /** A chunk's size is a power of two, doubling from the first size to the largest. */
  function SizeLog(position: nat): nat { if position < 6 then 4 + position else 10 }

  lemma {:induction false} ChunkSizesArePowersOfTwo(position: nat)
    ensures P.ChunkSize(position) == Pow2(SizeLog(position))
  {
    assert Pow2(4) == 16;
    if position > 0 { ChunkSizesArePowersOfTwo(position - 1); }
    if position >= 6 { assert Pow2(10) == 1024; }
  }

  class Chunk {
    const entries: array<Registration?>
    const prev: Chunk?
    ghost const log: nat
    var next: Chunk?
    var free: int                  // m_approximateFreeCount

    ghost predicate Fits()
      reads this
    {
      entries.Length == Pow2(log) && 0 < log <= 31 && free <= entries.Length
    }

    /** A new chunk, with its first slot taken already. */
    constructor (entryCount: nat, prev: Chunk?, r: Registration, ghost log: nat)
      requires entryCount == Pow2(log) && 0 < log <= 31
      modifies r
      ensures Fits() && entries.Length == entryCount && this.prev == prev && this.log == log && next == null
      ensures free == entryCount - 1 && fresh(entries)
      ensures r.chunk == this && r.index == 0 && entries[0] == r
      ensures forall k :: 0 < k < entryCount ==> entries[k] == null
    {
      entries := new Registration?[entryCount](_ => null);
      this.prev, this.log, next, free := prev, log, null, entryCount - 1;
      new;
      r.chunk, r.index := this, 0;
      entries[0] := r;
    }

    /** The index of the scan's `i`-th turn, in 32-bit unsigned numbers. */
    method EntryIndex(startIndex: nat, i: nat, ghost start: nat) returns (entryIndex: nat)
      requires Fits() && startIndex == Unsigned32(start)
      ensures entryIndex == Visited(start, i, entries.Length)
    {
      MaskedIndex(start, i, log);
      entryIndex := BitAnd(Unsigned32(startIndex + i), entries.Length - 1);
    }

    /** The rotated scan: it takes the first free slot it meets, and meets every
        slot; so it fails only in a full chunk. */
    method Scan(r: Registration, freeCount: int) returns (found: bool)
      requires Fits() && (freeCount < FORCED_SEARCH || 0 < freeCount <= entries.Length)
      modifies r, entries, this`free
      ensures Fits() && r.chunk == this
      ensures found ==> r.index < entries.Length && old(entries[..])[r.index] == null && entries[..] == old(entries[..])[r.index := r]
      ensures found ==> FirstFree(old(entries[..]), entries.Length - freeCount, r.index)
      ensures !found ==> entries[..] == old(entries[..]) && forall k :: 0 <= k < entries.Length ==> entries[k] != null
      ensures free == if found && freeCount > 0 then freeCount - 1 else 0
    {
      var entryCount := entries.Length;
      ghost var start := entryCount - freeCount;
      var startIndex := Unsigned32(entryCount - freeCount);
      r.chunk := this;
      for i := 0 to entryCount
        invariant entries[..] == old(entries[..])
        invariant forall j {:trigger Visited(start, j, entryCount)} :: 0 <= j < i ==>
          entries[Visited(start, j, entryCount)] != null
        invariant Fits() && r.chunk == this
      {
        var entryIndex := EntryIndex(startIndex, i, start);
        if entries[entryIndex] == null {
          r.index := entryIndex;
          entries[entryIndex] := r;
          free := if freeCount < 0 then 0 else freeCount - 1;
          assert FirstFree(old(entries[..]), start, entryIndex);
          return true;
        }
      }
      forall k | 0 <= k < entryCount ensures entries[k] != null {
        var j := RotationVisits(start, entryCount, k);
      }
      free := 0;
      found := false;
    }

    /** One chunk's turn: it is searched if it seems to have free slots, and every
        so often if it does not. */
    method TryChunk(r: Registration) returns (found: bool)
      requires Fits()
      modifies r, entries, this`free
      ensures Fits()
      ensures found ==> r.chunk == this && r.index < entries.Length && old(entries[..])[r.index] == null
                        && entries[..] == old(entries[..])[r.index := r]
      ensures !found ==> entries[..] == old(entries[..])
      ensures found ==> Promising(old(free))
      ensures !found && Promising(old(free)) ==> forall k :: 0 <= k < entries.Length ==> entries[k] != null
      ensures free == Recounted(old(free), found)
    {
      var freeCount := free;
      if freeCount < 1 {
        freeCount := freeCount - 1;
        if freeCount >= FORCED_SEARCH {
          free := freeCount;
          return false;
        }
      }
      found := Scan(r, freeCount);
    }
  }

  /** The conversion to, and the addition in, 32-bit unsigned numbers. */
  function Unsigned32(x: int): nat { x % 0x1_0000_0000 }

  lemma Pow2Of32()
    ensures Pow2(32) == 0x1_0000_0000
  {
    assert Pow2(8) == 256;
    Pow2Sum(8, 8);
    Pow2Sum(16, 16);
  }

  lemma UnsignedTwice(start: nat, i: nat)
    ensures Unsigned32(Unsigned32(start) + i) == Unsigned32(start + i)
  {
    SlotPeriod(0x1_0000_0000, Unsigned32(start) + i, start / 0x1_0000_0000);
  }

  lemma UnsignedSlot(x: nat, log: nat)
    requires log <= 31
    ensures Unsigned32(x) % Pow2(log) == x % Pow2(log)
  {
    Pow2Of32();
    Pow2Sum(log, 32 - log);
    ModOfMod(x, Pow2(log), Pow2(32 - log));
  }

  /** Wrapping at 2^32, twice, does not change the masked index. */
  lemma MaskedIndex(start: nat, i: nat, log: nat)
    requires log <= 31
    ensures BitAnd(Unsigned32(Unsigned32(start) + i), Pow2(log) - 1) == Visited(start, i, Pow2(log))
  {
    UnsignedTwice(start, i);
    UnsignedSlot(start + i, log);
    MaskIsModulo(Unsigned32(start + i), log);
  }

  /** The slot that the rotated scan looks at in its `j`-th turn. */
  function Visited(start: nat, j: nat, n: nat): (k: nat)
    requires n > 0
    ensures k < n
  {
    (start + j) % n
  }

  /** Of the free slots, `k` is the one whose turn comes first. */
  ghost predicate FirstFree(slots: seq<Registration?>, start: nat, k: nat) {
    exists j: nat {:trigger Visited(start, j, |slots|)} :: j < |slots| && Visited(start, j, |slots|) == k
      && forall i: nat {:trigger Visited(start, i, |slots|)} :: i < j ==> slots[Visited(start, i, |slots|)] != null
  }

  /** Every slot has its turn, and only one. */
  lemma RotationVisits(start: nat, n: nat, k: nat) returns (j: nat)
    requires k < n
    ensures j < n && Visited(start, j, n) == k
    ensures forall i: nat :: i < n && Visited(start, i, n) == k ==> i == j
  {
    var y := WindowRepresentative(n, start, k);
    j := y - start;
    WrapOnce(k, n);
    forall i: nat | i < n && Visited(start, i, n) == k ensures i == j {
      WindowSlotsDistinct(n, start + i, y);
    }
  }

  lemma WrapOnce(k: nat, n: nat)
    requires k < n
    ensures k % n == k
  {
    ModIs(k, n, 0, k);
  }

  predicate AllTaken(slots: seq<Registration?>) { forall k :: 0 <= k < |slots| ==> slots[k] != null }

  /** One free slot was taken for `r`. */
  predicate TakenFor(before: seq<Registration?>, after: seq<Registration?>, k: nat, r: Registration) {
    k < |before| && before[k] == null && after == before[k := r]
  }

  ghost function ArraysOf(chunks: seq<Chunk>): set<object> { set i | 0 <= i < |chunks| :: chunks[i].entries }

  /** What each chunk's slots hold. */
  ghost function SlotsOf(chunks: seq<Chunk>): (slots: seq<seq<Registration?>>)
    reads ArraysOf(chunks)
    ensures |slots| == |chunks| && forall i :: 0 <= i < |chunks| ==> slots[i] == chunks[i].entries[..]
  {
    if chunks == [] then [] else
      var n := |chunks| - 1;
      assert forall i :: 0 <= i < n ==> chunks[..n][i] == chunks[i];
      SlotsOf(chunks[..n]) + [chunks[n].entries[..]]
  }

  /** The chunks' approximate counts. */
  ghost function FreesOf(chunks: seq<Chunk>): (frees: seq<int>)
    reads chunks`free
    ensures |frees| == |chunks| && forall i :: 0 <= i < |chunks| ==> frees[i] == chunks[i].free
  {
    if chunks == [] then [] else
      var n := |chunks| - 1;
      FreesOf(chunks[..n]) + [chunks[n].free]
  }

  /** A chunk that did not seem to have free slots, or was searched and has none. */
  predicate PassedOver(slots: seq<Registration?>, free: int, now: int) {
    now == Recounted(free, false) && (Promising(free) ==> AllTaken(slots))
  }

  /** Going back from the last chunk, exactly those behind `at` were passed over. */
  predicate Passed(slots: seq<seq<Registration?>>, frees: seq<int>, now: seq<int>, at: int) {
    && |slots| == |frees| == |now| && -1 <= at < |frees|
    && (forall j :: at < j < |frees| ==> PassedOver(slots[j], frees[j], now[j]))
    && (forall j :: 0 <= j <= at ==> now[j] == frees[j])
  }

  lemma PassOneMore(slots: seq<seq<Registration?>>, frees: seq<int>, now: seq<int>, at: int)
    requires Passed(slots, frees, now, at) && at >= 0 && (Promising(frees[at]) ==> AllTaken(slots[at]))
    ensures Passed(slots, frees, now[at := Recounted(now[at], false)], at - 1)
  {
  }

  /** The first slot, and only it, holds `r`. */
  predicate JustTaken(slots: seq<Registration?>, r: Registration) {
    slots != [] && slots[0] == r && forall k :: 0 < k < |slots| ==> slots[k] == null
  }

  class CallbackList {
    const head: Chunk
    var approximateTail: Chunk
    ghost var chunks: seq<Chunk>

    ghost predicate Linked(i: int)
      requires 0 <= i < |chunks|
      reads this`chunks, chunks
    {
      && chunks[i].Fits() && chunks[i].entries.Length == P.ChunkSize(i) && chunks[i].log == SizeLog(i)
      && chunks[i].next == (if i + 1 < |chunks| then chunks[i + 1] else null)
      && chunks[i].prev == (if i == 0 then null else chunks[i - 1])
    }

    /** Chunks and their arrays are different objects. */
    ghost predicate Apart()
      reads this`chunks
    {
      forall i, j :: 0 <= i < j < |chunks| ==> chunks[i] != chunks[j] && chunks[i].entries != chunks[j].entries
    }

    /** The chunks are a doubly linked list of growing chunks; the approximate tail
        is one of them. */
    ghost predicate Valid()
      reads this, chunks
    {
      && chunks != [] && chunks[0] == head && approximateTail in chunks && Apart()
      && forall i {:trigger Linked(i)} :: 0 <= i < |chunks| ==> Linked(i)
    }

    ghost function Arrays(): set<object>
      reads this`chunks
    {
      ArraysOf(chunks)
    }

    /** A list is made around its first registration. */
    constructor (r: Registration)
      modifies r
      ensures Valid() && chunks == [head] && fresh(head) && fresh(head.entries)
      ensures head.entries.Length == P.FIRST_CHUNK && r.chunk == head && r.index == 0 && head.entries[0] == r
      ensures forall k :: 0 < k < head.entries.Length ==> head.entries[k] == null
    {
      ChunkSizesArePowersOfTwo(0);
      var chunk := new Chunk(P.FIRST_CHUNK, null, r, 4);
      head, approximateTail, chunks := chunk, chunk, [chunk];
      new;
      assert Linked(0);
    }

    /** From the approximate tail to the end, which becomes the new tail. */
    method FindLast() returns (last: Chunk)
      requires Valid()
      modifies this`approximateTail
      ensures Valid() && last == chunks[|chunks| - 1] && approximateTail == last
    {
      last := approximateTail;
      ghost var i :| 0 <= i < |chunks| && chunks[i] == last;
      while last.next != null
        invariant 0 <= i < |chunks| && chunks[i] == last
        decreases |chunks| - i
      {
        assert Linked(i);
        last, i := last.next, i + 1;
      }
      assert Linked(i);
      approximateTail := last;
    }

    ghost function Slots(): (slots: seq<seq<Registration?>>)
      reads this`chunks, chunks, Arrays()
    {
      SlotsOf(chunks)
    }

    ghost function Frees(): (frees: seq<int>)
      reads this`chunks, chunks`free
    {
      FreesOf(chunks)
    }

    /** One chunk's turn leaves the list linked, and the other chunks alone. */
    method Visit(chunk: Chunk, r: Registration, ghost at: int) returns (found: bool)
      requires Valid() && 0 <= at < |chunks| && chunk == chunks[at]
      modifies r, chunk, chunk.entries
      ensures Valid() && Frees() == old(Frees())[at := Recounted(old(Frees())[at], found)]
      ensures found ==> Promising(old(Frees())[at]) && r.chunk == chunk
                        && TakenFor(old(Slots())[at], Slots()[at], r.index, r) && Slots() == old(Slots())[at := Slots()[at]]
      ensures !found ==> Slots() == old(Slots()) && (Promising(old(Frees())[at]) ==> AllTaken(Slots()[at]))
    {
      assert Linked(at);
      found := chunk.TryChunk(r);
      forall j | 0 <= j < |chunks| ensures Linked(j) {
        assert old(Linked(j));
      }
    }

    /** Every chunk's turn, from the last one back: a chunk that is passed over did not
        seem to have free slots, or has none. */
    method SearchBack(last: Chunk, r: Registration) returns (found: bool, ghost at: int)
      requires Valid() && last == chunks[|chunks| - 1]
      modifies r, chunks, Arrays()
      ensures Valid() && 0 <= at < |chunks|
      ensures found ==> Promising(old(Frees())[at]) && r.chunk == chunks[at]
                        && TakenFor(old(Slots())[at], Slots()[at], r.index, r) && Slots() == old(Slots())[at := Slots()[at]]
      ensures found ==> Frees()[at] == Recounted(old(Frees())[at], true)
                        && Passed(old(Slots()), old(Frees()), Frees()[at := old(Frees())[at]], at)
      ensures !found ==> Slots() == old(Slots()) && Passed(old(Slots()), old(Frees()), Frees(), -1)
    {
      var chunk: Chunk? := last;
      at := |chunks| - 1;
      ghost var slots, frees := Slots(), Frees();
      assert Passed(slots, frees, frees, at);
      hide Slots, Frees, Recounted, Promising, AllTaken, TakenFor;
      while chunk != null
        invariant -1 <= at < |chunks| && chunk == (if at < 0 then null else chunks[at]) && Valid()
        invariant Slots() == slots && Passed(slots, frees, Frees(), at)
        decreases at
      {
        assert Linked(at);
        ghost var now := Frees();
        found := Visit(chunk, r, at);
        if found {
          CountsBefore(frees, now, Frees(), at);
          return;
        }
        PassOneMore(slots, frees, now, at);
        chunk, at := chunk.prev, at - 1;
      }
      found, at := false, 0;
    }

    lemma CountsBefore(frees: seq<int>, now: seq<int>, after: seq<int>, at: int)
      requires |frees| == |now| && 0 <= at < |now| && now[at] == frees[at] && after == now[at := Recounted(now[at], true)]
      ensures |after| == |now| && after[at := frees[at]] == now
    {
    }

    /** Linking a new chunk behind the last one. */
    method Grow(last: Chunk, r: Registration)
      requires Valid() && last == chunks[|chunks| - 1]
      modifies this, last`next, r
      ensures Valid() && approximateTail == chunks[|chunks| - 1]
      ensures chunks == old(chunks) + [chunks[|chunks| - 1]] && |chunks| > 1
      ensures var c := chunks[|chunks| - 1];
              && fresh(c) && fresh(c.entries) && c.entries.Length == P.ChunkSize(old(|chunks|))
              && c.free == c.entries.Length - 1 && r.chunk == c && r.index == 0 && JustTaken(c.entries[..], r)
    {
      assert Linked(|chunks| - 1);
      ChunkSizesArePowersOfTwo(|chunks|);
      var entryCount := P.GrownCount(last.entries.Length);
      var newChunk := new Chunk(entryCount, last, r, SizeLog(|chunks|));
      last.next := newChunk;
      approximateTail := newChunk;
      chunks := chunks + [newChunk];
      forall j | 0 <= j < |chunks| ensures Linked(j) {
        if j + 1 < |chunks| { assert old(Linked(j)); }
      }
    }

    /** A new chunk behind the last one, its first slot taken. */
    method Append(last: Chunk, r: Registration)
      requires Valid() && last == chunks[|chunks| - 1]
      modifies this, last`next, r
      ensures Valid() && |chunks| == old(|chunks|) + 1 && old(chunks) <= chunks && approximateTail == chunks[|chunks| - 1]
      ensures var c := chunks[|chunks| - 1];
              && fresh(c) && fresh(c.entries) && c.entries.Length == P.ChunkSize(old(|chunks|))
              && r.chunk == c && r.index == 0 && JustTaken(c.entries[..], r)
      ensures Slots() == old(Slots()) + [chunks[|chunks| - 1].entries[..]]
      ensures Frees() == old(Frees()) + [P.ChunkSize(old(|chunks|)) - 1]
    {
      hide SlotsOf, FreesOf, JustTaken, Valid;
      ghost var before := chunks;
      Grow(last, r);
      LastOf(before, chunks[|chunks| - 1]);
    }

    lemma LastOf(before: seq<Chunk>, c: Chunk)
      ensures SlotsOf(before + [c]) == SlotsOf(before) + [c.entries[..]]
      ensures FreesOf(before + [c]) == FreesOf(before) + [c.free]
    {
      assert (before + [c])[..|before|] == before;
    }

    /** Adding a registration takes exactly one free slot, records it truthfully,
        and disturbs no other: a slot of the last chunk that seems to have free ones
        and has one, or, if there is no such chunk, the first slot of a new one. */
    method AddRegistration(r: Registration) returns (ghost at: int)
      requires Valid()
      modifies this, r, chunks, Arrays()
      ensures Valid() && old(chunks) <= chunks && 0 <= at < |chunks| && r.chunk == chunks[at]
      ensures |chunks| == old(|chunks|) ==>
        && Promising(old(Frees())[at]) && TakenFor(old(Slots())[at], Slots()[at], r.index, r)
        && Slots() == old(Slots())[at := Slots()[at]]
      ensures |chunks| != old(|chunks|) ==>
        && at == old(|chunks|) == |chunks| - 1 && fresh(chunks[at]) && fresh(chunks[at].entries)
        && r.index == 0 && JustTaken(Slots()[at], r) && Slots() == old(Slots()) + [Slots()[at]]
      ensures |chunks| == old(|chunks|) ==> Frees()[at] == Recounted(old(Frees())[at], true)
                                            && Passed(old(Slots()), old(Frees()), Frees()[at := old(Frees())[at]], at)
      ensures |chunks| != old(|chunks|) ==> Passed(old(Slots()), old(Frees()), Frees()[..at], -1)
    {
      hide Promising, Recounted, AllTaken, TakenFor, JustTaken, SlotsOf, FreesOf, Passed;
      var last := FindLast();
      var found;
      found, at := SearchBack(last, r);
      if !found {
        at := |chunks|;
        Append(last, r);
      }
    }

    /** Removing a registration empties its own slot only; a slot that the sweep
        emptied or somebody else took since is left alone. */
    method RemoveRegistration(r: Registration, ghost at: int) returns (removed: bool)
      requires Valid() && 0 <= at < |chunks| && r.chunk == chunks[at] && r.index < chunks[at].entries.Length
      modifies chunks[at], chunks[at].entries
      ensures Valid() && removed == (old(chunks[at].entries[r.index]) == r)
      ensures |Slots()[at]| == |old(Slots())[at]| == chunks[at].entries.Length
      ensures Slots() == if removed then old(Slots())[at := old(Slots())[at][r.index := null]] else old(Slots())
      ensures chunks[at].free == if !removed then old(chunks[at].free)
                                 else if old(chunks[at].free) < 0 then 1
                                 else if old(chunks[at].free) < chunks[at].entries.Length then old(chunks[at].free) + 1
                                 else old(chunks[at].free)
    {
      assert Linked(at);
      var chunk := r.chunk;
      removed := chunk.entries[r.index] == r;
      if removed {
        chunk.entries[r.index] := null;
        if chunk.free < chunk.entries.Length {
          chunk.free := if chunk.free < 0 then 1 else chunk.free + 1;
        }
      }
      forall j | 0 <= j < |chunks| ensures Linked(j) {
        assert old(Linked(j));
      }
    }

    /** Adding and then removing leaves every slot of the old chunks as it was. */
    method AddThenRemove(r: Registration)
      requires Valid()
      modifies this, r, chunks, Arrays()
      ensures Valid() && old(chunks) <= chunks && old(Slots()) <= Slots()
    {
      ghost var before := Slots();
      assert |before| == |chunks|;
      hide Passed, Recounted, Promising, Slots, Frees;
      var at := AddRegistration(r);
      ghost var between := Slots();
      SlotsAt(at);
      var removed := RemoveRegistration(r, at);
      BackAgain(before, between, Slots(), at, r.index, r);
    }

    lemma SlotsAt(at: int)
      requires 0 <= at < |chunks|
      ensures |Slots()| == |chunks| && Slots()[at] == chunks[at].entries[..]
    {
    }

    lemma BackAgain(before: seq<seq<Registration?>>, between: seq<seq<Registration?>>, after: seq<seq<Registration?>>,
                    at: int, k: nat, r: Registration)
      requires 0 <= at < |between| && k < |between[at]| && after == between[at := between[at][k := null]]
      requires || (at < |before| && TakenFor(before[at], between[at], k, r) && between == before[at := between[at]])
               || (at == |before| && between == before + [between[at]])
      ensures before <= after
    {
      if at < |before| { assert after[at] == before[at]; }
    }
  }
}
