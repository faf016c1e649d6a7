/** What every run of the ring-buffer protocol guarantees. */
module RingResults {
  import opened Words
  import opened Ring

  ghost predicate Next(s: State, s': State) {
    s.size > 0 && |s.slots| == s.size && exists step :: Enabled(s, step) && s' == Apply(s, step)
  }

  ghost predicate NextAt(run: seq<State>, i: int)
    requires 0 < i < |run|
  {
    Next(run[i - 1], run[i])
  }

  ghost predicate IsRun(run: seq<State>) {
    && run != [] && Init(run[0])
    && forall i {:trigger NextAt(run, i)} :: 0 < i < |run| ==> NextAt(run, i)
  }

  lemma {:induction false} RunKeepsInv(run: seq<State>, i: nat)
    requires IsRun(run) && i < |run|
    ensures Inv(run[i])
  {
    hide Inv;
    if i == 0 {
      InitInv(run[0]);
    } else {
      RunKeepsInv(run, i - 1);
      assert NextAt(run, i);
      var step :| Enabled(run[i - 1], step) && run[i] == Apply(run[i - 1], step);
      StepPreserves(run[i - 1], step);
    }
  }

  predicate Granted(s: State, x: int) { GrantedTo(s.initial, s.order, s.claims, x) }

  /** Ring exclusivity: two granted numbers that are not consumed never share a
      slot; the previous occupant of a granted slot is released; and a number
      belongs to one claim only. */
  lemma RingIsExclusive(run: seq<State>, i: nat, x: int, y: int)
    requires IsRun(run) && i < |run|
    requires Granted(run[i], x) && x > run[i].consumed
    requires Granted(run[i], y) && y > run[i].consumed
    ensures var s := run[i];
            && x - s.size <= s.consumed
            && (SlotOf(s.size, x) == SlotOf(s.size, y) <==> x == y)
            && forall p, q :: p in s.claims && q in s.claims && s.claims[p].Has(x) && s.claims[q].Has(x) ==> p == q
  {
    var s := run[i];
    RunKeepsInv(run, i);
    GrantedInWindow(s, Owner(s.initial, s.order, x), x);
    GrantedInWindow(s, Owner(s.initial, s.order, y), y);
    WindowSlotsDistinct(s.size, x, y);
  }

  /** A slot that reads as `x` proves `x` published, even for a reader that the
      consumer has long overtaken. */
  lemma ReadMeansPublished(s: State, x: int)
    requires Inv(s) && x > s.initial && s.slots[SlotOf(s.size, x)] == x
    ensures x in s.published
  {
    if x > s.consumed {
      var y := WindowRepresentative(s.size, s.consumed + 1, x);
      assert SlotOf(s.size, y) == SlotOf(s.size, x);
    }
  }

  /** Ahead of the consumer a slot reads as `x` exactly when `x` is published. */
  lemma ReadIsExact(s: State, x: int)
    requires Inv(s) && x > s.consumed
    ensures s.slots[SlotOf(s.size, x)] == x <==> x in s.published
  {
    if x in s.published {
      PublishedInWindow(s, x);
    } else if s.slots[SlotOf(s.size, x)] == x {
      ReadMeansPublished(s, x);
    }
  }

  // ---------- producers and consumer never wait for each other ----------

  /** No claim is longer than the buffer. */
  ghost predicate Bounded(s: State) { forall p :: p in s.claims ==> s.claims[p].count <= s.size }

  lemma {:induction false} RunKeepsBounded(run: seq<State>, i: nat)
    requires IsRun(run) && i < |run|
    ensures Bounded(run[i])
  {
    if i > 0 {
      RunKeepsBounded(run, i - 1);
      assert NextAt(run, i);
    }
  }

  /** The claim whose turn it is to be consumed. */
  function FirstClaim(s: State): nat
    requires Claimed(s.initial, s.order, s.consumed + 1)
  {
    Owner(s.initial, s.order, s.consumed + 1)
  }

  /** What happens next, if no further number is claimed: the consumer releases
      what it knows, or learns of its next number, or that number's producer
      stores it, or, having waited for room, is granted its claim. */
  function NextMove(s: State): Step
    requires Claimed(s.initial, s.order, s.consumed + 1)
  {
    var p := FirstClaim(s);
    if s.consumed < s.known then Consume(s.known)
    else if s.consumed + 1 in s.published then Learn(s.consumed + 1)
    else if p in s.claims && s.claims[p].granted then Store(p, s.consumed + 1)
    else Grant(p)
  }

  lemma NextMoveIsEnabled(s: State)
    requires Inv(s) && Bounded(s) && s.consumed + 1 < s.next
    ensures s.size > 0 && |s.slots| == s.size
    ensures Claimed(s.initial, s.order, s.consumed + 1) && FirstClaim(s) in s.claims
    ensures s.claims[FirstClaim(s)].Has(s.consumed + 1) && Enabled(s, Grant(FirstClaim(s)))
    ensures Enabled(s, NextMove(s))
  {
    assert Claimed(s.initial, s.order, s.consumed + 1);
  }

  /** Producers and consumer never wait for each other: while a claimed number is
      not consumed, the claim of the first such number has room, and a step other
      than claiming is possible. */
  lemma NobodyIsStuck(run: seq<State>, i: nat)
    requires IsRun(run) && i < |run| && run[i].consumed + 1 < run[i].next
    ensures var s := run[i];
            && Claimed(s.initial, s.order, s.consumed + 1)
            && FirstClaim(s) in s.claims && s.claims[FirstClaim(s)].Has(s.consumed + 1)
            && Enabled(s, Grant(FirstClaim(s)))
            && Enabled(s, NextMove(s)) && !NextMove(s).ClaimUpTo?
  {
    RunKeepsInv(run, i);
    RunKeepsBounded(run, i);
    NextMoveIsEnabled(run[i]);
  }

  /** One of the moves of NextMove. */
  ghost predicate Serves(s: State, s': State) {
    && s.size > 0 && |s.slots| == s.size && Claimed(s.initial, s.order, s.consumed + 1)
    && Enabled(s, NextMove(s)) && s' == Apply(s, NextMove(s))
  }

  ghost predicate ServedAt(run: seq<State>, i: int)
    requires 0 < i < |run|
  {
    Serves(run[i - 1], run[i])
  }

  /** The moves left before the next number is consumed. */
  function MovesLeft(s: State): nat {
    if s.consumed < s.known then 0
    else if s.consumed + 1 in s.published then 1
    else if GrantedTo(s.initial, s.order, s.claims, s.consumed + 1) then 2
    else 3
  }

  lemma ServingGetsNearer(s: State, s': State)
    requires Inv(s) && Bounded(s) && s.consumed + 1 < s.next && Serves(s, s')
    ensures Bounded(s') && s'.next == s.next
    ensures s.consumed < s'.consumed < s.next || (s'.consumed == s.consumed && MovesLeft(s') < MovesLeft(s))
  {
    NextMoveIsEnabled(s);
  }

  /** Whatever has been claimed can be consumed, with no further claim. */
  lemma {:induction false} EverythingIsConsumed(s: State) returns (run: seq<State>)
    requires Inv(s) && Bounded(s)
    ensures run != [] && run[0] == s && forall i {:trigger ServedAt(run, i)} :: 0 < i < |run| ==> ServedAt(run, i)
    ensures run[|run| - 1].next == s.next && run[|run| - 1].consumed == s.next - 1
    decreases s.next - s.consumed, MovesLeft(s)
  {
    assert s.consumed < s.next;
    hide Inv;
    if s.consumed + 1 == s.next {
      run := [s];
    } else {
      NextMoveIsEnabled(s);
      var s' := Apply(s, NextMove(s));
      StepPreserves(s, NextMove(s));
      ServingGetsNearer(s, s');
      var rest := EverythingIsConsumed(s');
      run := [s] + rest;
      forall i | 0 < i < |run| ensures ServedAt(run, i) {
        if i > 1 { assert ServedAt(rest, i - 1); }
      }
    }
  }

  // ---------- contiguous published runs ----------

  /** The end of the longest contiguous published run after `l`. */
  ghost function End(s: State, l: int): (e: int)
    ensures l <= e
    decreases s.next - l
  {
    if l + 1 in s.published && l + 1 < s.next then End(s, l + 1) else l
  }

  lemma {:induction false} EndIsLongest(s: State, l: int)
    requires Inv(s)
    ensures forall x :: l < x <= End(s, l) ==> x in s.published
    ensures End(s, l) + 1 !in s.published
    ensures l <= s.consumed + s.size ==> End(s, l) <= s.consumed + s.size
    decreases s.next - l
  {
    if l + 1 in s.published {
      PublishedInWindow(s, l + 1);
      EndIsLongest(s, l + 1);
    }
  }

  lemma EndIsUnique(s: State, l: int, e: int)
    requires Inv(s) && l <= e && e + 1 !in s.published && forall x :: l < x <= e ==> x in s.published
    ensures End(s, l) == e
  {
    EndIsLongest(s, l);
  }

  /** A claim whose first number is unpublished stops every reader that has not
      passed it; nobody who knows only published numbers ever has. */
  lemma FrontBlocksReaders(run: seq<State>, i: nat, p: nat, l: int)
    requires IsRun(run) && i < |run| && p in run[i].claims && run[i].claims[p].first !in run[i].published
    ensures run[i].known < run[i].claims[p].first
    ensures l < run[i].claims[p].first ==> End(run[i], l) < run[i].claims[p].first
  {
    RunKeepsInv(run, i);
    EndIsLongest(run[i], l);
  }

  // ---------- publishing a range ----------

  /** The claim is granted and none of its numbers is published. */
  ghost predicate Publishable(s: State, p: nat) {
    && Inv(s) && p in s.claims && s.claims[p].granted
    && forall x :: s.claims[p].Has(x) ==> x !in s.published
  }

  /** The array, and the numbers, after the first `k` stores of the loop that
      publishes everything behind `first` in ascending order. */
  function TailSlots(slots: seq<int>, first: int, k: nat): (after: seq<int>)
    requires |slots| > 0
    ensures |after| == |slots|
  {
    if k == 0 then slots else TailSlots(slots, first, k - 1)[(first + k) % |slots| := first + k]
  }

  function TailNumbers(first: int, k: nat): (numbers: set<int>)
    ensures forall x :: x in numbers <==> first < x <= first + k
  {
    if k == 0 then {} else TailNumbers(first, k - 1) + {first + k}
  }

  /** The states of `publish(range)`, with nobody else storing in between. */
  function TailStored(s: State, first: int, k: nat): State
    requires |s.slots| > 0
  {
    s.(slots := TailSlots(s.slots, first, k), published := s.published + TailNumbers(first, k))
  }

  /** Each of these states follows from the one before by a store. */
  lemma TailNext(s: State, p: nat, k: nat)
    requires Publishable(s, p) && 0 < k < s.claims[p].count
    ensures var t, x := TailStored(s, s.claims[p].first, k - 1), s.claims[p].first + k;
            Enabled(t, Store(p, x)) && TailStored(s, s.claims[p].first, k) == Apply(t, Store(p, x))
  {
    var first := s.claims[p].first;
    assert s.claims[p].Has(first + k);
    assert s.published + TailNumbers(first, k - 1) + {first + k} == s.published + TailNumbers(first, k);
  }

  lemma TailKeepsInv(s: State, p: nat, k: nat, t: State)
    requires Publishable(s, p) && 0 < k < s.claims[p].count
    requires t == TailStored(s, s.claims[p].first, k - 1) && Inv(t)
    ensures Inv(TailStored(s, s.claims[p].first, k))
  {
    hide Inv;
    var x := s.claims[p].first + k;
    TailNext(s, p, k);
    StepPreserves(t, Store(p, x));
  }

  lemma {:induction false} TailIsRun(s: State, p: nat, k: nat)
    requires Publishable(s, p) && k < s.claims[p].count
    ensures Inv(TailStored(s, s.claims[p].first, k))
  {
    assert |s.slots| > 0;
    hide Inv;
    if k == 0 {
      assert TailStored(s, s.claims[p].first, 0) == s;
    } else {
      TailIsRun(s, p, k - 1);
      TailKeepsInv(s, p, k, TailStored(s, s.claims[p].first, k - 1));
    }
  }

  /** Publishing a range is indivisible: until the first number is stored every
      scan from before the range ends where it would have ended anyway. */
  lemma TailStaysHidden(s: State, p: nat, k: nat, l: int)
    requires Publishable(s, p) && k < s.claims[p].count && l < s.claims[p].first
    ensures End(TailStored(s, s.claims[p].first, k), l) == End(s, l) < s.claims[p].first
  {
    var t, e := TailStored(s, s.claims[p].first, k), End(s, l);
    TailIsRun(s, p, k);
    EndIsLongest(s, l);
    assert e < s.claims[p].first by {
      assert s.claims[p].Has(s.claims[p].first);
    }
    EndIsUnique(t, l, e);
  }

  /** Storing the first number, last, publishes the whole range: the result is
      that of publishing each number by itself. */
  lemma FrontPublishesRange(s: State, p: nat)
    requires Publishable(s, p) && s.claims[p].count > 0
    ensures var c := s.claims[p];
            var t := TailStored(s, c.first, c.count - 1);
            && Inv(t) && Enabled(t, Store(p, c.first)) && Inv(Apply(t, Store(p, c.first)))
            && forall x :: x in Apply(t, Store(p, c.first)).published <==> x in s.published || c.Has(x)
  {
    var c := s.claims[p];
    var t := TailStored(s, c.first, c.count - 1);
    TailIsRun(s, p, c.count - 1);
    assert c.Has(c.first);
    FrontCompletes(s.published, t.published, c);
    StepPreserves(t, Store(p, c.first));
  }

  lemma FrontCompletes(before: set<int>, tail: set<int>, c: Claim)
    requires c.count > 0 && c.first !in before
    requires forall x :: x in tail <==> x in before || c.first < x <= c.first + c.count - 1
    ensures c.first !in tail
    ensures forall x :: x in tail + {c.first} <==> x in before || c.Has(x)
  {
  }
}
