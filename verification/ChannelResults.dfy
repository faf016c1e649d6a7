/** What every run of the channel guarantees: values come out in claim order, each
    once, through slots that were empty when they were granted. */
module ChannelResults {
  import opened Lists
  import R = Ring
  import Rings = RingResults
  import opened ChannelProtocol

  ghost predicate Next<V(!new)>(s: State<V>, s': State<V>) {
    WellFormed(s) && exists step :: Enabled(s, step) && s' == Apply(s, step)
  }

  ghost predicate NextAt<V(!new)>(run: seq<State<V>>, i: int)
    requires 0 < i < |run|
  {
    Next(run[i - 1], run[i])
  }

  ghost predicate IsRun<V(!new)>(run: seq<State<V>>) {
    && run != [] && Init(run[0])
    && forall i {:trigger NextAt(run, i)} :: 0 < i < |run| ==> NextAt(run, i)
  }

  lemma {:induction false} RunKeepsInv<V(!new)>(run: seq<State<V>>, i: nat)
    requires IsRun(run) && i < |run|
    ensures Inv(run[i])
  {
    hide Inv;
    if i == 0 {
      InitInv(run[0]);
    } else {
      RunKeepsInv(run, i - 1);
      assert NextAt(run, i);
      var step :| Enabled(run[i - 1], step) && run[i] == Apply(run[i - 1], step);
      StepPreserves(run[i - 1], step);
    }
  }

  /** The claim that took the `j`-th number. */
  function Taker<V>(s: State<V>, j: nat): nat
    requires j < |s.ring.order|
  {
    s.ring.order[j]
  }

  /** First in, first out: the pops found, in claim order and each once, what the
      claims' senders last wrote, and nothing exactly where a claim closed the
      channel. */
  lemma FirstInFirstOut<V(!new)>(run: seq<State<V>>, i: nat, j: nat)
    requires IsRun(run) && i < |run| && j < |run[i].popped|
    ensures var s, x := run[i], run[i].ring.initial + 1 + j;
            && j < |s.ring.order| && Taker(s, j) in s.kinds
            && s.ring.claims.Keys >= {Taker(s, j)} && s.ring.claims[Taker(s, j)] == R.Claim(x, 1, true)
            && (s.kinds[Taker(s, j)] == Push <==> x in s.written)
            && s.popped[j] == if s.kinds[Taker(s, j)] == Push then Some(s.written[x]) else None
  {
    var s, x := run[i], run[i].ring.initial + 1 + j;
    RunKeepsInv(run, i);
    assert x in s.ring.published;
    assert Complete(s.ring, s.kinds, s.written, x);
    OwnerHasJust(s, x);
  }

  lemma OwnerHasJust<V>(s: State<V>, x: int)
    requires Inv(s) && x in s.ring.published
    ensures R.Claimed(s.ring.initial, s.ring.order, x)
    ensures var p := R.Owner(s.ring.initial, s.ring.order, x);
            p in s.ring.claims && s.ring.claims[p] == R.Claim(x, 1, true)
  {
    assert R.GrantedTo(s.ring.initial, s.ring.order, s.ring.claims, x);
  }

  /** Once the receiver has released everything that was claimed, the pops are the
      claims. */
  lemma DrainedPoppedAll<V(!new)>(run: seq<State<V>>, i: nat)
    requires IsRun(run) && i < |run|
    requires run[i].wrapper == NoWrapper && run[i].ring.consumed == run[i].ring.next - 1
    ensures |run[i].popped| == |run[i].ring.order|
  {
    RunKeepsInv(run, i);
  }

  /** What was popped stays popped, and what was published does not change. */
  lemma PublishedIsFinal<V>(s: State<V>, step: Step<V>)
    requires Inv(s) && Enabled(s, step)
    ensures s.popped <= Apply(s, step).popped
    ensures forall x {:trigger x in s.ring.published} :: x in s.ring.published ==>
      Content(Apply(s, step).written, x) == Content(s.written, x)
  {
  }

  lemma WrittenIsGranted<V>(s: State<V>, x: int)
    requires Inv(s) && x in s.written
    ensures Rings.Granted(s.ring, x)
  {
    assert MayBeWritten(s.ring, s.kinds, x);
  }

  /** A data slot is empty whenever a sender is granted it. */
  lemma EmptyWhenGranted<V(!new)>(run: seq<State<V>>, i: nat, p: nat)
    requires IsRun(run) && i < |run| && Enabled(run[i], Grant(p)) && !run[i].ring.claims[p].granted
    ensures WellFormed(run[i]) && run[i].data[Slot(run[i], run[i].ring.claims[p].first)] == None
  {
    var s, x := run[i], run[i].ring.claims[p].first;
    RunKeepsInv(run, i);
    ClaimOwns(s.ring, p, x);
    if x in s.written { WrittenIsGranted(s, x); }
    if x in s.ring.published { OwnerHasJust(s, x); }
    NotKnown(s.ring, x);
    assert Holds(s.data, s.written, x);
  }

  /** `front` finds an empty slot, and reports the channel closed, exactly at the
      position of a `close`; elsewhere it finds the value its sender wrote. */
  lemma FrontTellsClosed<V(!new)>(run: seq<State<V>>, i: nat)
    requires IsRun(run) && i < |run| && Enabled(run[i], Pop)
    ensures var s := run[i];
            && WellFormed(s) && 0 <= s.front - s.ring.initial - 1 < |s.ring.order|
            && Taker(s, s.front - s.ring.initial - 1) in s.kinds
            && (s.data[Slot(s, s.front)] == None <==> s.kinds[Taker(s, s.front - s.ring.initial - 1)] == Close)
            && (s.data[Slot(s, s.front)] != None ==>
                  s.front in s.written && s.data[Slot(s, s.front)] == Some(s.written[s.front]))
  {
    var s := run[i];
    RunKeepsInv(run, i);
    assert Complete(s.ring, s.kinds, s.written, s.front);
    assert Holds(s.data, s.written, s.front);
  }

  /** The first read through a pop wrapper yields what the pop found. */
  lemma FreshWrapperHoldsPopped<V(!new)>(run: seq<State<V>>, i: nat)
    requires IsRun(run) && i < |run| && run[i].wrapper == Fresh
    ensures WellFormed(run[i]) && run[i].popped != []
    ensures run[i].data[Slot(run[i], run[i].front)] == run[i].popped[|run[i].popped| - 1]
  {
    var s := run[i];
    RunKeepsInv(run, i);
    assert Holds(s.data, s.written, s.front);
  }

  // ---------- order per sender ----------

  /** Claims keep their numbers, and later claims get later ones. */
  ghost predicate LaterClaims(r: R.State, r': R.State) {
    && r.next <= r'.next
    && (forall p :: p in r.claims ==> p in r'.claims && r'.claims[p].first == r.claims[p].first)
    && (forall q :: q in r'.claims && q !in r.claims ==> r.next <= r'.claims[q].first)
  }

  lemma StepClaimsLater<V>(s: State<V>, step: Step<V>)
    requires Inv(s) && Enabled(s, step)
    ensures LaterClaims(s.ring, Apply(s, step).ring)
  {
  }

  lemma {:induction false} RunClaimsLater<V(!new)>(run: seq<State<V>>, i: nat, j: nat)
    requires IsRun(run) && i <= j < |run|
    ensures LaterClaims(run[i].ring, run[j].ring)
    decreases j
  {
    if i < j {
      RunClaimsLater(run, i, j - 1);
      RunKeepsInv(run, j - 1);
      assert NextAt(run, j);
      var step :| Enabled(run[j - 1], step) && run[j] == Apply(run[j - 1], step);
      StepClaimsLater(run[j - 1], step);
    }
  }

  /** Whoever claims later, after an earlier claim was made, is popped later; so
      the values of one sender come out in the order of its pushes. */
  lemma SenderOrder<V(!new)>(run: seq<State<V>>, i: nat, j: nat, p: nat, q: nat)
    requires IsRun(run) && i <= j < |run|
    requires p in run[i].ring.claims && q !in run[i].ring.claims && q in run[j].ring.claims
    ensures p in run[j].ring.claims && run[j].ring.claims[p].first < run[j].ring.claims[q].first
  {
    RunKeepsInv(run, i);
    RunClaimsLater(run, i, j);
    ClaimOwns(run[i].ring, p, run[i].ring.claims[p].first);
  }
}
