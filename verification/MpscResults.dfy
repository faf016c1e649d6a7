/** What every run of the multi-producer sequencer guarantees to the consumer that
    waits for published numbers. */
module MpscResults {
  import opened Lists
  import R = Ring
  import Rings = RingResults
  import opened MpscProtocol

  ghost predicate Next(s: State, s': State) {
    s.ring.size > 0 && |s.ring.slots| == s.ring.size && exists step :: Enabled(s, step) && s' == Apply(s, step)
  }

  ghost predicate NextAt(run: seq<State>, i: int)
    requires 0 < i < |run|
  {
    Next(run[i - 1], run[i])
  }

  ghost predicate IsRun(run: seq<State>) {
    && run != [] && Init(run[0])
    && forall i {:trigger NextAt(run, i)} :: 0 < i < |run| ==> NextAt(run, i)
  }

  lemma {:induction false} RunKeepsInv(run: seq<State>, i: nat)
    requires IsRun(run) && i < |run|
    ensures Inv(run[i])
  {
    hide Inv;
    if i == 0 {
      InitInv(run[0]);
    } else {
      RunKeepsInv(run, i - 1);
      assert NextAt(run, i);
      var step :| Enabled(run[i - 1], step) && run[i] == Apply(run[i - 1], step);
      StepPreserves(run[i - 1], step);
    }
  }

  /** No lost wakeup: once everything up to the target of the listed waiter is
      published, some producer has yet to look at the list, or the consumer itself
      is still scanning after it listed the waiter. */
  lemma NoLostWakeup(run: seq<State>, i: nat)
    requires IsRun(run) && i < |run|
    requires run[i].list != None && UpTo(run[i].ring, run[i].wait.target)
    ensures (exists t :: Obliged(run[i], t)) || run[i].consumer.AddScan? || run[i].consumer.AddSwap?
  {
    RunKeepsInv(run, i);
  }

  /** At rest, with no producer inside `publish`, the consumer sleeps only for a
      number that is not published. */
  lemma SleepsOnlyForMissing(run: seq<State>, i: nat)
    requires IsRun(run) && i < |run|
    requires run[i].consumer == Suspended && forall t :: t in run[i].threads ==> run[i].threads[t] == User
    ensures run[i].list == Some(run[i].wait.id)
    ensures exists x :: run[i].wait.known < x <= run[i].wait.target && x !in run[i].ring.published
  {
    var s := run[i];
    RunKeepsInv(run, i);
    forall t | t in s.threads ensures s.place != HeldBy(t) {
      assert ProducerAt(s, t);
    }
    var x :| Missing(s, x);
  }

  /** Every wait operation so far, but the one in flight, has continued once, with
      a value that covers its target and is known to be published. */
  lemma ContinuedOnce(run: seq<State>, i: nat)
    requires IsRun(run) && i < |run|
    ensures run[i].consumer == Running ==> |run[i].log| == run[i].begun
    ensures run[i].consumer != Running ==> |run[i].log| == run[i].begun - 1 == run[i].wait.id
    ensures forall j :: 0 <= j < |run[i].log| ==>
      && run[i].log[j].target <= run[i].log[j].value
      && forall x :: run[i].ring.initial < x <= run[i].log[j].value ==> x in run[i].ring.published
  {
    RunKeepsInv(run, i);
  }

  /** A continuation happens only to a consumer that waits, once, with the target
      it waits for. */
  lemma ContinuesTheWaiter(s: State, step: Step)
    requires Inv(s) && Enabled(s, step)
    ensures var s' := Apply(s, step);
            || s'.log == s.log
            || (s.consumer != Running && s'.consumer == Running
                && s'.log == s.log + [Woken(s.wait.target, s'.wait.known)] && s.wait.target <= s'.wait.known)
  {
    match step
    case Produce(t) => assert ProducerAt(s, t);
    case _ =>
  }

  // ---------- a producer that runs alone ----------

  predicate Busy(s: State, t: nat) {
    && s.ring.size > 0 && |s.ring.slots| == s.ring.size
    && t in s.threads && s.threads[t] != User
  }

  predicate Moves(s: State, t: nat, s': State) { Busy(s, t) && s' == Advance(s, t) }

  /** A stretch of a run in which only thread `t` takes steps. */
  ghost predicate Alone(run: seq<State>, t: nat) {
    run != [] && forall i {:trigger MovesAt(run, i, t)} :: 0 < i < |run| ==> MovesAt(run, i, t)
  }

  predicate MovesAt(run: seq<State>, i: int, t: nat)
    requires 0 < i < |run|
  {
    Moves(run[i - 1], t, run[i])
  }

  lemma AloneStep(s: State, t: nat, run: seq<State>)
    requires Alone(run, t) && Moves(s, t, run[0])
    ensures Alone([s] + run, t)
  {
    var whole := [s] + run;
    forall i | 0 < i < |whole| ensures MovesAt(whole, i, t) {
      if i > 1 { assert MovesAt(run, i - 1, t); }
    }
  }

  lemma AloneConcat(run: seq<State>, t: nat, rest: seq<State>)
    requires Alone(run, t) && Alone(rest, t) && Moves(run[|run| - 1], t, rest[0])
    ensures Alone(run + rest, t)
  {
    var whole := run + rest;
    forall i | 0 < i < |whole| ensures MovesAt(whole, i, t) {
      if i < |run| {
        assert MovesAt(run, i, t);
      } else if i > |run| {
        assert MovesAt(rest, i - |run|, t);
      }
    }
  }

  lemma {:induction false} AloneKeepsInv(run: seq<State>, t: nat, i: nat)
    requires Alone(run, t) && Inv(run[0]) && i < |run|
    ensures Inv(run[i])
  {
    if i > 0 {
      AloneKeepsInv(run, t, i - 1);
      assert MovesAt(run, i, t);
      AdvancePreserves(run[i - 1], t);
    }
  }

  /** What a thread sees while it holds the list. */
  lemma HeldScan(s: State, t: nat, k: int)
    requires Inv(s) && t in s.threads && s.threads[t] == Scan(k)
    ensures Busy(s, t) && s.place == HeldBy(t) && s.list == None && s.consumer != Running
    ensures s.wait.ready <==> s.consumer == Suspended
    ensures Reads(s, k + 1) <==> k + 1 in s.ring.published
    ensures Reads(s, k + 1) ==> k + 1 < s.ring.next
  {
    assert ProducerAt(s, t);
    Rings.ReadIsExact(s.ring, k + 1);
    if Reads(s, k + 1) { R.PublishedInWindow(s.ring, k + 1); }
  }

  lemma ScanMoves(s: State, t: nat, k: int)
    requires Inv(s) && t in s.threads && s.threads[t] == Scan(k) && k + 1 in s.ring.published
    ensures Moves(s, t, Goto(s, t, Scan(k + 1))) && Inv(Goto(s, t, Scan(k + 1))) && k + 1 < s.ring.next
  {
    HeldScan(s, t, k);
    ScanOnPreserves(s, t, k);
  }

  lemma GotoTwice(s: State, t: nat, at: Producer, next: Producer)
    ensures Goto(Goto(s, t, at), t, next) == Goto(s, t, next)
    ensures t in s.threads && s.threads[t] == at ==> Goto(s, t, at) == s
  {
    assert s.threads[t := at][t := next] == s.threads[t := next];
    if t in s.threads && s.threads[t] == at { assert s.threads[t := at] == s.threads; }
  }

  /** The scan of a held list stops at the end of the contiguous published run. */
  lemma {:induction false} ScanAlone(s: State, t: nat, k: int) returns (run: seq<State>)
    requires Inv(s) && t in s.threads && s.threads[t] == Scan(k)
    ensures Alone(run, t) && run[0] == s
    ensures run[|run| - 1] == Goto(s, t, Scan(Rings.End(s.ring, k)))
    decreases s.ring.next - k
  {
    hide Inv;
    if k + 1 in s.ring.published {
      var s1 := Goto(s, t, Scan(k + 1));
      ScanMoves(s, t, k);
      run := ScanAlone(s1, t, k + 1);
      GotoTwice(s, t, Scan(k + 1), Scan(Rings.End(s.ring, k)));
      AloneStep(s, t, run);
      run := [s] + run;
    } else {
      GotoTwice(s, t, Scan(k), Scan(k));
      run := [s];
    }
  }

  /** What one undisturbed `publish` makes of a sleeping consumer, when everything
      up to `e` and nothing beyond it is contiguously published. */
  predicate Delivers(s: State, after: State, t: nat, e: int) {
    && t in after.threads && after.threads[t] == User
    && after.ring.published == s.ring.published && after.wait.target == s.wait.target && after.wait.known == e
    && if s.wait.target <= e then after.consumer == Running && after.log == s.log + [Woken(s.wait.target, e)]
       else after.consumer == Suspended && after.list == Some(s.wait.id) && after.log == s.log
  }

  /** From the end of the scan the producer resumes the consumer or puts it back
      with what it learned. */
  lemma ScanEndAlone(s: State, t: nat, e: int) returns (run: seq<State>)
    requires Busy(s, t) && s.threads[t] == Scan(e) && !Reads(s, e + 1)
    requires s.consumer == Suspended && s.wait.ready
    ensures Alone(run, t) && Moves(s, t, run[0]) && Delivers(s, run[|run| - 1], t, e)
  {
    var s1 := Advance(s, t);
    var s2 := Advance(s1, t);
    run := if s.wait.target <= e then [s1, s2] else [s1, s2, Advance(s2, t)];
  }

  lemma LoadTakes(s: State, t: nat) returns (s1: State, s2: State)
    requires Inv(s) && t in s.threads && s.threads[t] == Load && s.list != None
    ensures Moves(s, t, s1) && Moves(s1, t, s2) && Inv(s2)
    ensures t in s2.threads && s2.threads[t] == Scan(s.wait.known)
    ensures s2.ring == s.ring && s2.wait == s.wait && s2.consumer == s.consumer && s2.log == s.log
  {
    s1 := Advance(s, t);
    LoadPreserves(s, t);
    s2 := Take(s1, t);
    TakePreserves(s1, t);
  }

  lemma EndIsUnread(s: State)
    requires Inv(s)
    ensures Rings.End(s.ring, s.wait.known) + 1 !in s.ring.published
  {
    Rings.EndIsLongest(s.ring, s.wait.known);
  }

  /** From the exchange that took the list on. */
  lemma HolderAlone(s: State, t: nat) returns (run: seq<State>)
    requires Inv(s) && t in s.threads && s.threads[t] == Scan(s.wait.known) && s.consumer == Suspended
    ensures Alone(run, t) && run[0] == s
    ensures Delivers(s, run[|run| - 1], t, Rings.End(s.ring, s.wait.known))
  {
    hide Inv;
    var e := Rings.End(s.ring, s.wait.known);
    run := ScanAlone(s, t, s.wait.known);
    var s1 := run[|run| - 1];
    AloneKeepsInv(run, t, |run| - 1);
    HeldScan(s1, t, e);
    EndIsUnread(s);
    var rest := ScanEndAlone(s1, t, e);
    AloneConcat(run, t, rest);
    run := run + rest;
  }

  /** A producer that has stored its number and then runs undisturbed wakes the
      sleeping consumer exactly if everything up to its target is published, and
      tells it the longest contiguous published run; otherwise it lists the
      consumer again. */
  lemma ProducerAlone(s: State, t: nat) returns (run: seq<State>)
    requires Inv(s) && t in s.threads && s.threads[t] == Load
    requires s.consumer == Suspended && s.list != None
    ensures Alone(run, t) && run[0] == s
    ensures Delivers(s, run[|run| - 1], t, Rings.End(s.ring, s.wait.known))
  {
    var s1, s2 := LoadTakes(s, t);
    run := HolderAlone(s2, t);
    AloneStep(s1, t, run);
    AloneStep(s, t, [s1] + run);
    run := [s] + ([s1] + run);
  }
}
