/** What every run of the sequence barrier guarantees. */
module BarrierResults {
  import opened Lists
  import opened BarrierProtocol

  ghost predicate Next(s: State, s': State) {
    exists step :: Enabled(s, step) && s' == Apply(s, step)
  }

  ghost predicate NextAt(run: seq<State>, i: int)
    requires 0 < i < |run|
  {
    Next(run[i - 1], run[i])
  }

  ghost predicate IsRun(run: seq<State>) {
    && run != [] && Init(run[0])
    && forall i {:trigger NextAt(run, i)} :: 0 < i < |run| ==> NextAt(run, i)
  }

  lemma {:induction false} RunKeepsInv(run: seq<State>, i: nat)
    requires IsRun(run) && i < |run|
    ensures Inv(run[i])
  {
    hide Inv;
    if i == 0 {
      InitInv(run[0]);
    } else {
      RunKeepsInv(run, i - 1);
      assert NextAt(run, i);
      var step :| Enabled(run[i - 1], step) && run[i] == Apply(run[i - 1], step);
      StepPreserves(run[i - 1], step);
    }
  }

  /** No lost wakeup, in every state of every run: a listed waiter whose number
      is published is still going to be looked at by some thread, namely the
      publisher between its store and its exchange, or an awaiting thread that
      has yet to compare the published number with a target no later than the
      waiter's, or to exchange the list. */
  lemma NoLostWakeup(run: seq<State>, i: nat, w: nat)
    requires IsRun(run) && i < |run| && w in run[i].list
    ensures w in run[i].waiters
    ensures run[i].waiters[w].target <= run[i].last ==> exists t :: CoversAt(run[i], t, w)
  {
    RunKeepsInv(run, i);
    assert Covered(run[i], w);
  }

  ghost predicate Absent(s: State, t: Thread, w: nat) {
    t in s.locals ==> w !in s.locals[t].pending && w !in s.locals[t].due
  }

  function Occurrences(s: State, t: Thread, w: nat): nat
    requires t in s.locals
  {
    multiset(s.locals[t].pending)[w] + multiset(s.locals[t].due)[w]
  }

  ghost predicate OwnThreadDone(s: State, w: nat) {
    Awaiter(w) in s.locals && s.locals[Awaiter(w)].at == Done
  }

  ghost predicate HeldOnceBy(s: State, t: Thread, w: nat) {
    t in s.locals && Occurrences(s, t, w) == 1 && forall u :: u != t ==> Absent(s, u, w)
  }

  /** Neither resumed nor continued, and listed once and held by nobody, or held
      once by one thread; or gone, having been resumed once, or having gone on
      without ever suspending. Each case excludes the others. */
  ghost predicate InOnePlace(s: State, w: nat)
    requires w in s.waiters
  {
    var x := s.waiters[w];
    if x.resumes == 0 && x.runs == 0 then
      || (multiset(s.list)[w] == 1 && forall t :: Absent(s, t, w))
      || (w !in s.list && exists t :: HeldOnceBy(s, t, w))
    else
      && w !in s.list && (forall t :: Absent(s, t, w))
      && (x.resumes == 1 || (x.resumes == 0 && x.runs == 1 && OwnThreadDone(s, w)))
  }

  lemma OnePlace(s: State, w: nat)
    requires Inv(s) && w in s.waiters
    ensures InOnePlace(s, w)
  {
    ListMembers(s);
    assert CountedAt(s, w) && Lives(s, w);
    assert multiset(s.list)[w] == if Is(s, w, Listed) then 1 else 0;
    forall t | !Is(s, w, HeldBy(t)) ensures Absent(s, t, w) {
      if t in s.locals { HeldMembers(s, t); }
    }
    if s.place[w].HeldBy? {
      assert HoldsAt(s, s.place[w].thread);
      assert HeldOnceBy(s, s.place[w].thread, w);
    }
  }

  /** Every waiter is resumed at most once and continued at most once, in every
      state of every run, and until then it is listed or held; when it has been
      continued it knows a number that is published and not before its target; and
      once it is resumed and its own thread is done it has been continued. */
  lemma ResumedExactlyOnce(run: seq<State>, i: nat, w: nat)
    requires IsRun(run) && i < |run| && w in run[i].waiters
    ensures InOnePlace(run[i], w)
    ensures var x := run[i].waiters[w];
            && x.resumes <= 1 && x.runs <= 1
            && (x.runs == 1 ==> x.target <= x.known <= run[i].last)
            && (x.resumes == 1 && OwnThreadDone(run[i], w) ==> x.runs == 1)
  {
    RunKeepsInv(run, i);
    OnePlace(run[i], w);
    assert CountedAt(run[i], w);
  }

  ghost predicate AtRest(s: State) {
    forall t :: t in s.locals ==> s.locals[t].at == Idle || s.locals[t].at == Done
  }

  lemma RestingHoldsNothing(s: State, t: Thread, w: nat)
    requires Inv(s) && AtRest(s) && t in s.locals
    ensures !Is(s, w, HeldBy(t))
  {
    assert InformedAt(s, t) && HoldsAt(s, t);
    assert multiset(s.locals[t].pending)[w] + multiset(s.locals[t].due)[w] == 0;
  }

  lemma RestingCoversNothing(s: State, w: nat)
    requires AtRest(s)
    ensures !exists t :: CoversAt(s, t, w)
  {
  }

  /** With no thread inside an operation, whoever has not been continued sits in
      the list, once, waiting for a number that is not published. */
  lemma NoSatisfiedWaiterSleeps(run: seq<State>, i: nat, w: nat)
    requires IsRun(run) && i < |run| && w in run[i].waiters && AtRest(run[i])
    ensures var s, x := run[i], run[i].waiters[w];
            || (x.runs == 1 && x.target <= x.known <= s.last && w !in s.list)
            || (x.runs == 0 && x.target > s.last && multiset(s.list)[w] == 1)
  {
    var s := run[i];
    RunKeepsInv(run, i);
    ListMembers(s);
    assert CountedAt(s, w) && Lives(s, w) && InformedAt(s, Awaiter(w));
    if s.place[w].HeldBy? {
      RestingHoldsNothing(s, s.place[w].thread, w);
    }
    if s.place[w] == Listed {
      assert multiset(s.list)[w] == 1 && Is(s, w, Listed);
      RestingCoversNothing(s, w);
      assert Covered(s, w);
    }
  }

  // ---------- one thread alone ----------

  /** `n` steps of thread `t`, with no other thread moving. */
  function Solo(s: State, t: Thread, n: nat): State
    decreases n
  {
    if n == 0 || !Enabled(s, Advance(t)) then s else Solo(Apply(s, Advance(t)), t, n - 1)
  }

  lemma CanMove(s: State, t: Thread)
    requires Inv(s) && t in s.locals && s.locals[t].at != Idle && s.locals[t].at != Done
    ensures Enabled(s, Advance(t)) && Inv(Apply(s, Advance(t)))
  {
    ListMembers(s);
    HeldMembers(s, t);
    assert InformedAt(s, t) && Owns(s, t);
    StepPreserves(s, Advance(t));
  }

  lemma SoloStep(s: State, t: Thread, m: nat)
    requires Enabled(s, Advance(t))
    ensures Solo(s, t, 1 + m) == Solo(Apply(s, Advance(t)), t, m)
  {
  }

  /** A waiter after `resume()` was called on it with the known number `v`. */
  function Woken(x: Waiter, v: int): Waiter {
    x.(known := v, ready := true, resumes := x.resumes + 1,
       runs := if x.ready then x.runs + 1 else x.runs)
  }

  ghost predicate WokenIn(s: State, s': State, ws: seq<nat>, v: int) {
    && s'.waiters.Keys == s.waiters.Keys
    && forall w :: w in s.waiters ==>
         s'.waiters[w] == if w in ws then Woken(s.waiters[w], v) else s.waiters[w]
  }

  /** From `s`, thread `t` gets through its operation, reaching `s'`: the shared
      list is then `list`, and exactly `ws` were resumed, with number `v`. */
  ghost predicate Ends(s: State, s': State, t: Thread, list: seq<nat>, ws: seq<nat>, v: int) {
    && s'.last == s.last && s'.list == list && WokenIn(s, s', ws, v)
    && t in s'.locals && s'.locals[t].at == (if t == Publisher then Idle else Finish)
  }

  lemma {:induction false} WakesAll(s: State, t: Thread) returns (n: nat)
    requires Inv(s) && t in s.locals && s.locals[t].at.Wake?
    ensures Ends(s, Solo(s, t, n), t, s.list, s.locals[t].due, s.locals[t].at.value)
    decreases |s.locals[t].due|
  {
    hide Inv;
    CanMove(s, t);
    var s1, due, v := Apply(s, Advance(t)), s.locals[t].due, s.locals[t].at.value;
    if due == [] {
      n := 1;
      SoloStep(s, t, 0);
    } else {
      WakesOne(s, t);
      var m := WakesAll(s1, t);
      SoloStep(s, t, m);
      n := 1 + m;
      HeadIsOnce(s, t);
      WokenBoth(s, s1, Solo(s1, t, m), due, v);
    }
  }

  lemma WakesOne(s: State, t: Thread)
    requires Inv(s) && t in s.locals && s.locals[t].at.Wake? && s.locals[t].due != [] && Enabled(s, Advance(t))
    ensures var s1 := Apply(s, Advance(t));
            && t in s1.locals && s1.locals[t] == s.locals[t].(due := s.locals[t].due[1..])
            && s1.last == s.last && s1.list == s.list && WokenIn(s, s1, [s.locals[t].due[0]], s.locals[t].at.value)
  {
  }

  lemma WokenBoth(s: State, s1: State, s2: State, ws: seq<nat>, v: int)
    requires ws != [] && ws[0] !in ws[1..] && WokenIn(s, s1, [ws[0]], v) && WokenIn(s1, s2, ws[1..], v)
    ensures WokenIn(s, s2, ws, v)
  {
    assert ws == [ws[0]] + ws[1..];
  }

  lemma HeadIsOnce(s: State, t: Thread)
    requires Inv(s) && t in s.locals && s.locals[t].due != []
    ensures s.locals[t].due[0] !in s.locals[t].due[1..]
  {
    var due := s.locals[t].due;
    assert HoldsAt(s, t);
    assert due == [due[0]] + due[1..];
    assert multiset(due) == multiset{due[0]} + multiset(due[1..]);
    assert multiset(due)[due[0]] <= 1;
  }

  /** A thread that holds what it split pushes the pending part onto the empty
      list and resumes the rest. */
  lemma PublisherPushes(s: State, v: int) returns (n: nat)
    requires Inv(s) && s.locals[Publisher].at == PubPush(v, None) && s.list == []
    ensures var l := s.locals[Publisher];
            Ends(s, Solo(s, Publisher, n), Publisher, l.pending, l.due, v)
  {
    CanMove(s, Publisher);
    var s1 := Apply(s, Advance(Publisher));
    var m := WakesAll(s1, Publisher);
    SoloStep(s, Publisher, m);
    n := 1 + m;
  }

  lemma PublisherTakes(s: State, v: int) returns (n: nat)
    requires Inv(s) && s.locals[Publisher].at == PubSwap(v) && s.list != []
    ensures Ends(s, Solo(s, Publisher, n), Publisher, Pending(s, s.list, v), Due(s, s.list, v), v)
  {
    CanMove(s, Publisher);
    var s1 := Apply(s, Advance(Publisher));
    var m: nat;
    if Pending(s, s.list, v) == [] {
      m := WakesAll(s1, Publisher);
    } else {
      m := PublisherPushes(s1, v);
    }
    SoloStep(s, Publisher, m);
    n := 1 + m;
  }

  /** A publish that nobody interrupts leaves the waiters beyond its number in
      the list, in order, and resumes exactly the others with that number. */
  lemma PublishAlone(s: State, v: int) returns (n: nat)
    requires Inv(s) && Enabled(s, Publish(v))
    ensures var s0 := Apply(s, Publish(v));
            && s0.last == v
            && Ends(s0, Solo(s0, Publisher, n), Publisher, Pending(s, s.list, v), Due(s, s.list, v), v)
  {
    StepPreserves(s, Publish(v));
    var s0 := Apply(s, Publish(v));
    CanMove(s0, Publisher);
    var s1 := Apply(s0, Advance(Publisher));
    if s.list == [] {
      n := 1;
      SoloStep(s0, Publisher, 0);
    } else {
      var m := PublisherTakes(s1, v);
      SoloStep(s0, Publisher, m);
      n := 1 + m;
    }
  }

  /** Loading the head of the list and exchanging it, with nobody in between. */
  lemma AdderLinks(s: State, t: Thread) returns (s1: State, s2: State)
    requires Inv(s) && t in s.locals && s.locals[t].at.AddLoad?
    ensures Enabled(s, Advance(t)) && s1 == Apply(s, Advance(t))
    ensures Enabled(s1, Advance(t)) && s2 == Apply(s1, Advance(t)) && Inv(s2)
    ensures s2.list == s.locals[t].pending + s.list && s2.waiters == s.waiters && s2.last == s.last
    ensures t in s2.locals && s2.locals[t] == Local(AddCheck(s.locals[t].at.min), [], s.locals[t].due)
  {
    CanMove(s, t);
    s1 := Apply(s, Advance(t));
    CanMove(s1, t);
    s2 := Apply(s1, Advance(t));
  }

  lemma AdderPushes(s: State, t: Thread) returns (n: nat)
    requires Inv(s) && t in s.locals && s.locals[t].at.AddLoad?
    requires s.last < s.locals[t].at.min
    ensures Ends(s, Solo(s, t, n), t, s.locals[t].pending + s.list, s.locals[t].due, s.last)
  {
    var s1, s2 := AdderLinks(s, t);
    var m := AdderStops(s2, t);
    SoloStep(s1, t, m);
    SoloStep(s, t, 1 + m);
    n := 1 + (1 + m);
  }

  lemma AdderStops(s: State, t: Thread) returns (n: nat)
    requires Inv(s) && t in s.locals && s.locals[t].at.AddCheck? && s.last < s.locals[t].at.min
    ensures Ends(s, Solo(s, t, n), t, s.list, s.locals[t].due, s.last)
  {
    assert InformedAt(s, t);
    CanMove(s, t);
    var s1 := Apply(s, Advance(t));
    var m := WakesAll(s1, t);
    SoloStep(s, t, m);
    n := 1 + m;
  }

  /** After an adder's exchange: it holds both parts of the list it found, and goes
      on to push the later one, if there is one. */
  lemma AdderSplits(s: State, t: Thread) returns (s1: State)
    requires Inv(s) && t in s.locals && s.locals[t].at == AddSwap(s.last)
    ensures Enabled(s, Advance(t)) && s1 == Apply(s, Advance(t)) && Inv(s1)
    ensures s1.list == [] && s1.last == s.last && s1.waiters == s.waiters && t in s1.locals
    ensures var l, pending := s1.locals[t], Pending(s, s.list, s.last);
            && l.pending == pending && l.due == s.locals[t].due + Due(s, s.list, s.last)
            && if pending == [] then l.at == Wake(s.last) else l.at.AddLoad? && s.last < l.at.min
  {
    CanMove(s, t);
    assert InformedAt(s, t);
    SplitFacts(s, s.last);
    s1 := Apply(s, Advance(t));
  }

  lemma SamePending(s: State, s1: State, list: seq<nat>)
    requires s1.waiters == s.waiters
    ensures Pending(s1, list, s.last) == Pending(s, list, s.last) && Due(s1, list, s.last) == Due(s, list, s.last)
  {
  }

  lemma SameWaiters(s: State, s1: State, s': State, t: Thread, list: seq<nat>, ws: seq<nat>, v: int)
    requires s1.last == s.last && s1.waiters == s.waiters && Ends(s1, s', t, list, ws, v)
    ensures Ends(s, s', t, list, ws, v)
  {
  }

  lemma AdderEmptiesHands(s: State, t: Thread, pending: seq<nat>) returns (n: nat)
    requires Inv(s) && t in s.locals && s.list == [] && s.locals[t].pending == pending
    requires if pending == [] then s.locals[t].at == Wake(s.last)
             else s.locals[t].at.AddLoad? && s.last < s.locals[t].at.min
    ensures Ends(s, Solo(s, t, n), t, pending, s.locals[t].due, s.last)
  {
    hide Inv, Ends, Solo;
    if pending == [] {
      n := WakesAll(s, t);
    } else {
      assert pending + s.list == pending;
      n := AdderPushes(s, t);
    }
  }

  lemma AdderTakes(s: State, t: Thread) returns (n: nat)
    requires Inv(s) && t in s.locals && s.locals[t].at == AddSwap(s.last)
    ensures Ends(s, Solo(s, t, n), t, Pending(s, s.list, s.last),
                 s.locals[t].due + Due(s, s.list, s.last), s.last)
  {
    hide Inv, Ends, Solo, Pending, Due, Apply, Enabled;
    var pending := Pending(s, s.list, s.last);
    var s1 := AdderSplits(s, t);
    var m := AdderEmptiesHands(s1, t, pending);
    SameWaiters(s, s1, Solo(s1, t, m), t, pending, s1.locals[t].due, s.last);
    SoloStep(s, t, m);
    n := 1 + m;
  }

  /** An awaiting thread that finds something published among what it pushed, and
      is not interrupted, takes the list, resumes everything published and leaves
      the rest. */
  lemma AdderAlone(s: State, t: Thread) returns (n: nat)
    requires Inv(s) && t in s.locals && s.locals[t].at.AddCheck? && s.locals[t].at.min <= s.last
    ensures Ends(s, Solo(s, t, n), t, Pending(s, s.list, s.last),
                 s.locals[t].due + Due(s, s.list, s.last), s.last)
  {
    CanMove(s, t);
    var s1 := Apply(s, Advance(t));
    var m := AdderTakes(s1, t);
    SoloStep(s, t, m);
    n := 1 + m;
  }

  /** All of `add_awaiter`, from its first push on, with any list: if the least
      target it pushes is not published, it leaves everything in the list;
      otherwise it takes the list, whoever pushed to it, resumes everything
      published and leaves the rest in order. */
  lemma AddAlone(s: State, t: Thread) returns (n: nat)
    requires Inv(s) && t in s.locals && s.locals[t].at.AddLoad?
    ensures var l, all := s.locals[t], s.locals[t].pending + s.list;
            if s.last < l.at.min then Ends(s, Solo(s, t, n), t, all, l.due, s.last)
            else Ends(s, Solo(s, t, n), t, Pending(s, all, s.last), l.due + Due(s, all, s.last), s.last)
  {
    hide Inv, Ends, Solo;
    if s.last < s.locals[t].at.min {
      n := AdderPushes(s, t);
    } else {
      var s1, s2 := AdderLinks(s, t);
      var m := AdderAlone(s2, t);
      var all := s.locals[t].pending + s.list;
      SamePending(s, s2, all);
      SameWaiters(s, s2, Solo(s2, t, m), t, Pending(s, all, s.last), s.locals[t].due + Due(s, all, s.last), s.last);
      SoloStep(s1, t, m);
      SoloStep(s, t, 1 + m);
      n := 1 + (1 + m);
    }
  }
}
