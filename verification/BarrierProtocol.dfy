/** The sequence barrier as an interleaving of its atomic accesses: one
    publisher, any number of awaiting threads, and the shared list of waiters
    that they steal, split and push back.

    Sequence numbers are unbounded here; module Words says when the 64-bit
    comparisons agree with them. A thread is at one program point, with its two
    local lists; each `Step` is one load, store, exchange or compare-exchange of
    `m_lastPublished`, `m_awaiters` or `m_readyToResume`. */
module BarrierProtocol {
  import opened Lists

  /** One `co_await` of the barrier. `resumes` counts calls of its `resume()`,
      `runs` how often the awaiting coroutine was continued. */
  datatype Waiter = Waiter(target: int, known: int, ready: bool, resumes: nat, runs: nat)

  datatype Thread = Publisher | Awaiter(id: nat)

  /** Program points, with the locals that are numbers. */
  datatype Point =
    | Idle
    | PubLoad(value: int)
    | PubSwap(value: int)
    | PubPush(value: int, expected: Option<nat>)
    | AddLoad(min: int)
    | AddPush(min: int, expected: Option<nat>)
    | AddCheck(min: int)
    | AddSwap(known: int)
    | Wake(value: int)
    | Finish
    | Done

  /** `pending` is `awaitersToRequeue`, `due` is `awaitersToResume`. */
  datatype Local = Local(at: Point, pending: seq<nat>, due: seq<nat>)

  /** Where a waiter is: an auxiliary record, never read by a step. */
  datatype Place = Listed | HeldBy(thread: Thread) | Resumed | NeverQueued

  datatype State = State(
    last: int,                   // m_lastPublished
    list: seq<nat>,              // the chain from m_awaiters
    waiters: map<nat, Waiter>,
    locals: map<Thread, Local>,
    place: map<nat, Place>)

  function Head(list: seq<nat>): Option<nat> { if list == [] then None else Some(list[0]) }

  /** Members of `list` whose target is published by `v`, and the others. */
  function Due(s: State, list: seq<nat>, v: int): seq<nat> {
    Keep(list, set w | w in s.waiters && s.waiters[w].target <= v)
  }

  function Pending(s: State, list: seq<nat>, v: int): seq<nat> {
    Keep(list, set w | w in s.waiters && s.waiters[w].target > v)
  }

  function MinTarget(s: State, list: seq<nat>): (m: int)
    requires list != [] && forall w :: w in list ==> w in s.waiters
    ensures forall w :: w in list ==> m <= s.waiters[w].target
    ensures exists w :: w in list && m == s.waiters[w].target
  {
    var t := s.waiters[list[0]].target;
    if |list| == 1 then t
    else
      assert forall w :: w in list ==> w == list[0] || w in list[1..];
      var m := MinTarget(s, list[1..]);
      if t < m then t else m
  }

  datatype Step =
    | Publish(value: int)
    | Await(id: nat, target: int)
    | Advance(thread: Thread)

  predicate Enabled(s: State, step: Step) {
    match step
    case Publish(v) => Publisher in s.locals && s.locals[Publisher].at == Idle && s.last <= v
    case Await(w, _) => w !in s.waiters && Awaiter(w) !in s.locals && w !in s.place
    case Advance(t) =>
      && t in s.locals && s.locals[t].at != Idle && s.locals[t].at != Done
      && (s.locals[t].at == Finish ==> t.Awaiter? && t.id in s.waiters)
      && (forall w :: w in s.list ==> w in s.waiters) && (forall w :: w in s.locals[t].due ==> w in s.waiters)
  }

  /** All of `ws` move to `p`. */
  function Move(place: map<nat, Place>, ws: seq<nat>, p: Place): map<nat, Place> {
    map w | w in place :: if w in ws then p else place[w]
  }

  function Goto(s: State, t: Thread, at: Point): State
    requires t in s.locals
  {
    s.(locals := s.locals[t := s.locals[t].(at := at)])
  }

  function Apply(s: State, step: Step): State
    requires Enabled(s, step)
  {
    match step
    case Publish(v) => Goto(s, Publisher, PubLoad(v)).(last := v)
    case Await(w, target) => Begin(s, w, target)
    case Advance(t) =>
      match s.locals[t].at
      case PubLoad(v) => Goto(s, t, if s.list == [] then Idle else PubSwap(v))
      case PubSwap(v) => PublisherSteals(s, t, v)
      case PubPush(v, expected) =>
        if expected == Head(s.list) then PushBack(s, t, Wake(v))
        else Goto(s, t, PubPush(v, Head(s.list)))
      case AddLoad(min) => Goto(s, t, AddPush(min, Head(s.list)))
      case AddPush(min, expected) =>
        if expected == Head(s.list) then PushBack(s, t, AddCheck(min))
        else Goto(s, t, AddPush(min, Head(s.list)))
      case AddCheck(min) => Goto(s, t, if s.last < min then Wake(s.last) else AddSwap(s.last))
      case AddSwap(known) => AdderSteals(s, t, known)
      case Wake(v) =>
        if s.locals[t].due == [] then Goto(s, t, if t == Publisher then Idle else Finish)
        else ResumeNext(s, t, v)
      case Finish => FinishAwait(s, t)
  }

  /** The wait operation's constructor and `await_ready`: the value read decides
      whether the coroutine suspends at all. */
  function Begin(s: State, w: nat, target: int): State {
    if s.last < target then
      s.(waiters := s.waiters[w := Waiter(target, s.last, false, 0, 0)],
         locals := s.locals[Awaiter(w) := Local(AddLoad(target), [w], [])],
         place := s.place[w := HeldBy(Awaiter(w))])
    else
      s.(waiters := s.waiters[w := Waiter(target, s.last, false, 0, 1)],
         locals := s.locals[Awaiter(w) := Local(Done, [], [])],
         place := s.place[w := NeverQueued])
  }

  /** Takes the whole shared list, to be split as `pending` and `due`. */
  function Steal(s: State, t: Thread, local: Local): State {
    s.(list := [], locals := s.locals[t := local], place := Move(s.place, s.list, HeldBy(t)))
  }

  function PublisherSteals(s: State, t: Thread, v: int): State
    requires t in s.locals
  {
    if s.list == [] then Goto(s, t, Idle)
    else
      var pending := Pending(s, s.list, v);
      var at := if pending == [] then Wake(v) else PubPush(v, None);
      Steal(s, t, Local(at, pending, Due(s, s.list, v)))
  }

  function AdderSplit(s: State, t: Thread, known: int): Local
    requires t in s.locals && forall w :: w in s.list ==> w in s.waiters
  {
    var pending := Pending(s, s.list, known);
    var at := if pending == [] then Wake(known) else AddLoad(MinTarget(s, pending));
    Local(at, pending, s.locals[t].due + Due(s, s.list, known))
  }

  function AdderSteals(s: State, t: Thread, known: int): State
    requires t in s.locals && forall w :: w in s.list ==> w in s.waiters
  {
    Steal(s, t, AdderSplit(s, t, known))
  }

  /** The compare-exchange that links the pending waiters in front of the list. */
  function PushBack(s: State, t: Thread, next: Point): State
    requires t in s.locals
  {
    var l := s.locals[t];
    s.(list := l.pending + s.list, locals := s.locals[t := Local(next, [], l.due)],
       place := Move(s.place, l.pending, Listed))
  }

  /** `m_lastKnownPublished = v; resume()` for the first due waiter: of the two
      exchanges on `m_readyToResume` the second one continues the coroutine. */
  function ResumeNext(s: State, t: Thread, v: int): State
    requires t in s.locals && s.locals[t].due != [] && s.locals[t].due[0] in s.waiters
  {
    var l := s.locals[t];
    var w := l.due[0];
    var x := s.waiters[w];
    s.(waiters := s.waiters[w := x.(known := v, ready := true, resumes := x.resumes + 1,
                                    runs := if x.ready then x.runs + 1 else x.runs)],
       locals := s.locals[t := l.(due := l.due[1..])],
       place := Move(s.place, [w], Resumed))
  }

  /** The exchange at the end of `await_suspend`. */
  function FinishAwait(s: State, t: Thread): State
    requires t in s.locals && t.Awaiter? && t.id in s.waiters
  {
    var x := s.waiters[t.id];
    Goto(s, t, Done).(
      waiters := s.waiters[t.id := x.(ready := true, runs := if x.ready then x.runs + 1 else x.runs)])
  }

  // ---------- the invariant ----------

  ghost predicate Is(s: State, w: nat, p: Place) { w in s.place && s.place[w] == p }

  ghost predicate ListHolds(s: State) {
    forall w :: multiset(s.list)[w] == if Is(s, w, Listed) then 1 else 0
  }

  ghost predicate Holds(s: State, t: Thread, l: Local) {
    forall w :: multiset(l.pending)[w] + multiset(l.due)[w] == if Is(s, w, HeldBy(t)) then 1 else 0
  }

  ghost predicate Owns(s: State, t: Thread) { t.Awaiter? ==> t.id in s.waiters }

  ghost predicate Lives(s: State, w: nat) {
    w in s.place && s.place[w].HeldBy? ==> s.place[w].thread in s.locals
  }

  ghost predicate HoldsAt(s: State, t: Thread) { t in s.locals && Holds(s, t, s.locals[t]) }

  /** Every waiter occurs once in the list or thread its place names, and
      nowhere else. */
  ghost predicate Placed(s: State) {
    && Publisher in s.locals
    && s.place.Keys == s.waiters.Keys
    && (forall w :: w in s.waiters ==> Awaiter(w) in s.locals)
    && (forall t {:trigger Owns(s, t)} :: t in s.locals ==> Owns(s, t))
    && (forall w {:trigger Lives(s, w)} :: w in s.place ==> Lives(s, w))
    && ListHolds(s)
    && (forall t {:trigger HoldsAt(s, t)} :: t in s.locals ==> HoldsAt(s, t))
  }

  ghost predicate AllAtMost(s: State, ws: seq<nat>, v: int) {
    forall w :: w in ws ==> w in s.waiters && s.waiters[w].target <= v
  }

  ghost predicate AllAtLeast(s: State, ws: seq<nat>, v: int) {
    forall w :: w in ws ==> w in s.waiters && s.waiters[w].target >= v
  }

  /** What a thread at a program point knows of the published number and of the
      waiters it holds. */
  ghost predicate LocalOk(s: State, t: Thread, l: Local) {
    match l.at
    case Idle => t == Publisher && l.pending == [] && l.due == []
    case PubLoad(v) => t == Publisher && v == s.last && l.pending == [] && l.due == []
    case PubSwap(v) => t == Publisher && v == s.last && l.pending == [] && l.due == []
    case PubPush(v, _) =>
      t == Publisher && v == s.last && AllAtLeast(s, l.pending, v + 1) && AllAtMost(s, l.due, v)
    case AddLoad(min) => t.Awaiter? && AllAtLeast(s, l.pending, min) && AllAtMost(s, l.due, s.last)
    case AddPush(min, _) => t.Awaiter? && AllAtLeast(s, l.pending, min) && AllAtMost(s, l.due, s.last)
    case AddCheck(_) => t.Awaiter? && l.pending == [] && AllAtMost(s, l.due, s.last)
    case AddSwap(known) =>
      t.Awaiter? && l.pending == [] && known <= s.last && AllAtMost(s, l.due, known)
    case Wake(v) => l.pending == [] && v <= s.last && AllAtMost(s, l.due, v)
    case Finish => t.Awaiter? && l.pending == [] && l.due == []
    case Done => t.Awaiter? && l.pending == [] && l.due == []
  }

  /** A waiter's flag and counters follow from its place and from whether its
      own thread has finished `await_suspend`. */
  ghost predicate WaiterOk(last: int, x: Waiter, p: Place, over: bool) {
    && x.resumes == (if p == Resumed then 1 else 0)
    && x.runs == (if p == NeverQueued || (p == Resumed && over) then 1 else 0)
    && (p != NeverQueued ==> (x.ready <==> p == Resumed || over))
    && (p == Resumed || p == NeverQueued ==> x.target <= x.known <= last)
    && (p == NeverQueued ==> over)
  }

  /** A thread at `at` is still obliged to look at a listed waiter of this target. */
  predicate Covers(at: Point, target: int) {
    match at
    case PubLoad(_) => true
    case PubSwap(_) => true
    case AddCheck(min) => min <= target
    case AddSwap(_) => true
    case _ => false
  }

  predicate CoversAt(s: State, t: Thread, w: nat) {
    t in s.locals && w in s.waiters && Covers(s.locals[t].at, s.waiters[w].target)
  }

  /** No wakeup is lost: the waiter's number is not published yet, or some thread
      has still to look at it. */
  ghost predicate Covered(s: State, w: nat) {
    w in s.waiters && (s.waiters[w].target > s.last || exists t :: CoversAt(s, t, w))
  }

  ghost predicate InformedAt(s: State, t: Thread) { t in s.locals && LocalOk(s, t, s.locals[t]) }

  ghost predicate Informed(s: State) {
    forall t {:trigger InformedAt(s, t)} :: t in s.locals ==> InformedAt(s, t)
  }

  ghost predicate CountedAt(s: State, w: nat) {
    && w in s.waiters && w in s.place && Awaiter(w) in s.locals
    && WaiterOk(s.last, s.waiters[w], s.place[w], s.locals[Awaiter(w)].at == Done)
  }

  ghost predicate Counted(s: State) {
    forall w {:trigger CountedAt(s, w)} :: w in s.waiters ==> CountedAt(s, w)
  }

  ghost predicate AllCovered(s: State) {
    forall w {:trigger Covered(s, w)} :: w in s.list ==> Covered(s, w)
  }

  ghost predicate Inv(s: State) {
    Placed(s) && Informed(s) && Counted(s) && AllCovered(s)
  }

  ghost predicate Init(s: State) {
    && s.list == [] && s.waiters == map[] && s.place == map[]
    && s.locals == map[Publisher := Local(Idle, [], [])]
  }

  lemma InitInv(s: State)
    requires Init(s)
    ensures Inv(s)
  {
  }

  // ---------- preservation, one kind of step at a time ----------

  /** What a thread knows survives a later published value, unless the thread is
      the publisher itself. */
  lemma LocalOkStays(s: State, s': State, t: Thread, l: Local)
    requires LocalOk(s, t, l)
    requires forall w :: w in s.waiters ==> w in s'.waiters && s'.waiters[w].target == s.waiters[w].target
    requires s.last <= s'.last && (t == Publisher ==> s.last == s'.last)
    ensures LocalOk(s', t, l)
  {
  }

  lemma InformedStays(s: State, s': State, t: Thread)
    requires Informed(s)
    requires forall w :: w in s.waiters ==> w in s'.waiters && s'.waiters[w].target == s.waiters[w].target
    requires s.last <= s'.last && (t == Publisher || s.last == s'.last)
    requires t in s'.locals && LocalOk(s', t, s'.locals[t])
    requires forall u :: u in s'.locals && u != t ==> u in s.locals && s'.locals[u] == s.locals[u]
    ensures Informed(s')
  {
    forall u | u in s'.locals ensures InformedAt(s', u) {
      if u != t {
        assert InformedAt(s, u);
        LocalOkStays(s, s', u, s'.locals[u]);
      }
    }
  }

  /** Listed waiters stay covered when only thread `t` moves, if `t` itself keeps
      what it covered. */
  lemma CoveredStays(s: State, s': State, t: Thread)
    requires AllCovered(s) && s'.last == s.last
    requires forall w :: w in s.waiters ==> w in s'.waiters && s'.waiters[w].target == s.waiters[w].target
    requires forall u :: u in s.locals && u != t ==> u in s'.locals && s'.locals[u] == s.locals[u]
    requires forall w :: w in s'.list ==> w in s.list || Covered(s', w)
    requires forall w :: w in s'.list && CoversAt(s, t, w) ==> Covered(s', w)
    ensures AllCovered(s')
  {
    forall w | w in s'.list ensures Covered(s', w) {
      if w in s.list {
        assert Covered(s, w);
        if s.waiters[w].target <= s.last {
          var u :| CoversAt(s, u, w);
          if u != t { assert CoversAt(s', u, w); }
        }
      }
    }
  }

  lemma GotoPlaced(s: State, s': State)
    requires Placed(s)
    requires s'.list == s.list && s'.place == s.place && s'.waiters.Keys == s.waiters.Keys
    requires s'.locals.Keys == s.locals.Keys
    requires forall t :: t in s.locals ==>
               s'.locals[t].pending == s.locals[t].pending && s'.locals[t].due == s.locals[t].due
    ensures Placed(s')
  {
    assert ListHolds(s');
    forall t | t in s'.locals ensures HoldsAt(s', t) && Owns(s', t) {
      assert HoldsAt(s, t) && Owns(s, t);
    }
    forall w | w in s'.place ensures Lives(s', w) {
      assert Lives(s, w);
    }
  }

  /** Counters and flags stay right when no waiter is resumed or finished. */
  lemma CountedStays(s: State, s': State)
    requires Counted(s) && s.last <= s'.last && s'.waiters == s.waiters
    requires s'.place.Keys == s.place.Keys
    requires forall w :: w in s.place && s'.place[w] != s.place[w] ==>
               s.place[w] != Resumed && s.place[w] != NeverQueued &&
               s'.place[w] != Resumed && s'.place[w] != NeverQueued
    requires forall t :: t in s.locals ==>
               t in s'.locals && (s'.locals[t].at == Done <==> s.locals[t].at == Done)
    ensures Counted(s')
  {
    forall w | w in s'.waiters ensures CountedAt(s', w) {
      assert CountedAt(s, w);
    }
  }

  /** A thread moves on, holding the same waiters. */
  lemma GotoPreserves(s: State, t: Thread, at: Point)
    requires Inv(s) && t in s.locals && LocalOk(s, t, s.locals[t].(at := at))
    requires s.locals[t].at != Done && at != Done
    requires forall w :: w in s.list && CoversAt(s, t, w) ==>
               s.waiters[w].target > s.last || Covers(at, s.waiters[w].target)
    ensures Inv(Goto(s, t, at))
  {
    var s' := Goto(s, t, at);
    GotoPlaced(s, s');
    InformedStays(s, s', t);
    CountedStays(s, s');
    forall w | w in s'.list && CoversAt(s, t, w) ensures Covered(s', w) {
      if s.waiters[w].target <= s.last { assert CoversAt(s', t, w); }
    }
    CoveredStays(s, s', t);
  }

  lemma StorePreserves(s: State, v: int)
    requires Inv(s) && Enabled(s, Publish(v))
    ensures Inv(Goto(s, Publisher, PubLoad(v)).(last := v))
  {
    var s' := Goto(s, Publisher, PubLoad(v)).(last := v);
    assert InformedAt(s, Publisher);
    GotoPlaced(s, s');
    InformedStays(s, s', Publisher);
    CountedStays(s, s');
    forall w | w in s'.list ensures Covered(s', w) {
      assert Covered(s, w) && CoversAt(s', Publisher, w);
    }
  }

  lemma ListMembers(s: State)
    requires Placed(s)
    ensures forall w :: w in s.list <==> Is(s, w, Listed)
    ensures forall w :: w in s.list ==> w in s.waiters
  {
    forall w ensures w in s.list <==> Is(s, w, Listed) {
      assert w in s.list <==> multiset(s.list)[w] > 0;
    }
  }

  lemma HeldMembers(s: State, t: Thread)
    requires Placed(s) && t in s.locals
    ensures forall w :: w in s.locals[t].pending ==> Is(s, w, HeldBy(t)) && w in s.waiters
    ensures forall w :: w in s.locals[t].due ==> Is(s, w, HeldBy(t)) && w in s.waiters
  {
    var l := s.locals[t];
    assert HoldsAt(s, t);
    forall w | w in l.pending || w in l.due ensures Is(s, w, HeldBy(t)) {
      assert multiset(l.pending)[w] + multiset(l.due)[w] > 0;
    }
  }

  lemma SplitFacts(s: State, v: int)
    requires Placed(s)
    ensures multiset(Pending(s, s.list, v)) + multiset(Due(s, s.list, v)) == multiset(s.list)
    ensures AllAtLeast(s, Pending(s, s.list, v), v + 1) && AllAtMost(s, Due(s, s.list, v), v)
  {
    ListMembers(s);
    KeepPartitions(s.list, set w | w in s.waiters && s.waiters[w].target > v,
                   set w | w in s.waiters && s.waiters[w].target <= v);
  }

  lemma MovePlaced(s: State, s': State, t: Thread, ws: seq<nat>, p: Place)
    requires Placed(s) && t in s.locals && s'.locals.Keys == s.locals.Keys
    requires s'.place == Move(s.place, ws, p) && s'.waiters.Keys == s.waiters.Keys
    requires p.HeldBy? ==> p.thread == t
    requires forall w :: w in ws ==> Is(s, w, Listed) || Is(s, w, HeldBy(t))
    requires forall u :: u in s.locals && u != t ==> s'.locals[u] == s.locals[u]
    requires ListHolds(s') && Holds(s', t, s'.locals[t])
    ensures Placed(s')
  {
    forall u | u in s'.locals ensures HoldsAt(s', u) && Owns(s', u) {
      assert HoldsAt(s, u) && Owns(s, u);
      if u != t {
        assert forall w :: Is(s', w, HeldBy(u)) <==> Is(s, w, HeldBy(u));
      }
    }
    forall w | w in s'.place ensures Lives(s', w) {
      assert Lives(s, w);
    }
  }

  lemma StealPlaced(s: State, t: Thread, l: Local)
    requires Placed(s) && t in s.locals && s.locals[t].pending == []
    requires multiset(l.pending) + multiset(l.due) == multiset(s.locals[t].due) + multiset(s.list)
    ensures Placed(Steal(s, t, l))
  {
    var s' := Steal(s, t, l);
    ListMembers(s);
    assert HoldsAt(s, t);
    assert ListHolds(s') by {
      assert multiset(s'.list) == multiset{};
    }
    forall w ensures multiset(l.pending)[w] + multiset(l.due)[w] == if Is(s', w, HeldBy(t)) then 1 else 0 {
      assert (multiset(l.pending) + multiset(l.due))[w] == multiset(s.locals[t].due)[w] + multiset(s.list)[w];
    }
    MovePlaced(s, s', t, s.list, HeldBy(t));
  }

  lemma StealPreserves(s: State, t: Thread, l: Local)
    requires Inv(s) && t in s.locals && s.locals[t].pending == []
    requires s.locals[t].at != Done && l.at != Done && LocalOk(s, t, l)
    requires multiset(l.pending) + multiset(l.due) == multiset(s.locals[t].due) + multiset(s.list)
    ensures Inv(Steal(s, t, l))
  {
    StealPlaced(s, t, l);
    StealInformed(s, t, l);
    StealCounted(s, t, l);
  }

  lemma StealInformed(s: State, t: Thread, l: Local)
    requires Informed(s) && t in s.locals && LocalOk(s, t, l)
    ensures Informed(Steal(s, t, l))
  {
    var s' := Steal(s, t, l);
    LocalOkStays(s, s', t, l);
    InformedStays(s, s', t);
  }

  lemma StealCounted(s: State, t: Thread, l: Local)
    requires Placed(s) && Counted(s) && t in s.locals && s.locals[t].at != Done && l.at != Done
    ensures Counted(Steal(s, t, l))
  {
    ListMembers(s);
    CountedStays(s, Steal(s, t, l));
  }

  lemma PushBackPlaced(s: State, t: Thread, next: Point)
    requires Placed(s) && t in s.locals
    ensures Placed(PushBack(s, t, next))
  {
    var s', l := PushBack(s, t, next), s.locals[t];
    HeldMembers(s, t);
    assert HoldsAt(s, t);
    forall w ensures multiset(s'.list)[w] == if Is(s', w, Listed) then 1 else 0 {
      assert multiset(s'.list) == multiset(l.pending) + multiset(s.list);
      assert w in l.pending <==> multiset(l.pending)[w] > 0;
    }
    forall w ensures multiset(l.due)[w] == if Is(s', w, HeldBy(t)) then 1 else 0 {
      assert w in l.pending <==> multiset(l.pending)[w] > 0;
    }
    MovePlaced(s, s', t, l.pending, Listed);
  }

  lemma PushBackInformed(s: State, t: Thread, next: Point)
    requires Informed(s) && t in s.locals
    requires (s.locals[t].at.PubPush? && next == Wake(s.locals[t].at.value)) ||
             (s.locals[t].at.AddPush? && next == AddCheck(s.locals[t].at.min))
    ensures Informed(PushBack(s, t, next))
  {
    assert InformedAt(s, t);
    InformedStays(s, PushBack(s, t, next), t);
  }

  /** A publisher pushes back only waiters beyond what is published, and an adder
      has still to compare the published number with its least target. */
  lemma PushBackCovered(s: State, t: Thread, next: Point)
    requires Informed(s) && AllCovered(s) && t in s.locals
    requires (s.locals[t].at.PubPush? && next == Wake(s.locals[t].at.value)) ||
             (s.locals[t].at.AddPush? && next == AddCheck(s.locals[t].at.min))
    ensures AllCovered(PushBack(s, t, next))
  {
    var s', l := PushBack(s, t, next), s.locals[t];
    assert InformedAt(s, t);
    forall w | w in l.pending ensures Covered(s', w) {
      if l.at.AddPush? { assert CoversAt(s', t, w); }
    }
    CoveredStays(s, s', t);
  }

  lemma PushBackPreserves(s: State, t: Thread, next: Point)
    requires Inv(s) && t in s.locals
    requires (s.locals[t].at.PubPush? && next == Wake(s.locals[t].at.value)) ||
             (s.locals[t].at.AddPush? && next == AddCheck(s.locals[t].at.min))
    ensures Inv(PushBack(s, t, next))
  {
    var s', l := PushBack(s, t, next), s.locals[t];
    PushBackPlaced(s, t, next);
    PushBackInformed(s, t, next);
    HeldMembers(s, t);
    CountedStays(s, s');
    PushBackCovered(s, t, next);
  }

  lemma ResumePlaced(s: State, t: Thread, v: int)
    requires Placed(s) && t in s.locals && s.locals[t].due != [] && s.locals[t].pending == []
    requires s.locals[t].due[0] in s.waiters
    ensures Placed(ResumeNext(s, t, v))
  {
    var s', due := ResumeNext(s, t, v), s.locals[t].due;
    HeldMembers(s, t);
    TailHolds(s, s', t, s.locals[t], s'.locals[t]);
    assert due[0] in due;
    MovePlaced(s, s', t, [due[0]], Resumed);
  }

  lemma TailHolds(s: State, s': State, t: Thread, l: Local, l': Local)
    requires Placed(s) && t in s.locals && l == s.locals[t] && l.due != []
    requires l'.pending == l.pending == [] && l'.due == l.due[1..]
    requires s'.place == Move(s.place, [l.due[0]], Resumed)
    ensures Holds(s', t, l')
  {
    assert HoldsAt(s, t);
    assert l.due == [l.due[0]] + l.due[1..];
    assert multiset(l.due) == multiset{l.due[0]} + multiset(l.due[1..]);
  }

  lemma ResumePreserves(s: State, t: Thread)
    requires Inv(s) && t in s.locals && s.locals[t].at.Wake? && s.locals[t].due != []
    requires s.locals[t].due[0] in s.waiters
    ensures Inv(ResumeNext(s, t, s.locals[t].at.value))
  {
    assert InformedAt(s, t);
    ResumePlaced(s, t, s.locals[t].at.value);
    ResumeInformed(s, t);
    ResumeCounted(s, t);
    ResumeCovered(s, t);
  }

  lemma ResumeCovered(s: State, t: Thread)
    requires AllCovered(s) && t in s.locals && s.locals[t].at.Wake? && s.locals[t].due != []
    requires s.locals[t].due[0] in s.waiters
    ensures AllCovered(ResumeNext(s, t, s.locals[t].at.value))
  {
    CoveredStays(s, ResumeNext(s, t, s.locals[t].at.value), t);
  }

  lemma ResumeInformed(s: State, t: Thread)
    requires Informed(s) && t in s.locals && s.locals[t].at.Wake? && s.locals[t].due != []
    requires s.locals[t].due[0] in s.waiters
    ensures Informed(ResumeNext(s, t, s.locals[t].at.value))
  {
    assert InformedAt(s, t);
    InformedStays(s, ResumeNext(s, t, s.locals[t].at.value), t);
  }

  lemma ResumeCounted(s: State, t: Thread)
    requires Placed(s) && Informed(s) && Counted(s) && t in s.locals && s.locals[t].at.Wake? && s.locals[t].due != []
    requires s.locals[t].due[0] in s.waiters
    ensures Counted(ResumeNext(s, t, s.locals[t].at.value))
  {
    var s' := ResumeNext(s, t, s.locals[t].at.value);
    assert InformedAt(s, t);
    HeldMembers(s, t);
    forall u | u in s'.waiters ensures CountedAt(s', u) {
      assert CountedAt(s, u);
    }
  }

  lemma FinishPreserves(s: State, t: Thread)
    requires Inv(s) && t in s.locals && s.locals[t].at == Finish && t.Awaiter? && t.id in s.waiters
    ensures Inv(FinishAwait(s, t))
  {
    var s' := FinishAwait(s, t);
    assert InformedAt(s, t);
    GotoPlaced(s, s');
    InformedStays(s, s', t);
    forall u | u in s'.waiters ensures CountedAt(s', u) {
      assert CountedAt(s, u);
    }
    CoveredStays(s, s', t);
  }

  lemma BeginPlaced(s: State, w: nat, target: int)
    requires Placed(s) && Enabled(s, Await(w, target))
    ensures Placed(Begin(s, w, target))
  {
    var s' := Begin(s, w, target);
    ListMembers(s);
    assert ListHolds(s');
    NewHolds(s, w, target);
    forall u | u in s'.locals ensures HoldsAt(s', u) && Owns(s', u) {
      if u != Awaiter(w) {
        assert HoldsAt(s, u) && Owns(s, u);
        OldHolds(s, w, target, u);
      }
    }
    forall x | x in s'.place ensures Lives(s', x) {
      if x != w { assert Lives(s, x); }
    }
  }

  lemma OldHolds(s: State, w: nat, target: int, u: Thread)
    requires HoldsAt(s, u) && Owns(s, u) && Enabled(s, Await(w, target)) && u in s.locals
    ensures HoldsAt(Begin(s, w, target), u) && Owns(Begin(s, w, target), u)
  {
  }

  lemma NewHolds(s: State, w: nat, target: int)
    requires Placed(s) && Enabled(s, Await(w, target))
    ensures HoldsAt(Begin(s, w, target), Awaiter(w))
  {
    forall x | x in s.place ensures s.place[x] != HeldBy(Awaiter(w)) {
      assert Lives(s, x);
    }
  }

  lemma BeginPreserves(s: State, w: nat, target: int)
    requires Inv(s) && Enabled(s, Await(w, target))
    ensures Inv(Begin(s, w, target))
  {
    var s' := Begin(s, w, target);
    BeginPlaced(s, w, target);
    InformedStays(s, s', Awaiter(w));
    BeginCounted(s, w, target);
    CoveredStays(s, s', Awaiter(w));
  }

  lemma BeginCounted(s: State, w: nat, target: int)
    requires Counted(s) && Enabled(s, Await(w, target))
    ensures Counted(Begin(s, w, target))
  {
    var s' := Begin(s, w, target);
    forall u | u in s'.waiters ensures CountedAt(s', u) {
      if u != w { assert CountedAt(s, u); }
    }
  }

  lemma StepPreserves(s: State, step: Step)
    requires Inv(s) && Enabled(s, step)
    ensures Inv(Apply(s, step))
  {
    match step
    case Publish(v) => StorePreserves(s, v);
    case Await(w, target) => BeginPreserves(s, w, target);
    case Advance(t) => AdvancePreserves(s, t);
  }

  lemma PublisherStealsPreserves(s: State, t: Thread, v: int)
    requires Inv(s) && t in s.locals && s.locals[t].at == PubSwap(v)
    ensures Inv(PublisherSteals(s, t, v))
  {
    assert InformedAt(s, t);
    if s.list == [] {
      GotoPreserves(s, t, Idle);
    } else {
      SplitFacts(s, v);
      StealPreserves(s, t, PublisherSteals(s, t, v).locals[t]);
    }
  }

  lemma AdderStealsPreserves(s: State, t: Thread, known: int)
    requires Inv(s) && t in s.locals && s.locals[t].at == AddSwap(known)
    requires forall w :: w in s.list ==> w in s.waiters
    ensures Inv(AdderSteals(s, t, known))
  {
    AdderSplitOk(s, t, known);
    StealPreserves(s, t, AdderSplit(s, t, known));
  }

  lemma AdderSplitOk(s: State, t: Thread, known: int)
    requires Placed(s) && Informed(s) && t in s.locals && s.locals[t].at == AddSwap(known)
    requires forall w :: w in s.list ==> w in s.waiters
    ensures var l := AdderSplit(s, t, known);
            && LocalOk(s, t, l) && s.locals[t].pending == []
            && multiset(l.pending) + multiset(l.due) == multiset(s.locals[t].due) + multiset(s.list)
  {
    assert InformedAt(s, t);
    SplitFacts(s, known);
  }

  lemma AdvancePreserves(s: State, t: Thread)
    requires Inv(s) && Enabled(s, Advance(t))
    ensures Inv(Apply(s, Advance(t)))
  {
    match s.locals[t].at
    case PubLoad(v) => PublisherMoves(s, t);
    case PubSwap(v) => PublisherStealsPreserves(s, t, v);
    case PubPush(v, expected) => PublisherMoves(s, t);
    case AddLoad(_) => AdderMoves(s, t);
    case AddPush(_, _) => AdderMoves(s, t);
    case AddCheck(_) => AdderMoves(s, t);
    case AddSwap(known) => AdderStealsPreserves(s, t, known);
    case Wake(v) =>
      if s.locals[t].due == [] {
        assert InformedAt(s, t);
        GotoPreserves(s, t, if t == Publisher then Idle else Finish);
      } else {
        ResumePreserves(s, t);
      }
    case Finish => FinishPreserves(s, t);
  }

  lemma PublisherMoves(s: State, t: Thread)
    requires Inv(s) && Enabled(s, Advance(t)) && (s.locals[t].at.PubLoad? || s.locals[t].at.PubPush?)
    ensures Inv(Apply(s, Advance(t)))
  {
    assert InformedAt(s, t);
    match s.locals[t].at
    case PubLoad(v) => GotoPreserves(s, t, if s.list == [] then Idle else PubSwap(v));
    case PubPush(v, expected) =>
      if expected == Head(s.list) { PushBackPreserves(s, t, Wake(v)); }
      else { GotoPreserves(s, t, PubPush(v, Head(s.list))); }
  }

  lemma AdderMoves(s: State, t: Thread)
    requires Inv(s) && Enabled(s, Advance(t))
    requires s.locals[t].at.AddLoad? || s.locals[t].at.AddPush? || s.locals[t].at.AddCheck?
    ensures Inv(Apply(s, Advance(t)))
  {
    assert InformedAt(s, t);
    match s.locals[t].at
    case AddLoad(min) => GotoPreserves(s, t, AddPush(min, Head(s.list)));
    case AddPush(min, expected) =>
      if expected == Head(s.list) { PushBackPreserves(s, t, AddCheck(min)); }
      else { GotoPreserves(s, t, AddPush(min, Head(s.list))); }
    case AddCheck(min) =>
      GotoPreserves(s, t, if s.last < min then Wake(s.last) else AddSwap(s.last));
  }
}
