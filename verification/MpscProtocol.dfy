/** Waiting for published numbers in the multi-producer sequencer, as an
    interleaving of atomic accesses: any number of producers, one consumer, and
    the waiter list `m_awaiters`, on top of the ring-buffer protocol.

    There is one consumer, so at most one wait operation is in flight, and the
    list is empty or holds just that one. The consumer publishes to its barrier
    only while it is not waiting, and never beyond what it knows is published. */
module MpscProtocol {
  import opened Lists
  import R = Ring
  import opened RingResults

  /** The wait operation in flight, or the last one. */
  datatype Wait = Wait(id: nat, target: int, known: int, ready: bool)

  /** A producer thread: in user code, or in `resume_ready_awaiters`. */
  datatype Producer =
    | User
    | Load
    | Swap
    | Scan(known: int)
    | Push(known: int)
    | Check(id: nat, known: int, earliest: int)
    | Reswap
    | Resume(known: int)

  /** The consumer: running, or in `add_awaiter` and `await_suspend`, or asleep. */
  datatype Consumer =
    | Running
    | AddPush
    | AddScan(known: int)
    | AddSwap(known: int)
    | AddResume(known: int)
    | Finish
    | Suspended

  /** Where the wait operation is: auxiliary, never read by a step. */
  datatype Place = NoWait | Listed | HeldBy(thread: nat) | HeldByConsumer | Resumed

  /** A continuation of the consumer: what it waited for and what it was told. */
  datatype Woken = Woken(target: int, value: int)

  datatype State = State(
    ring: R.State,
    list: Option<nat>,        // the chain from m_awaiters
    wait: Wait,
    place: Place,
    threads: map<nat, Producer>,
    consumer: Consumer,
    begun: nat,               // wait operations that suspended, or tried to
    log: seq<Woken>)          // continuations, one for each

  datatype Step =
    | Claim(id: nat, count: nat)
    | Grant(id: nat)
    | Spawn(t: nat)
    | StoreTail(t: nat, id: nat, x: int)
    | StoreLast(t: nat, id: nat, x: int)
    | Produce(t: nat)
    | BeginWait(target: int, known: int)
    | Await
    | Learn(v: int)
    | Consume(v: int)

  predicate Reads(s: State, x: int)
    requires s.ring.size > 0 && |s.ring.slots| == s.ring.size
  {
    s.ring.slots[R.SlotOf(s.ring.size, x)] == x
  }

  predicate Enabled(s: State, step: Step) {
    match step
    case Claim(p, count) => R.Enabled(s.ring, R.ClaimUpTo(p, count))
    case Grant(p) => R.Enabled(s.ring, R.Grant(p))
    case Spawn(t) => t !in s.threads
    case StoreTail(t, p, x) =>
      && t in s.threads && s.threads[t] == User && R.Enabled(s.ring, R.Store(p, x))
      && s.ring.claims[p].first < x && s.ring.claims[p].first !in s.ring.published
    case StoreLast(t, p, x) => t in s.threads && s.threads[t] == User && R.Enabled(s.ring, R.Store(p, x))
    case Produce(t) => t in s.threads && s.threads[t] != User
    case BeginWait(target, known) => s.consumer == Running && s.ring.consumed <= known <= s.ring.known
    case Await => s.consumer != Running && s.consumer != Suspended
    case Learn(v) => s.consumer == Running && R.Enabled(s.ring, R.Learn(v))
    case Consume(v) => s.consumer == Running && R.Enabled(s.ring, R.Consume(v))
  }

  function Goto(s: State, t: nat, at: Producer): State { s.(threads := s.threads[t := at]) }

  function Apply(s: State, step: Step): State
    requires s.ring.size > 0 && |s.ring.slots| == s.ring.size && Enabled(s, step)
  {
    match step
    case Claim(p, count) => s.(ring := R.Apply(s.ring, R.ClaimUpTo(p, count)))
    case Grant(p) => s.(ring := R.Apply(s.ring, R.Grant(p)))
    case Spawn(t) => Goto(s, t, User)
    case StoreTail(t, p, x) => s.(ring := R.Apply(s.ring, R.Store(p, x)))
    case StoreLast(t, p, x) => Goto(s, t, Load).(ring := R.Apply(s.ring, R.Store(p, x)))
    case Produce(t) => Advance(s, t)
    case BeginWait(target, known) =>
      if target <= known then s
      else s.(wait := Wait(s.begun, target, known, false), begun := s.begun + 1,
              consumer := AddPush, place := HeldByConsumer)
    case Await => ConsumerAdvance(s)
    case Learn(v) => s.(ring := R.Apply(s.ring, R.Learn(v)))
    case Consume(v) => s.(ring := R.Apply(s.ring, R.Consume(v)))
  }

  /** One access of `resume_ready_awaiters`. */
  function Advance(s: State, t: nat): State
    requires s.ring.size > 0 && |s.ring.slots| == s.ring.size && t in s.threads && s.threads[t] != User
  {
    match s.threads[t]
    case Load => Goto(s, t, if s.list == None then User else Swap)
    case Swap => Take(s, t)
    case Scan(k) =>
      if Reads(s, k + 1) then Goto(s, t, Scan(k + 1))
      else Goto(s, t, if s.wait.target <= k then Resume(k) else Push(k)).(wait := s.wait.(known := k))
    case Push(k) =>
      Goto(s, t, Check(s.wait.id, k, s.wait.target)).(list := Some(s.wait.id), place := Listed)
    case Check(id, k, earliest) =>
      if !Reads(s, k + 1) then Goto(s, t, User)
      else if k + 1 == earliest then Goto(s, t, Reswap)
      else Goto(s, t, Check(id, k + 1, earliest))
    case Reswap => Take(s, t)
    case Resume(k) => ResumeWait(Goto(s, t, User), k)
  }

  /** The exchange that takes the list. */
  function Take(s: State, t: nat): State {
    if s.list == None then Goto(s, t, User)
    else Goto(s, t, Scan(s.wait.known)).(list := None, place := HeldBy(t))
  }

  function LearnUpTo(r: R.State, v: int): R.State { if r.known < v then r.(known := v) else r }

  /** The coroutine goes on, with its last known number. */
  function Continue(s: State): State {
    s.(consumer := Running, place := NoWait, log := s.log + [Woken(s.wait.target, s.wait.known)],
       ring := LearnUpTo(s.ring, s.wait.known))
  }

  /** `resume(k)`: the second of the two exchanges on the flag continues. */
  function ResumeWait(s: State, k: int): State {
    var s1 := s.(wait := s.wait.(known := k, ready := true), place := Resumed);
    if s.wait.ready then Continue(s1) else s1
  }

  /** One access of the consumer's `add_awaiter` and `await_suspend`. */
  function ConsumerAdvance(s: State): State
    requires s.ring.size > 0 && |s.ring.slots| == s.ring.size
    requires s.consumer != Running && s.consumer != Suspended
  {
    match s.consumer
    case AddPush => s.(list := Some(s.wait.id), place := Listed, consumer := AddScan(s.wait.known))
    case AddScan(k) =>
      if Reads(s, k + 1) then s.(consumer := AddScan(k + 1))
      else s.(consumer := if k < s.wait.target then Finish else AddSwap(k))
    case AddSwap(k) =>
      if s.list == None then s.(consumer := Finish)
      else s.(consumer := AddResume(k), list := None, place := HeldByConsumer)
    case AddResume(k) => ResumeWait(s, k).(consumer := Finish)
    case Finish =>
      if s.wait.ready then Continue(s) else s.(wait := s.wait.(ready := true), consumer := Suspended)
  }

  // ---------- the invariant ----------

  /** Everything up to `v` is published. */
  ghost predicate UpTo(r: R.State, v: int) {
    r.initial <= v && forall x :: r.initial < x <= v ==> x in r.published
  }

  /** What the wait operation's fields and places say about each other. */
  ghost predicate WaitOk(s: State) {
    && (s.consumer == Running <==> s.place == NoWait)
    && (s.place == Listed <==> s.list == Some(s.wait.id))
    && (s.list != None ==> s.place == Listed)
    && (s.place == HeldByConsumer <==> s.consumer == AddPush || s.consumer.AddResume?)
    && (s.place.HeldBy? ==> s.place.thread in s.threads)
    && (s.place == Resumed ==> s.wait.target <= s.wait.known)
    && (s.consumer != Running ==>
          && s.begun == s.wait.id + 1 && |s.log| == s.wait.id
          && s.ring.consumed <= s.wait.known && UpTo(s.ring, s.wait.known)
          && (s.wait.ready <==> s.place == Resumed || s.consumer == Suspended)
          && (s.consumer == Suspended ==> s.place != Resumed))
    && (s.consumer == Running ==> |s.log| == s.begun)
  }

  ghost predicate LogOk(s: State) {
    forall i :: 0 <= i < |s.log| ==> s.log[i].target <= s.log[i].value <= s.ring.known
  }

  ghost predicate ConsumerOk(s: State) {
    match s.consumer
    case AddScan(k) => s.ring.consumed <= k && UpTo(s.ring, k)
    case AddSwap(k) => s.ring.consumed <= k && UpTo(s.ring, k) && s.wait.target <= k
    case AddResume(k) => s.ring.consumed <= k && UpTo(s.ring, k) && s.wait.target <= k
    case _ => true
  }

  predicate Holding(at: Producer) { at.Scan? || at.Push? || at.Resume? }

  /** What a producer at a program point knows. */
  ghost predicate ProducerOk(s: State, t: nat, at: Producer) {
    && (Holding(at) <==> s.place == HeldBy(t))
    && match at
       case Scan(k) => s.wait.known <= k && UpTo(s.ring, k)
       case Push(k) => k == s.wait.known && k < s.wait.target
       case Resume(k) => s.wait.known <= k && UpTo(s.ring, k) && s.wait.target <= k
       case Check(id, k, earliest) =>
         && id < s.begun && k < earliest && UpTo(s.ring, k)
         && (s.consumer != Running && id == s.wait.id ==>
               earliest == s.wait.target && s.ring.consumed <= k)
       case _ => true
  }

  ghost predicate ProducerAt(s: State, t: nat) { t in s.threads && ProducerOk(s, t, s.threads[t]) }

  ghost predicate Producers(s: State) {
    forall t {:trigger ProducerAt(s, t)} :: t in s.threads ==> ProducerAt(s, t)
  }

  /** A thread that will still look at the listed waiter. */
  predicate Obliged(s: State, t: nat) {
    t in s.threads &&
    match s.threads[t]
    case Load => true
    case Swap => true
    case Reswap => true
    case Check(id, _, _) => id == s.wait.id
    case _ => false
  }

  ghost predicate Missing(s: State, x: int) { s.wait.known < x <= s.wait.target && x !in s.ring.published }

  /** The listed waiter lacks a number, or somebody will look at it. */
  ghost predicate Covered(s: State) {
    || (exists x :: Missing(s, x))
    || (exists t :: Obliged(s, t))
    || s.consumer.AddScan? || s.consumer.AddSwap?
  }

  ghost predicate Inv(s: State) {
    && R.Inv(s.ring) && WaitOk(s) && LogOk(s) && ConsumerOk(s) && Producers(s)
    && (s.list != None ==> Covered(s))
  }

  ghost predicate Init(s: State) {
    && R.Init(s.ring) && s.list == None && s.place == NoWait && s.threads == map[]
    && s.consumer == Running && s.begun == 0 && s.log == []
  }

  lemma InitInv(s: State)
    requires Init(s)
    ensures Inv(s)
  {
    R.InitInv(s.ring);
  }

  // ---------- steps of the ring ----------

  /** What the wait operations see of the ring only grows while they wait. */
  ghost predicate RingGrows(s: State, r: R.State) {
    && R.Inv(r) && r.initial == s.ring.initial && s.ring.published <= r.published
    && s.ring.known <= r.known && (s.consumer != Running ==> r.consumed == s.ring.consumed)
  }

  lemma UpToGrows(r: R.State, r': R.State, v: int)
    requires UpTo(r, v) && r'.initial == r.initial && r.published <= r'.published
    ensures UpTo(r', v)
  {
  }

  /** A step of the ring leaves alone all but the argument that the listed waiter
      is covered. */
  lemma RingStepKeeps(s: State, r: R.State)
    requires Inv(s) && RingGrows(s, r)
    ensures var s' := s.(ring := r); WaitOk(s') && LogOk(s') && ConsumerOk(s') && Producers(s')
  {
    var s' := s.(ring := r);
    if s.consumer != Running { UpToGrows(s.ring, r, s.wait.known); }
    RingStepKeepsConsumer(s, r);
    forall t | t in s'.threads ensures ProducerAt(s', t) {
      assert ProducerAt(s, t);
      RingStepKeepsProducer(s, r, t);
    }
  }

  lemma RingStepKeepsConsumer(s: State, r: R.State)
    requires ConsumerOk(s) && RingGrows(s, r)
    ensures ConsumerOk(s.(ring := r))
  {
    match s.consumer
    case AddScan(k) => UpToGrows(s.ring, r, k);
    case AddSwap(k) => UpToGrows(s.ring, r, k);
    case AddResume(k) => UpToGrows(s.ring, r, k);
    case _ =>
  }

  lemma RingStepKeepsProducer(s: State, r: R.State, t: nat)
    requires ProducerAt(s, t) && RingGrows(s, r)
    ensures ProducerAt(s.(ring := r), t)
  {
    match s.threads[t]
    case Scan(k) => UpToGrows(s.ring, r, k);
    case Resume(k) => UpToGrows(s.ring, r, k);
    case Check(_, k, _) => UpToGrows(s.ring, r, k);
    case _ =>
  }

  /** With nothing stored the same number stays missing. */
  lemma QuietRingPreserves(s: State, r: R.State)
    requires Inv(s) && RingGrows(s, r) && (s.consumer != Running ==> r.published == s.ring.published)
    ensures Inv(s.(ring := r))
  {
    var s' := s.(ring := r);
    RingStepKeeps(s, r);
    if s.list != None {
      if x :| Missing(s, x) {
        assert Missing(s', x);
      } else if t :| Obliged(s, t) {
        assert Obliged(s', t);
      }
    }
  }

  lemma FirstIsInitial(r: R.State, p: nat, x: int)
    requires R.Inv(r) && p in r.claims && r.claims[p].Has(x)
    ensures r.initial < r.claims[p].first < r.next
  {
    assert R.Claimed(r.initial, r.order, r.claims[p].first) by { assert r.claims[p].Has(r.claims[p].first); }
  }

  /** A number behind an unpublished first one is not the last that the waiter
      lacks. */
  lemma StoreTailPreserves(s: State, t: nat, p: nat, x: int)
    requires Inv(s) && Enabled(s, StoreTail(t, p, x))
    ensures Inv(Apply(s, StoreTail(t, p, x)))
  {
    var s' := Apply(s, StoreTail(t, p, x));
    R.StorePreserves(s.ring, p, x);
    RingStepKeeps(s, s'.ring);
    if s.list != None {
      if y :| Missing(s, y) {
        if y == x {
          FirstIsInitial(s.ring, p, x);
          assert Missing(s', s.ring.claims[p].first);
        } else {
          assert Missing(s', y);
        }
      } else if u :| Obliged(s, u) {
        assert Obliged(s', u);
      }
    }
  }

  /** Other threads' facts survive when one moves between points that do not hold
      the waiter. */
  lemma GotoKeeps(s: State, t: nat, at: Producer)
    requires WaitOk(s) && LogOk(s) && ConsumerOk(s) && Producers(s)
    requires ProducerOk(s, t, at) && (t in s.threads || s.place != HeldBy(t))
    ensures var s' := Goto(s, t, at); WaitOk(s') && LogOk(s') && ConsumerOk(s') && Producers(s')
  {
    var s' := Goto(s, t, at);
    forall u | u in s'.threads ensures ProducerAt(s', u) {
      if u != t { assert ProducerAt(s, u); }
    }
  }

  lemma StoreLastPreserves(s: State, t: nat, p: nat, x: int)
    requires Inv(s) && Enabled(s, StoreLast(t, p, x))
    ensures Inv(Apply(s, StoreLast(t, p, x)))
  {
    var r := R.Apply(s.ring, R.Store(p, x));
    R.StorePreserves(s.ring, p, x);
    RingStepKeeps(s, r);
    assert ProducerAt(s, t);
    GotoKeeps(s.(ring := r), t, Load);
    var s' := Apply(s, StoreLast(t, p, x));
    assert s' == Goto(s.(ring := r), t, Load);
    assert Obliged(s', t);
  }

  // ---------- steps of a producer ----------

  /** When one thread moves, another that is obliged stays obliged. */
  lemma CoverMoves(s: State, s': State, t: nat)
    requires Covered(s) && s'.ring == s.ring && s'.wait == s.wait && s'.consumer == s.consumer
    requires forall u :: u != t && u in s.threads ==> u in s'.threads && s'.threads[u] == s.threads[u]
    requires Obliged(s, t) ==> Obliged(s', t) || exists x :: Missing(s, x)
    ensures Covered(s')
  {
    if x :| Missing(s, x) {
      assert Missing(s', x);
    } else if u :| Obliged(s, u) {
      assert Obliged(s', u);
    }
  }

  lemma SpawnPreserves(s: State, t: nat)
    requires Inv(s) && t !in s.threads
    ensures Inv(Goto(s, t, User))
  {
    GotoKeeps(s, t, User);
    if s.list != None { CoverMoves(s, Goto(s, t, User), t); }
  }

  lemma LoadPreserves(s: State, t: nat)
    requires Inv(s) && t in s.threads && s.threads[t] == Load
    ensures Inv(Advance(s, t))
  {
    assert ProducerAt(s, t);
    var at := if s.list == None then User else Swap;
    GotoKeeps(s, t, at);
    if s.list != None { assert Obliged(Goto(s, t, at), t); }
  }

  lemma TakePreserves(s: State, t: nat)
    requires Inv(s) && t in s.threads && (s.threads[t] == Swap || s.threads[t] == Reswap)
    ensures Inv(Take(s, t))
  {
    assert ProducerAt(s, t);
    if s.list == None {
      GotoKeeps(s, t, User);
    } else {
      var s' := Take(s, t);
      forall u | u in s'.threads ensures ProducerAt(s', u) {
        assert ProducerAt(s, u);
      }
    }
  }

  lemma ReadExtends(r: R.State, k: int)
    requires R.Inv(r) && UpTo(r, k) && r.slots[R.SlotOf(r.size, k + 1)] == k + 1
    ensures UpTo(r, k + 1)
  {
    ReadMeansPublished(r, k + 1);
  }

  /** A match in the scan of a held list, which only moves the scan on. */
  lemma ScanOnPreserves(s: State, t: nat, k: int)
    requires Inv(s) && t in s.threads && s.threads[t] == Scan(k) && Reads(s, k + 1)
    ensures Inv(Goto(s, t, Scan(k + 1)))
  {
    assert ProducerAt(s, t);
    ReadExtends(s.ring, k);
    GotoKeeps(s, t, Scan(k + 1));
  }

  lemma ScanEndPreserves(s: State, t: nat, k: int)
    requires Inv(s) && t in s.threads && s.threads[t] == Scan(k) && !Reads(s, k + 1)
    ensures Inv(Advance(s, t))
  {
    assert ProducerAt(s, t);
    var s' := Advance(s, t);
    forall u | u in s'.threads ensures ProducerAt(s', u) {
      assert ProducerAt(s, u);
    }
  }

  lemma ScanPreserves(s: State, t: nat, k: int)
    requires Inv(s) && t in s.threads && s.threads[t] == Scan(k)
    ensures Inv(Advance(s, t))
  {
    if Reads(s, k + 1) { ScanOnPreserves(s, t, k); } else { ScanEndPreserves(s, t, k); }
  }

  lemma PushPreserves(s: State, t: nat, k: int)
    requires Inv(s) && t in s.threads && s.threads[t] == Push(k)
    ensures Inv(Advance(s, t))
  {
    assert ProducerAt(s, t);
    var s' := Advance(s, t);
    forall u | u in s'.threads ensures ProducerAt(s', u) {
      assert ProducerAt(s, u);
    }
    assert Obliged(s', t);
  }

  /** The waiter that `t` put back lacks the number after what `t` has seen. */
  lemma MismatchIsMissing(s: State, k: int)
    requires R.Inv(s.ring) && s.ring.consumed <= k < s.wait.target && !Reads(s, k + 1)
    requires UpTo(s.ring, s.wait.known)
    ensures Missing(s, k + 1)
  {
    ReadIsExact(s.ring, k + 1);
  }

  lemma CheckOnPreserves(s: State, t: nat, at: Producer)
    requires Inv(s) && t in s.threads && s.threads[t].Check? && Reads(s, s.threads[t].known + 1)
    requires at == Advance(s, t).threads[t]
    ensures Inv(Goto(s, t, at))
  {
    assert ProducerAt(s, t);
    ReadExtends(s.ring, s.threads[t].known);
    GotoKeeps(s, t, at);
    if s.list != None { CoverMoves(s, Goto(s, t, at), t); }
  }

  lemma CheckEndPreserves(s: State, t: nat)
    requires Inv(s) && t in s.threads && s.threads[t].Check? && !Reads(s, s.threads[t].known + 1)
    ensures Inv(Advance(s, t))
  {
    assert ProducerAt(s, t);
    GotoKeeps(s, t, User);
    if s.list != None {
      if Obliged(s, t) { MismatchIsMissing(s, s.threads[t].known); }
      CoverMoves(s, Goto(s, t, User), t);
    }
  }

  lemma CheckPreserves(s: State, t: nat)
    requires Inv(s) && t in s.threads && s.threads[t].Check?
    ensures Inv(Advance(s, t))
  {
    if Reads(s, s.threads[t].known + 1) {
      CheckOnPreserves(s, t, Advance(s, t).threads[t]);
    } else {
      CheckEndPreserves(s, t);
    }
  }

  // ---------- resuming ----------

  lemma LearnUpToPreserves(r: R.State, v: int)
    requires R.Inv(r) && UpTo(r, v)
    ensures R.Inv(LearnUpTo(r, v))
  {
    if r.known < v { R.LearnPreserves(r, v); }
  }

  /** The flag was set by the other side: the coroutine goes on, told enough. */
  lemma ContinuePreserves(s: State)
    requires R.Inv(s.ring) && UpTo(s.ring, s.wait.known) && s.wait.target <= s.wait.known
    requires LogOk(s) && s.list == None && s.consumer != Running && |s.log| + 1 == s.begun
    requires s.place == Resumed && Producers(s)
    ensures Inv(Continue(s))
  {
    var s' := Continue(s);
    LearnUpToPreserves(s.ring, s.wait.known);
    forall t | t in s'.threads ensures ProducerAt(s', t) {
      assert ProducerAt(s, t);
    }
  }

  /** What `resume` leaves before it looks at the flag. */
  function Told(s: State, t: nat, k: int): State {
    Goto(s, t, User).(wait := s.wait.(known := k, ready := true), place := Resumed)
  }

  lemma ToldKeepsProducers(s: State, t: nat, k: int)
    requires Inv(s) && t in s.threads && s.threads[t] == Resume(k)
    ensures Producers(Told(s, t, k))
  {
    assert ProducerAt(s, t);
    var s' := Told(s, t, k);
    forall u | u in s'.threads ensures ProducerAt(s', u) {
      assert ProducerAt(s, u);
    }
  }

  lemma ResumePreserves(s: State, t: nat, k: int)
    requires Inv(s) && t in s.threads && s.threads[t] == Resume(k)
    ensures Inv(Advance(s, t))
  {
    assert ProducerAt(s, t);
    ToldKeepsProducers(s, t, k);
    var s' := Told(s, t, k);
    if s.wait.ready {
      ContinuePreserves(s');
      assert Advance(s, t) == Continue(s');
    } else {
      assert Advance(s, t) == s';
    }
  }

  lemma AdvancePreserves(s: State, t: nat)
    requires Inv(s) && t in s.threads && s.threads[t] != User
    ensures Inv(Advance(s, t))
  {
    hide Inv;
    match s.threads[t]
    case Load => LoadPreserves(s, t);
    case Swap => TakePreserves(s, t);
    case Reswap => TakePreserves(s, t);
    case Scan(k) => ScanPreserves(s, t, k);
    case Push(k) => PushPreserves(s, t, k);
    case Check(_, _, _) => CheckPreserves(s, t);
    case Resume(k) => ResumePreserves(s, t, k);
  }

  // ---------- steps of the consumer ----------

  /** The producers' facts survive a step of the consumer that neither takes the
      waiter from one nor starts or tells a wait operation. */
  lemma ConsumerMoves(s: State, s': State)
    requires Producers(s) && s'.ring == s.ring && s'.threads == s.threads && s'.begun == s.begun
    requires s'.wait.id == s.wait.id && s'.wait.target == s.wait.target && s'.wait.known == s.wait.known
    requires s.place == s'.place || (!s.place.HeldBy? && !s'.place.HeldBy?)
    requires s.consumer != Running
    ensures Producers(s')
  {
    forall t | t in s'.threads ensures ProducerAt(s', t) {
      assert ProducerAt(s, t);
    }
  }

  lemma BeginPreserves(s: State, target: int, known: int)
    requires Inv(s) && Enabled(s, BeginWait(target, known))
    ensures Inv(Apply(s, BeginWait(target, known)))
  {
    var s' := Apply(s, BeginWait(target, known));
    forall t | t in s'.threads ensures ProducerAt(s', t) {
      assert ProducerAt(s, t);
    }
  }

  lemma AddPushPreserves(s: State)
    requires Inv(s) && s.consumer == AddPush
    ensures Inv(ConsumerAdvance(s))
  {
    ConsumerMoves(s, ConsumerAdvance(s));
  }

  lemma AddScanPreserves(s: State, k: int)
    requires Inv(s) && s.consumer == AddScan(k)
    ensures Inv(ConsumerAdvance(s))
  {
    var s' := ConsumerAdvance(s);
    ConsumerMoves(s, s');
    if Reads(s, k + 1) {
      ReadExtends(s.ring, k);
    } else if k < s.wait.target {
      MismatchIsMissing(s, k);
      assert Missing(s', k + 1);
    }
  }

  lemma AddSwapPreserves(s: State, k: int)
    requires Inv(s) && s.consumer == AddSwap(k)
    ensures Inv(ConsumerAdvance(s))
  {
    ConsumerMoves(s, ConsumerAdvance(s));
  }

  lemma AddResumePreserves(s: State, k: int)
    requires Inv(s) && s.consumer == AddResume(k)
    ensures Inv(ConsumerAdvance(s))
  {
    var s' := ConsumerAdvance(s);
    forall t | t in s'.threads ensures ProducerAt(s', t) {
      assert ProducerAt(s, t);
    }
  }

  lemma FinishPreserves(s: State)
    requires Inv(s) && s.consumer == Finish
    ensures Inv(ConsumerAdvance(s))
  {
    var s' := ConsumerAdvance(s);
    if s.wait.ready {
      ContinuePreserves(s);
    } else {
      ConsumerMoves(s, s');
      if s.list != None {
        if x :| Missing(s, x) {
          assert Missing(s', x);
        } else if t :| Obliged(s, t) {
          assert Obliged(s', t);
        }
      }
    }
  }

  lemma AwaitPreserves(s: State)
    requires Inv(s) && s.consumer != Running && s.consumer != Suspended
    ensures Inv(ConsumerAdvance(s))
  {
    match s.consumer
    case AddPush => AddPushPreserves(s);
    case AddScan(k) => AddScanPreserves(s, k);
    case AddSwap(k) => AddSwapPreserves(s, k);
    case AddResume(k) => AddResumePreserves(s, k);
    case Finish => FinishPreserves(s);
  }

  lemma StepPreserves(s: State, step: Step)
    requires Inv(s) && Enabled(s, step)
    ensures Inv(Apply(s, step))
  {
    match step
    case Claim(p, count) =>
      R.ClaimPreserves(s.ring, p, count);
      QuietRingPreserves(s, R.Apply(s.ring, R.ClaimUpTo(p, count)));
    case Grant(p) =>
      R.StepPreserves(s.ring, R.Grant(p));
      QuietRingPreserves(s, R.Apply(s.ring, R.Grant(p)));
    case Spawn(t) => SpawnPreserves(s, t);
    case StoreTail(t, p, x) => StoreTailPreserves(s, t, p, x);
    case StoreLast(t, p, x) => StoreLastPreserves(s, t, p, x);
    case Produce(t) => AdvancePreserves(s, t);
    case BeginWait(target, known) => BeginPreserves(s, target, known);
    case Await => AwaitPreserves(s);
    case Learn(v) =>
      R.LearnPreserves(s.ring, v);
      QuietRingPreserves(s, R.Apply(s.ring, R.Learn(v)));
    case Consume(v) =>
      R.ConsumePreserves(s.ring, v);
      QuietRingPreserves(s, R.Apply(s.ring, R.Consume(v)));
  }
}
