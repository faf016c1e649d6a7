/** The thread pool's queue, delay heap and worker loop. Every region under the
    mutex is one step; time is an input that never goes back. */
module ThreadPoolProtocol {

  /** `asked` and `cancelled` are auxiliary: the deadline the operation came with,
      and whether a cancellation has replaced it. */
  datatype DelayOp = DelayOp(idx: nat, handle: nat, deadline: int, asked: int, cancelled: bool)

  datatype Worker = Looking | Waiting | Running(handle: nat) | Returned

  /** A handle that a worker took: from the queue, or as a delayed operation. */
  datatype Taken = FromQueue(handle: nat, at: int) | Delayed(op: DelayOp, at: int)

  datatype State = State(
    deque: seq<nat>,
    heap: seq<DelayOp>,
    work: nat,
    nextIdx: nat,
    now: int,
    workers: seq<Worker>,
    given: multiset<nat>,     // every handle ever given to the pool
    done: multiset<nat>,      // resumed, and back
    log: seq<Taken>)

  /** Steps that rearrange the heap say how they leave it. */
  datatype Step =
    | Tick(now: int)
    | Post(handle: nat)
    | PostAfter(handle: nat, deadline: int, heap: seq<DelayOp>)
    | Cancel(idx: nat, heap: seq<DelayOp>)
    | WorkUp
    | WorkDown
    | Enter
    | Turn(t: nat, heap: seq<DelayOp>)
    | Resumed(t: nat)

  /** What the heap operations of the standard library promise about the front. */
  predicate EarliestFirst(heap: seq<DelayOp>) {
    forall i :: 0 <= i < |heap| ==> heap[0].deadline <= heap[i].deadline
  }

  predicate Arranged(heap: seq<DelayOp>, ops: seq<DelayOp>) {
    EarliestFirst(heap) && multiset(heap) == multiset(ops)
  }

  function Idle(s: State): bool { s.work == 0 && s.deque == [] && s.heap == [] }

  function Due(s: State): bool { s.heap != [] && s.heap[0].deadline <= s.now }

  /** The heap with one operation's deadline set to now, unless it is gone. */
  function Cancelled(heap: seq<DelayOp>, idx: nat, now: int): (after: seq<DelayOp>)
    ensures |after| == |heap|
  {
    if heap == [] then []
    else if heap[0].idx == idx then [heap[0].(deadline := now, cancelled := true)] + heap[1..]
    else [heap[0]] + Cancelled(heap[1..], idx, now)
  }

  predicate Enabled(s: State, step: Step) {
    match step
    case Tick(now) => s.now <= now
    case PostAfter(h, d, heap) => Arranged(heap, s.heap + [DelayOp(s.nextIdx, h, d, d, false)])
    case Cancel(idx, heap) => Arranged(heap, Cancelled(s.heap, idx, s.now))
    case WorkDown => s.work > 0
    case Turn(t, heap) =>
      && t < |s.workers| && (s.workers[t] == Looking || s.workers[t] == Waiting)
      && (Due(s) ==> Arranged(heap, s.heap[1..]))
    case Resumed(t) => t < |s.workers| && s.workers[t].Running?
    case _ => true
  }

  function Apply(s: State, step: Step): State
    requires Enabled(s, step)
  {
    match step
    case Tick(now) => s.(now := now)
    case Post(h) => s.(deque := s.deque + [h], given := s.given + multiset{h})
    case PostAfter(h, _, heap) => s.(heap := heap, nextIdx := s.nextIdx + 1, given := s.given + multiset{h})
    case Cancel(_, heap) => s.(heap := heap)
    case WorkUp => s.(work := s.work + 1)
    case WorkDown => s.(work := s.work - 1)
    case Enter => s.(workers := s.workers + [Looking])
    case Turn(t, heap) => TurnStep(s, t, heap)
    case Resumed(t) => s.(workers := s.workers[t := Looking], done := s.done + multiset{s.workers[t].handle})
  }

  /** A worker's turn, from the loop's test, or from the end of its wait, on: it
      takes a due delayed operation, else the front of the queue, else it waits;
      it returns only from the loop's test. */
  function TurnStep(s: State, t: nat, heap: seq<DelayOp>): State
    requires t < |s.workers|
  {
    if s.workers[t] == Looking && Idle(s) then s.(workers := s.workers[t := Returned])
    else if Due(s) then
      s.(heap := heap, workers := s.workers[t := Running(s.heap[0].handle)], log := s.log + [Delayed(s.heap[0], s.now)])
    else if s.deque != [] then
      s.(deque := s.deque[1..], workers := s.workers[t := Running(s.deque[0])], log := s.log + [FromQueue(s.deque[0], s.now)])
    else s.(workers := s.workers[t := if s.workers[t] == Looking then Waiting else Looking])
  }

  // ---------- the invariant ----------

  function Key(op: DelayOp, byIdx: bool): nat { if byIdx then op.idx else op.handle }

  /** The indices, or the handles, of the operations. */
  function Keys(ops: seq<DelayOp>, byIdx: bool): (ks: seq<nat>)
    ensures |ks| == |ops| && forall i :: 0 <= i < |ops| ==> ks[i] == Key(ops[i], byIdx)
  {
    seq(|ops|, i requires 0 <= i < |ops| => Key(ops[i], byIdx))
  }

  function Handles(ops: seq<DelayOp>): seq<nat> { Keys(ops, false) }

  function Ids(ops: seq<DelayOp>): seq<nat> { Keys(ops, true) }

  /** Every handle given is in the queue, in the heap, being run, or done. */
  ghost predicate Conserved(s: State, h: nat) {
    s.given[h] == multiset(s.deque)[h] + multiset(Handles(s.heap))[h] + multiset(s.workers)[Running(h)] + s.done[h]
  }

  /** A deadline is the one asked for, or a cancellation brought it forward to a
      time that has come. */
  predicate Honest(op: DelayOp, now: int) { if op.cancelled then op.deadline <= now else op.deadline == op.asked }

  ghost predicate OpsOk(ops: multiset<DelayOp>, nextIdx: nat, now: int) {
    forall op :: op in ops ==> Honest(op, now) && op.idx < nextIdx
  }

  ghost predicate HeapOk(heap: seq<DelayOp>, nextIdx: nat, now: int) {
    && EarliestFirst(heap) && OpsOk(multiset(heap), nextIdx, now)
    && UniqueIds(heap)
  }

  predicate InTime(taken: Taken) {
    taken.Delayed? ==> taken.op.deadline <= taken.at && Honest(taken.op, taken.at)
  }

  ghost predicate Inv(s: State) {
    && (forall h :: Conserved(s, h)) && HeapOk(s.heap, s.nextIdx, s.now)
    && (forall i :: 0 <= i < |s.log| ==> InTime(s.log[i]) && s.log[i].at <= s.now)
  }

  ghost predicate Init(s: State) {
    && s.deque == [] && s.heap == [] && s.work == 0 && s.nextIdx == 0 && s.workers == [] && s.log == []
    && s.given == multiset{} && s.done == multiset{}
  }

  lemma InitInv(s: State)
    requires Init(s)
    ensures Inv(s)
  {
  }

  // ---------- rearranging ----------

  function Without<T>(xs: seq<T>, k: nat): seq<T>
    requires k < |xs|
  {
    xs[..k] + xs[k + 1..]
  }

  lemma WithoutBag<T>(xs: seq<T>, k: nat)
    requires k < |xs|
    ensures multiset(xs) == multiset(Without(xs, k)) + multiset{xs[k]}
  {
    assert xs == xs[..k] + [xs[k]] + xs[k + 1..];
  }

  lemma KeysWithout(ops: seq<DelayOp>, byIdx: bool, k: nat)
    requires k < |ops|
    ensures multiset(Keys(ops, byIdx)) == multiset(Keys(Without(ops, k), byIdx)) + multiset{Key(ops[k], byIdx)}
  {
    WithoutBag(Keys(ops, byIdx), k);
    assert Keys(Without(ops, k), byIdx) == Without(Keys(ops, byIdx), k);
  }

  /** Rearranging operations rearranges their handles and their indices. */
  lemma {:induction false} ArrangedKeys(a: seq<DelayOp>, b: seq<DelayOp>, byIdx: bool)
    requires multiset(a) == multiset(b)
    ensures multiset(Keys(a, byIdx)) == multiset(Keys(b, byIdx))
  {
    if a == [] {
      SameLength(a, b);
    } else {
      assert a[0] in multiset(b);
      var k :| 0 <= k < |b| && b[k] == a[0];
      WithoutBag(a, 0);
      WithoutBag(b, k);
      SameRest(multiset(Without(a, 0)), multiset(Without(b, k)), a[0]);
      ArrangedKeys(Without(a, 0), Without(b, k), byIdx);
      KeysWithout(a, byIdx, 0);
      KeysWithout(b, byIdx, k);
    }
  }

  lemma SameLength<T>(a: seq<T>, b: seq<T>)
    requires multiset(a) == multiset(b)
    ensures |a| == |b|
  {
    assert |multiset(a)| == |a| && |multiset(b)| == |b|;
  }

  lemma SameRest<T>(a: multiset<T>, b: multiset<T>, x: T)
    requires a + multiset{x} == b + multiset{x}
    ensures a == b
  {
    assert a == (a + multiset{x}) - multiset{x};
  }

  // ---------- preservation ----------

  function Hurried(op: DelayOp, now: int): DelayOp { op.(deadline := now, cancelled := true) }

  /** Cancelling touches no handle and no index. */
  lemma {:induction false} CancelledKeepsKeys(heap: seq<DelayOp>, idx: nat, now: int, byIdx: bool)
    ensures Keys(Cancelled(heap, idx, now), byIdx) == Keys(heap, byIdx)
  {
    if heap != [] && heap[0].idx != idx { CancelledKeepsKeys(heap[1..], idx, now, byIdx); }
  }

  ghost predicate UniqueIds(heap: seq<DelayOp>) { forall n :: multiset(Ids(heap))[n] <= 1 }

  lemma TailIds(heap: seq<DelayOp>)
    requires heap != []
    ensures multiset(Ids(heap)) == multiset{heap[0].idx} + multiset(Ids(heap[1..]))
  {
    assert Ids(heap) == [heap[0].idx] + Ids(heap[1..]);
  }

  lemma TailUnique(heap: seq<DelayOp>)
    requires heap != [] && UniqueIds(heap)
    ensures UniqueIds(heap[1..])
    ensures forall j :: 0 <= j < |heap[1..]| ==> heap[1..][j].idx != heap[0].idx
  {
    TailIds(heap);
    var rest := heap[1..];
    forall n ensures multiset(Ids(rest))[n] <= 1 {
      assert multiset(Ids(heap))[n] <= 1;
    }
    assert multiset(Ids(heap))[heap[0].idx] <= 1;
    forall j | 0 <= j < |rest| ensures rest[j].idx != heap[0].idx {
      assert Ids(rest)[j] in multiset(Ids(rest));
    }
  }

  /** Cancelling makes exactly the operation with the given index due now. */
  lemma {:induction false} CancelledExactly(heap: seq<DelayOp>, idx: nat, now: int)
    requires UniqueIds(heap)
    ensures forall i :: 0 <= i < |heap| ==>
      Cancelled(heap, idx, now)[i] == if heap[i].idx == idx then Hurried(heap[i], now) else heap[i]
  {
    if heap != [] {
      TailUnique(heap);
      if heap[0].idx != idx { CancelledExactly(heap[1..], idx, now); }
    }
  }

  lemma IdsAreOld(heap: seq<DelayOp>, nextIdx: nat, now: int, n: nat)
    requires OpsOk(multiset(heap), nextIdx, now) && n in multiset(Ids(heap))
    ensures n < nextIdx
  {
    var i :| 0 <= i < |heap| && Ids(heap)[i] == n;
    assert heap[i] in multiset(heap);
  }

  lemma PostAfterKeepsHeap(s: State, op: DelayOp, heap: seq<DelayOp>)
    requires HeapOk(s.heap, s.nextIdx, s.now) && Arranged(heap, s.heap + [op])
    requires op.idx == s.nextIdx && !op.cancelled && op.deadline == op.asked
    ensures HeapOk(heap, s.nextIdx + 1, s.now)
    ensures multiset(Handles(heap)) == multiset(Handles(s.heap)) + multiset{op.handle}
  {
    ArrangedKeys(heap, s.heap + [op], true);
    ArrangedKeys(heap, s.heap + [op], false);
    assert Ids(s.heap + [op]) == Ids(s.heap) + [op.idx];
    assert Handles(s.heap + [op]) == Handles(s.heap) + [op.handle];
    if s.nextIdx in multiset(Ids(s.heap)) { IdsAreOld(s.heap, s.nextIdx, s.now, s.nextIdx); }
  }

  lemma HurriedKeepsOps(ops: seq<DelayOp>, after: seq<DelayOp>, idx: nat, nextIdx: nat, now: int)
    requires OpsOk(multiset(ops), nextIdx, now) && |after| == |ops|
    requires forall i :: 0 <= i < |ops| ==> after[i] == if ops[i].idx == idx then Hurried(ops[i], now) else ops[i]
    ensures OpsOk(multiset(after), nextIdx, now)
  {
    forall op | op in multiset(after) ensures Honest(op, now) && op.idx < nextIdx {
      var i :| 0 <= i < |after| && after[i] == op;
      assert ops[i] in multiset(ops);
    }
  }

  lemma CancelKeepsOps(ops: seq<DelayOp>, idx: nat, nextIdx: nat, now: int)
    requires OpsOk(multiset(ops), nextIdx, now) && UniqueIds(ops)
    ensures OpsOk(multiset(Cancelled(ops, idx, now)), nextIdx, now)
  {
    CancelledExactly(ops, idx, now);
    HurriedKeepsOps(ops, Cancelled(ops, idx, now), idx, nextIdx, now);
  }

  lemma SameIdsUnique(ops: seq<DelayOp>, after: seq<DelayOp>)
    requires UniqueIds(ops) && Ids(after) == Ids(ops)
    ensures UniqueIds(after)
  {
    forall n ensures multiset(Ids(after))[n] <= 1 {
      assert multiset(Ids(ops))[n] <= 1;
    }
  }

  lemma CancelKeepsHeap(s: State, idx: nat, heap: seq<DelayOp>)
    requires HeapOk(s.heap, s.nextIdx, s.now) && Arranged(heap, Cancelled(s.heap, idx, s.now))
    ensures HeapOk(heap, s.nextIdx, s.now) && multiset(Handles(heap)) == multiset(Handles(s.heap))
  {
    var after := Cancelled(s.heap, idx, s.now);
    CancelKeepsOps(s.heap, idx, s.nextIdx, s.now);
    CancelledKeepsKeys(s.heap, idx, s.now, true);
    CancelledKeepsKeys(s.heap, idx, s.now, false);
    SameIdsUnique(s.heap, after);
    ArrangedUnique(heap, after);
    ArrangedKeys(heap, after, false);
  }

  lemma PopHandles(ops: seq<DelayOp>, heap: seq<DelayOp>)
    requires ops != [] && multiset(heap) == multiset(ops[1..])
    ensures multiset(Handles(ops)) == multiset(Handles(heap)) + multiset{ops[0].handle}
  {
    ArrangedKeys(heap, ops[1..], false);
    assert Handles(ops) == [ops[0].handle] + Handles(ops[1..]);
  }

  lemma PopIds(ops: seq<DelayOp>, heap: seq<DelayOp>)
    requires ops != [] && UniqueIds(ops) && multiset(heap) == multiset(ops[1..])
    ensures UniqueIds(heap)
  {
    TailUnique(ops);
    ArrangedUnique(heap, ops[1..]);
  }

  lemma ArrangedUnique(heap: seq<DelayOp>, ops: seq<DelayOp>)
    requires UniqueIds(ops) && multiset(heap) == multiset(ops)
    ensures UniqueIds(heap)
  {
    ArrangedKeys(heap, ops, true);
    forall n ensures multiset(Ids(heap))[n] <= 1 {
      assert multiset(Ids(ops))[n] <= 1;
    }
  }

  lemma PopOps(ops: seq<DelayOp>, heap: seq<DelayOp>, nextIdx: nat, now: int)
    requires ops != [] && OpsOk(multiset(ops), nextIdx, now) && multiset(heap) == multiset(ops[1..])
    ensures OpsOk(multiset(heap), nextIdx, now) && Honest(ops[0], now)
  {
    assert ops == [ops[0]] + ops[1..];
    assert ops[0] in multiset(ops);
    forall op | op in multiset(heap) ensures op in multiset(ops) {
      assert op in multiset(ops[1..]);
    }
  }

  lemma PopKeepsHeap(s: State, heap: seq<DelayOp>)
    requires HeapOk(s.heap, s.nextIdx, s.now) && s.heap != [] && Arranged(heap, s.heap[1..])
    ensures HeapOk(heap, s.nextIdx, s.now) && Honest(s.heap[0], s.now)
    ensures multiset(Handles(s.heap)) == multiset(Handles(heap)) + multiset{s.heap[0].handle}
  {
    PopHandles(s.heap, heap);
    PopIds(s.heap, heap);
    PopOps(s.heap, heap, s.nextIdx, s.now);
  }

  lemma WorkerMoves(workers: seq<Worker>, t: nat, w: Worker, h: nat)
    requires t < |workers|
    ensures multiset(workers[t := w])[Running(h)] == multiset(workers)[Running(h)]
              - (if workers[t] == Running(h) then 1 else 0) + (if w == Running(h) then 1 else 0)
  {
  }

  lemma TurnKeepsHandles(s: State, t: nat, heap: seq<DelayOp>, h: nat)
    requires Conserved(s, h) && Enabled(s, Turn(t, heap))
    ensures Conserved(TurnStep(s, t, heap), h)
  {
    WorkerMoves(s.workers, t, TurnStep(s, t, heap).workers[t], h);
    if Due(s) {
      PopHandles(s.heap, heap);
    } else if s.deque != [] {
      assert s.deque == [s.deque[0]] + s.deque[1..];
    }
  }

  lemma StepKeepsHandles(s: State, step: Step, h: nat)
    requires Conserved(s, h) && HeapOk(s.heap, s.nextIdx, s.now) && Enabled(s, step)
    ensures Conserved(Apply(s, step), h)
  {
    match step
    case PostAfter(x, d, heap) => PostAfterKeepsHeap(s, DelayOp(s.nextIdx, x, d, d, false), heap);
    case Cancel(idx, heap) => CancelKeepsHeap(s, idx, heap);
    case Turn(t, heap) => TurnKeepsHandles(s, t, heap, h);
    case _ =>
  }

  lemma StepKeepsHeap(s: State, step: Step)
    requires HeapOk(s.heap, s.nextIdx, s.now) && Enabled(s, step)
    ensures var s' := Apply(s, step); HeapOk(s'.heap, s'.nextIdx, s'.now)
  {
    match step
    case PostAfter(x, d, heap) => PostAfterKeepsHeap(s, DelayOp(s.nextIdx, x, d, d, false), heap);
    case Cancel(idx, heap) => CancelKeepsHeap(s, idx, heap);
    case Turn(t, heap) => if Due(s) { PopKeepsHeap(s, heap); }
    case _ =>
  }

  lemma StepKeepsLog(s: State, step: Step)
    requires Inv(s) && Enabled(s, step)
    ensures var s' := Apply(s, step);
            forall i :: 0 <= i < |s'.log| ==> InTime(s'.log[i]) && s'.log[i].at <= s'.now
  {
    match step
    case Turn(t, heap) => if Due(s) { PopKeepsHeap(s, heap); }
    case _ =>
  }

  lemma StepPreserves(s: State, step: Step)
    requires Inv(s) && Enabled(s, step)
    ensures Inv(Apply(s, step))
  {
    StepKeepsHeap(s, step);
    StepKeepsLog(s, step);
    forall h ensures Conserved(Apply(s, step), h) {
      assert Conserved(s, h);
      StepKeepsHandles(s, step, h);
    }
  }

  // ---------- every run ----------

  ghost predicate Next(s: State, s': State) { exists step :: Enabled(s, step) && s' == Apply(s, step) }

  ghost predicate NextAt(run: seq<State>, i: int)
    requires 0 < i < |run|
  {
    Next(run[i - 1], run[i])
  }

  ghost predicate IsRun(run: seq<State>) {
    && run != [] && Init(run[0])
    && forall i {:trigger NextAt(run, i)} :: 0 < i < |run| ==> NextAt(run, i)
  }

  lemma {:induction false} RunKeepsInv(run: seq<State>, i: nat)
    requires IsRun(run) && i < |run|
    ensures Inv(run[i])
  {
    hide Inv;
    if i == 0 {
      InitInv(run[0]);
    } else {
      RunKeepsInv(run, i - 1);
      assert NextAt(run, i);
      NextKeepsInv(run[i - 1], run[i]);
    }
  }

  lemma NextKeepsInv(s: State, s': State)
    requires Inv(s) && Next(s, s')
    ensures Inv(s')
  {
    var step :| Enabled(s, step) && s' == Apply(s, step);
    StepPreserves(s, step);
  }

  /** Every handle given to the pool is at all times, as often as it was given, in
      the queue, in the heap, being run, or done. */
  lemma HandlesConserved(run: seq<State>, i: nat, h: nat)
    requires IsRun(run) && i < |run|
    ensures Conserved(run[i], h)
  {
    RunKeepsInv(run, i);
  }

  /** A delayed operation runs at or after its deadline, which is the one it was
      asked for unless it was cancelled. */
  lemma DelayedRunsInTime(run: seq<State>, i: nat, j: nat)
    requires IsRun(run) && i < |run| && j < |run[i].log| && run[i].log[j].Delayed?
    ensures var taken := run[i].log[j];
            taken.op.deadline <= taken.at && (!taken.op.cancelled ==> taken.op.asked <= taken.at)
  {
    RunKeepsInv(run, i);
    assert InTime(run[i].log[j]);
  }

  /** A worker takes the earliest due operation, before anything queued; the
      queue's first handle, when none is due; and nothing only if there is neither. */
  lemma TurnTakesTheEarliest(run: seq<State>, i: nat, t: nat, heap: seq<DelayOp>)
    requires IsRun(run) && i < |run| && Enabled(run[i], Turn(t, heap))
    ensures var s, s' := run[i], Apply(run[i], Turn(t, heap));
            if s'.workers[t].Running? then
              && |s'.log| == |s.log| + 1 && s.log <= s'.log
              && match s'.log[|s.log|]
                 case Delayed(op, at) =>
                   op in s.heap && s'.workers[t] == Running(op.handle) && at == s.now
                   && forall other :: other in s.heap ==> op.deadline <= other.deadline
                 case FromQueue(h, at) =>
                   s.deque != [] && h == s.deque[0] && s'.workers[t] == Running(h) && at == s.now
                   && forall other :: other in s.heap ==> other.deadline > s.now
            else
              s'.log == s.log && s.deque == [] && forall other :: other in s.heap ==> other.deadline > s.now
  {
    RunKeepsInv(run, i);
  }

  lemma IdleConserves(s: State, h: nat)
    requires Conserved(s, h) && Idle(s)
    ensures s.given[h] == multiset(s.workers)[Running(h)] + s.done[h]
  {
  }

  /** With nothing queued, delayed or promised, and no worker inside a handle,
      everything ever given to the pool is done, as often as it was given. */
  lemma ClosedPoolDidEverything(run: seq<State>, i: nat)
    requires IsRun(run) && i < |run| && Idle(run[i])
    requires forall t :: 0 <= t < |run[i].workers| ==> !run[i].workers[t].Running?
    ensures run[i].given == run[i].done
  {
    var s := run[i];
    RunKeepsInv(run, i);
    forall h ensures s.given[h] == s.done[h] {
      assert Conserved(s, h);
      IdleConserves(s, h);
      assert Running(h) !in multiset(s.workers);
    }
  }

  lemma TurnedIdle(s: State, step: Step, t: nat)
    requires Enabled(s, step) && t < |Apply(s, step).workers| && Apply(s, step).workers[t] == Returned
    ensures t < |s.workers| && (s.workers[t] == Returned || (s.workers[t] == Looking && Idle(s)))
  {
  }

  lemma CameFromIdle(s: State, s': State, t: nat)
    requires Next(s, s') && t < |s'.workers| && s'.workers[t] == Returned
    ensures t < |s.workers| && (s.workers[t] == Returned || (s.workers[t] == Looking && Idle(s)))
  {
    var step :| Enabled(s, step) && s' == Apply(s, step);
    TurnedIdle(s, step, t);
  }

  lemma IdleIsAccountedFor(run: seq<State>, k: nat)
    requires IsRun(run) && k < |run| && Idle(run[k])
    ensures forall h :: run[k].given[h] == multiset(run[k].workers)[Running(h)] + run[k].done[h]
  {
    RunKeepsInv(run, k);
    forall h ensures run[k].given[h] == multiset(run[k].workers)[Running(h)] + run[k].done[h] {
      assert Conserved(run[k], h);
      IdleConserves(run[k], h);
    }
  }

  ghost predicate ReturnedAt(run: seq<State>, j: int, t: nat)
    requires 0 <= j < |run|
  {
    t < |run[j].workers| && run[j].workers[t] == Returned
  }

  /** `run` returns on a worker only out of the loop's test, in a state in which the
      queue and the heap are empty and there is no work, so that everything given
      is done or in some worker's hands; from the next state on it has returned. */
  lemma {:induction false} ReturnsOnlyWhenIdle(run: seq<State>, i: nat, t: nat) returns (k: nat)
    requires IsRun(run) && i < |run| && ReturnedAt(run, i, t)
    ensures k < i && t < |run[k].workers| && run[k].workers[t] == Looking && Idle(run[k])
    ensures forall j :: k < j <= i ==> ReturnedAt(run, j, t)
    ensures forall h :: run[k].given[h] == multiset(run[k].workers)[Running(h)] + run[k].done[h]
  {
    assert i > 0;
    assert NextAt(run, i);
    CameFromIdle(run[i - 1], run[i], t);
    if run[i - 1].workers[t] == Returned {
      k := ReturnsOnlyWhenIdle(run, i - 1, t);
    } else {
      k := i - 1;
      IdleIsAccountedFor(run, k);
    }
  }

  /** After a cancellation its operation is due, whether it was the front or not. */
  lemma CancelledIsDue(run: seq<State>, i: nat, k: nat, heap: seq<DelayOp>)
    requires IsRun(run) && i < |run| && k < |run[i].heap|
    requires Enabled(run[i], Cancel(run[i].heap[k].idx, heap))
    ensures Hurried(run[i].heap[k], run[i].now) in heap
    ensures Due(Apply(run[i], Cancel(run[i].heap[k].idx, heap)))
  {
    var s := run[i];
    RunKeepsInv(run, i);
    CancelledExactly(s.heap, s.heap[k].idx, s.now);
    assert Cancelled(s.heap, s.heap[k].idx, s.now)[k] in multiset(heap);
  }
}
