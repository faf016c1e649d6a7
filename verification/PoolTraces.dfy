/** The pool seen from its steps: posted handles are taken in the order of posting,
    and delayed ones not before the deadline that their own step asked for. */
module PoolTraces {
  import opened ThreadPoolProtocol

  /** Step `k` leads from `run[k]` to `run[k + 1]`. */
  ghost predicate TakesAt(run: seq<State>, steps: seq<Step>, k: int)
    requires |run| == |steps| + 1 && 0 <= k < |steps|
  {
    Enabled(run[k], steps[k]) && run[k + 1] == Apply(run[k], steps[k])
  }

  ghost predicate IsTrace(run: seq<State>, steps: seq<Step>) {
    && |run| == |steps| + 1 && Init(run[0])
    && forall k {:trigger TakesAt(run, steps, k)} :: 0 <= k < |steps| ==> TakesAt(run, steps, k)
  }

  lemma TraceIsRun(run: seq<State>, steps: seq<Step>)
    requires IsTrace(run, steps)
    ensures IsRun(run)
  {
    forall i | 0 < i < |run| ensures NextAt(run, i) {
      assert TakesAt(run, steps, i - 1);
    }
  }

  // ---------- what the first `i` steps say ----------

  /** The handles posted to the queue, in order. */
  function Posted(steps: seq<Step>, i: nat): seq<nat>
    requires i <= |steps|
  {
    if i == 0 then [] else Posted(steps, i - 1) + if steps[i - 1].Post? then [steps[i - 1].handle] else []
  }

  /** What was posted with a deadline. */
  datatype Request = Request(handle: nat, deadline: int)

  /** The requests with a deadline, in order; the place is the index returned. */
  function Requests(steps: seq<Step>, i: nat): seq<Request>
    requires i <= |steps|
  {
    if i == 0 then []
    else
      Requests(steps, i - 1)
      + if steps[i - 1].PostAfter? then [Request(steps[i - 1].handle, steps[i - 1].deadline)] else []
  }

  /** The indices that a cancellation named. */
  function Withdrawn(steps: seq<Step>, i: nat): set<nat>
    requires i <= |steps|
  {
    if i == 0 then {} else Withdrawn(steps, i - 1) + if steps[i - 1].Cancel? then {steps[i - 1].idx} else {}
  }

  function Given(steps: seq<Step>, i: nat): multiset<nat>
    requires i <= |steps|
  {
    if i == 0 then multiset{}
    else
      Given(steps, i - 1)
      + if steps[i - 1].Post? || steps[i - 1].PostAfter? then multiset{steps[i - 1].handle} else multiset{}
  }

  /** Pieces of work taken up and not let go. */
  function Work(steps: seq<Step>, i: nat): int
    requires i <= |steps|
  {
    if i == 0 then 0 else Work(steps, i - 1) + match steps[i - 1] case WorkUp => 1 case WorkDown => -1 case _ => 0
  }

  function Clock(start: int, steps: seq<Step>, i: nat): int
    requires i <= |steps|
  {
    if i == 0 then start else if steps[i - 1].Tick? then steps[i - 1].now else Clock(start, steps, i - 1)
  }

  function Workers(steps: seq<Step>, i: nat): nat
    requires i <= |steps|
  {
    if i == 0 then 0 else Workers(steps, i - 1) + if steps[i - 1].Enter? then 1 else 0
  }

  // ---------- and what the states hold ----------

  /** The handles taken from the queue, in the order in which they were taken. */
  function Dequeued(log: seq<Taken>): seq<nat> {
    if log == [] then []
    else
      var last := log[|log| - 1];
      Dequeued(log[..|log| - 1]) + if last.FromQueue? then [last.handle] else []
  }

  lemma DequeuedNext(log: seq<Taken>, taken: Taken)
    ensures Dequeued(log + [taken]) == Dequeued(log) + if taken.FromQueue? then [taken.handle] else []
  {
    assert (log + [taken])[..|log|] == log;
  }

  lemma StepCounts(s: State, step: Step)
    requires Enabled(s, step)
    ensures var s' := Apply(s, step);
            && s'.work == s.work + (match step case WorkUp => 1 case WorkDown => -1 case _ => 0)
            && s'.now == (if step.Tick? then step.now else s.now)
            && |s'.workers| == |s.workers| + (if step.Enter? then 1 else 0)
            && s'.nextIdx == s.nextIdx + (if step.PostAfter? then 1 else 0)
            && s'.given == s.given + if step.Post? || step.PostAfter? then multiset{step.handle} else multiset{}
  {
  }

  lemma {:induction false} StateFollowsSteps(run: seq<State>, steps: seq<Step>, i: nat)
    requires IsTrace(run, steps) && i <= |steps|
    ensures run[i].work == Work(steps, i) && run[i].now == Clock(run[0].now, steps, i)
    ensures |run[i].workers| == Workers(steps, i) && run[i].nextIdx == |Requests(steps, i)|
    ensures run[i].given == Given(steps, i)
  {
    if i > 0 {
      StateFollowsSteps(run, steps, i - 1);
      assert TakesAt(run, steps, i - 1);
      StepCounts(run[i - 1], steps[i - 1]);
    }
  }

  lemma StepQueues(s: State, step: Step)
    requires Enabled(s, step)
    ensures var s' := Apply(s, step);
            Dequeued(s'.log) + s'.deque == Dequeued(s.log) + s.deque + if step.Post? then [step.handle] else []
  {
    var s' := Apply(s, step);
    if |s'.log| > |s.log| { DequeuedNext(s.log, s'.log[|s.log|]); }
    if step.Turn? && !Due(s) && s.deque != [] { assert s.deque == [s.deque[0]] + s.deque[1..]; }
  }

  /** First in, first out: what was taken from the queue and what is still in it are
      the posted handles, in the order of posting. */
  lemma {:induction false} QueueIsFirstInFirstOut(run: seq<State>, steps: seq<Step>, i: nat)
    requires IsTrace(run, steps) && i <= |steps|
    ensures Dequeued(run[i].log) + run[i].deque == Posted(steps, i)
  {
    if i > 0 {
      QueueIsFirstInFirstOut(run, steps, i - 1);
      assert TakesAt(run, steps, i - 1);
      StepQueues(run[i - 1], steps[i - 1]);
    }
  }

  // ---------- delayed operations ----------

  /** The operation is the request that its index names, and its deadline the one
      asked for unless a cancellation named it. */
  predicate AsAsked(op: DelayOp, requests: seq<Request>, withdrawn: set<nat>) {
    && op.idx < |requests| && op.handle == requests[op.idx].handle && op.asked == requests[op.idx].deadline
    && (op.cancelled ==> op.idx in withdrawn)
  }

  ghost predicate AllAsAsked(ops: multiset<DelayOp>, requests: seq<Request>, withdrawn: set<nat>) {
    forall op {:trigger AsAsked(op, requests, withdrawn)} :: op in ops ==> AsAsked(op, requests, withdrawn)
  }

  ghost predicate LogAsAsked(log: seq<Taken>, requests: seq<Request>, withdrawn: set<nat>) {
    forall j {:trigger log[j]} :: 0 <= j < |log| && log[j].Delayed? ==> AsAsked(log[j].op, requests, withdrawn)
  }

  lemma MoreAsked(op: DelayOp, requests: seq<Request>, more: seq<Request>, withdrawn: set<nat>, also: set<nat>)
    requires AsAsked(op, requests, withdrawn)
    ensures AsAsked(op, requests + more, withdrawn + also)
  {
  }

  lemma MoreAllAsked(s: State, requests: seq<Request>, more: seq<Request>, withdrawn: set<nat>, also: set<nat>)
    requires AllAsAsked(multiset(s.heap), requests, withdrawn) && LogAsAsked(s.log, requests, withdrawn)
    ensures AllAsAsked(multiset(s.heap), requests + more, withdrawn + also)
    ensures LogAsAsked(s.log, requests + more, withdrawn + also)
  {
    forall op | op in multiset(s.heap) ensures AsAsked(op, requests + more, withdrawn + also) {
      assert AsAsked(op, requests, withdrawn);
      MoreAsked(op, requests, more, withdrawn, also);
    }
    forall j | 0 <= j < |s.log| && s.log[j].Delayed? ensures AsAsked(s.log[j].op, requests + more, withdrawn + also) {
      MoreAsked(s.log[j].op, requests, more, withdrawn, also);
    }
  }

  lemma {:induction false} CancelledAsAsked(ops: seq<DelayOp>, idx: nat, now: int, requests: seq<Request>, withdrawn: set<nat>)
    requires AllAsAsked(multiset(ops), requests, withdrawn) && idx in withdrawn
    ensures AllAsAsked(multiset(Cancelled(ops, idx, now)), requests, withdrawn)
  {
    if ops != [] {
      assert ops == [ops[0]] + ops[1..];
      assert AsAsked(ops[0], requests, withdrawn);
      assert AllAsAsked(multiset(ops[1..]), requests, withdrawn) by {
        forall op | op in multiset(ops[1..]) ensures AsAsked(op, requests, withdrawn) { assert op in multiset(ops); }
      }
      if ops[0].idx != idx { CancelledAsAsked(ops[1..], idx, now, requests, withdrawn); }
    }
  }

  lemma PostAsAsked(s: State, op: DelayOp, heap: seq<DelayOp>, requests: seq<Request>, withdrawn: set<nat>)
    requires Arranged(heap, s.heap + [op]) && AsAsked(op, requests, withdrawn)
    requires AllAsAsked(multiset(s.heap), requests, withdrawn)
    ensures AllAsAsked(multiset(heap), requests, withdrawn)
  {
    forall other | other in multiset(heap) ensures AsAsked(other, requests, withdrawn) {
      assert other in multiset(s.heap + [op]);
      if other != op { assert other in multiset(s.heap); }
    }
  }

  lemma ArrangedAsAsked(heap: seq<DelayOp>, ops: seq<DelayOp>, requests: seq<Request>, withdrawn: set<nat>)
    requires Arranged(heap, ops) && AllAsAsked(multiset(ops), requests, withdrawn)
    ensures AllAsAsked(multiset(heap), requests, withdrawn)
  {
  }

  lemma TurnAsAsked(s: State, t: nat, heap: seq<DelayOp>, requests: seq<Request>, withdrawn: set<nat>)
    requires Enabled(s, Turn(t, heap))
    requires AllAsAsked(multiset(s.heap), requests, withdrawn) && LogAsAsked(s.log, requests, withdrawn)
    ensures AllAsAsked(multiset(TurnStep(s, t, heap).heap), requests, withdrawn)
    ensures LogAsAsked(TurnStep(s, t, heap).log, requests, withdrawn)
  {
    if Due(s) {
      assert s.heap == [s.heap[0]] + s.heap[1..];
      assert s.heap[0] in multiset(s.heap) && AsAsked(s.heap[0], requests, withdrawn);
      assert AllAsAsked(multiset(s.heap[1..]), requests, withdrawn);
    }
  }

  lemma StepAsAsked(s: State, step: Step, requests: seq<Request>, withdrawn: set<nat>)
    requires Enabled(s, step) && s.nextIdx == |requests|
    requires AllAsAsked(multiset(s.heap), requests, withdrawn) && LogAsAsked(s.log, requests, withdrawn)
    ensures var s', more := Apply(s, step), if step.PostAfter? then [Request(step.handle, step.deadline)] else [];
            var also := if step.Cancel? then {step.idx} else {};
            AllAsAsked(multiset(s'.heap), requests + more, withdrawn + also) && LogAsAsked(s'.log, requests + more, withdrawn + also)
  {
    var more := if step.PostAfter? then [Request(step.handle, step.deadline)] else [];
    var also := if step.Cancel? then {step.idx} else {};
    MoreAllAsked(s, requests, more, withdrawn, also);
    hide AllAsAsked, LogAsAsked, Arranged, TurnStep;
    match step
    case PostAfter(h, d, heap) => PostAsAsked(s, DelayOp(s.nextIdx, h, d, d, false), heap, requests + more, withdrawn + also);
    case Cancel(idx, heap) =>
      CancelledAsAsked(s.heap, idx, s.now, requests + more, withdrawn + also);
      ArrangedAsAsked(heap, Cancelled(s.heap, idx, s.now), requests + more, withdrawn + also);
    case Turn(t, heap) => TurnAsAsked(s, t, heap, requests + more, withdrawn + also);
    case _ =>
  }

  lemma {:induction false} OperationsAreAsAsked(run: seq<State>, steps: seq<Step>, i: nat)
    requires IsTrace(run, steps) && i <= |steps|
    ensures AllAsAsked(multiset(run[i].heap), Requests(steps, i), Withdrawn(steps, i))
    ensures LogAsAsked(run[i].log, Requests(steps, i), Withdrawn(steps, i))
  {
    if i > 0 {
      OperationsAreAsAsked(run, steps, i - 1);
      StateFollowsSteps(run, steps, i - 1);
      assert TakesAt(run, steps, i - 1);
      StepAsAsked(run[i - 1], steps[i - 1], Requests(steps, i - 1), Withdrawn(steps, i - 1));
    }
  }

  /** A delayed handle is taken as the request that its index names, and not before
      the deadline asked for there, unless a cancellation named that index. */
  lemma NotBeforeItsDeadline(run: seq<State>, steps: seq<Step>, i: nat, j: nat)
    requires IsTrace(run, steps) && i <= |steps| && j < |run[i].log| && run[i].log[j].Delayed?
    ensures var op, at := run[i].log[j].op, run[i].log[j].at;
            && op.idx < |Requests(steps, i)| && op.handle == Requests(steps, i)[op.idx].handle
            && (op.idx !in Withdrawn(steps, i) ==> Requests(steps, i)[op.idx].deadline <= at)
  {
    TraceIsRun(run, steps);
    OperationsAreAsAsked(run, steps, i);
    DelayedRunsInTime(run, i, j);
  }

  /** The indices of the delayed operations taken. */
  function TakenIds(log: seq<Taken>): seq<nat> {
    if log == [] then []
    else
      var last := log[|log| - 1];
      TakenIds(log[..|log| - 1]) + if last.Delayed? then [last.op.idx] else []
  }

  lemma TakenIdsNext(log: seq<Taken>, taken: Taken)
    ensures TakenIds(log + [taken]) == TakenIds(log) + if taken.Delayed? then [taken.op.idx] else []
  {
    assert (log + [taken])[..|log|] == log;
  }

  /** How often an index occurs in the heap and among those taken. */
  function IdCount(heap: seq<DelayOp>, log: seq<Taken>, n: nat): nat {
    multiset(Ids(heap))[n] + multiset(TakenIds(log))[n]
  }

  lemma PostCounts(s: State, op: DelayOp, heap: seq<DelayOp>, n: nat)
    requires Arranged(heap, s.heap + [op])
    ensures IdCount(heap, s.log, n) == IdCount(s.heap, s.log, n) + if n == op.idx then 1 else 0
  {
    ArrangedKeys(heap, s.heap + [op], true);
    assert Ids(s.heap + [op]) == Ids(s.heap) + [op.idx];
  }

  lemma CancelCounts(s: State, idx: nat, heap: seq<DelayOp>, n: nat)
    requires Arranged(heap, Cancelled(s.heap, idx, s.now))
    ensures IdCount(heap, s.log, n) == IdCount(s.heap, s.log, n)
  {
    ArrangedKeys(heap, Cancelled(s.heap, idx, s.now), true);
    CancelledKeepsKeys(s.heap, idx, s.now, true);
  }

  lemma TakeCounts(s: State, heap: seq<DelayOp>, n: nat)
    requires s.heap != [] && Arranged(heap, s.heap[1..])
    ensures IdCount(heap, s.log + [Delayed(s.heap[0], s.now)], n) == IdCount(s.heap, s.log, n)
  {
    TakenIdsNext(s.log, Delayed(s.heap[0], s.now));
    ArrangedKeys(heap, s.heap[1..], true);
    TailIds(s.heap);
  }

  lemma TurnCounts(s: State, t: nat, heap: seq<DelayOp>, n: nat)
    requires Enabled(s, Turn(t, heap))
    ensures IdCount(TurnStep(s, t, heap).heap, TurnStep(s, t, heap).log, n) == IdCount(s.heap, s.log, n)
  {
    var log := TurnStep(s, t, heap).log;
    if Due(s) { TakeCounts(s, heap, n); }
    if |log| > |s.log| { TakenIdsNext(s.log, log[|s.log|]); }
  }

  lemma StepCountsIds(s: State, step: Step, n: nat)
    requires Enabled(s, step)
    ensures IdCount(Apply(s, step).heap, Apply(s, step).log, n)
              == IdCount(s.heap, s.log, n) + if step.PostAfter? && n == s.nextIdx then 1 else 0
  {
    hide IdCount;
    match step
    case PostAfter(h, d, heap) => PostCounts(s, DelayOp(s.nextIdx, h, d, d, false), heap, n);
    case Cancel(idx, heap) => CancelCounts(s, idx, heap, n);
    case Turn(t, heap) => TurnCounts(s, t, heap, n);
    case _ =>
  }

  lemma CountNext(run: seq<State>, steps: seq<Step>, i: nat, n: nat)
    requires IsTrace(run, steps) && 0 < i <= |steps|
    ensures IdCount(run[i].heap, run[i].log, n)
              == IdCount(run[i - 1].heap, run[i - 1].log, n)
                 + if steps[i - 1].PostAfter? && n == |Requests(steps, i - 1)| then 1 else 0
  {
    hide IdCount;
    StateFollowsSteps(run, steps, i - 1);
    assert TakesAt(run, steps, i - 1);
    hide Enabled, Apply;
    StepCountsIds(run[i - 1], steps[i - 1], n);
  }

  /** Every request with a deadline is in the heap or was taken, once. */
  lemma {:induction false} EveryRequestOnce(run: seq<State>, steps: seq<Step>, i: nat, n: nat)
    requires IsTrace(run, steps) && i <= |steps|
    ensures IdCount(run[i].heap, run[i].log, n) == if n < |Requests(steps, i)| then 1 else 0
  {
    if i > 0 {
      hide Enabled, Apply, IdCount, IsTrace;
      EveryRequestOnce(run, steps, i - 1, n);
      CountNext(run, steps, i, n);
    }
  }

  /** A worker that took a handle runs that one, and when it is back, it looks for the
      next and the handle is done. */
  lemma WorkersComeBack(run: seq<State>, steps: seq<Step>, k: nat, t: nat)
    requires IsTrace(run, steps) && k < |steps| && steps[k] == Resumed(t)
    ensures t < Workers(steps, k) && t < |run[k].workers| && run[k].workers[t].Running?
    ensures run[k + 1].workers == run[k].workers[t := Looking]
    ensures run[k + 1].done == run[k].done + multiset{run[k].workers[t].handle}
  {
    StateFollowsSteps(run, steps, k);
    assert TakesAt(run, steps, k);
  }

  /** Once the pool is idle and nobody runs a handle, all that was posted is done. */
  lemma IdleDidAllPosted(run: seq<State>, steps: seq<Step>, i: nat)
    requires IsTrace(run, steps) && i <= |steps| && Idle(run[i])
    requires forall t :: 0 <= t < |run[i].workers| ==> !run[i].workers[t].Running?
    ensures run[i].done == Given(steps, i) && Work(steps, i) == 0 && Dequeued(run[i].log) == Posted(steps, i)
  {
    TraceIsRun(run, steps);
    StateFollowsSteps(run, steps, i);
    QueueIsFirstInFirstOut(run, steps, i);
    ClosedPoolDidEverything(run, i);
    assert Dequeued(run[i].log) + [] == Dequeued(run[i].log);
  }
}
