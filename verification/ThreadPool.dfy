/** The thread pool's fields. Each method is one region under the mutex and takes
    one step of ThreadPoolProtocol, after the clock. */
module ThreadPools {
  import opened ThreadPoolProtocol

  /** What a worker does after its turn. */
  datatype Outcome = Return | Wait | Again | Resume(handle: nat)

  /** Stands for the standard library's heap operations: the earliest operation
      comes to the front. */
  method MakeHeap(ops: seq<DelayOp>) returns (heap: seq<DelayOp>)
    ensures Arranged(heap, ops)
  {
    if ops == [] { return ops; }
    var k := 0;
    for i := 1 to |ops|
      invariant k < |ops| && forall j :: 0 <= j < i ==> ops[k].deadline <= ops[j].deadline
    {
      if ops[i].deadline < ops[k].deadline { k := i; }
    }
    SwapKeepsBag(ops, k);
    heap := Swapped(ops, k);
  }

  function Swapped(ops: seq<DelayOp>, k: nat): (after: seq<DelayOp>)
    requires k < |ops|
    ensures |after| == |ops|
  {
    ops[0 := ops[k]][k := ops[0]]
  }

  lemma SwapKeepsBag(ops: seq<DelayOp>, k: nat)
    requires k < |ops|
    ensures multiset(Swapped(ops, k)) == multiset(ops)
  {
  }

  class ThreadPoolState {
    var deque: seq<nat>
    var heap: seq<DelayOp>
    var work: nat
    var delayOpIdx: nat
    ghost var state: State

    ghost predicate Valid()
      reads this
    {
      && Inv(state) && deque == state.deque && heap == state.heap
      && work == state.work && delayOpIdx == state.nextIdx
    }

    constructor (ghost now: int)
      ensures Valid() && Init(state)
    {
      deque, heap, work, delayOpIdx := [], [], 0, 0;
      state := State([], [], 0, 0, now, [], multiset{}, multiset{}, []);
    }

    /** A clock reading. */
    ghost method Clock(now: int)
      requires Valid() && state.now <= now
      modifies this`state
      ensures Valid() && state == Apply(old(state), Tick(now))
    {
      StepPreserves(state, Tick(now));
      state := Apply(state, Tick(now));
    }

    method Post(handle: nat)
      requires Valid()
      modifies this
      ensures Valid() && state == Apply(old(state), Step.Post(handle))
      ensures deque == old(deque) + [handle] && state.given == old(state.given) + multiset{handle}
      ensures heap == old(heap) && work == old(work) && delayOpIdx == old(delayOpIdx)
    {
      StepPreserves(state, Step.Post(handle));
      deque := deque + [handle];
      state := Apply(state, Step.Post(handle));
    }

    /** A worker of this pool goes on by itself; anybody else's handle is queued. */
    method TryDispatch(handle: nat, onWorker: bool) returns (inlined: bool)
      requires Valid()
      modifies this
      ensures Valid() && inlined == onWorker
      ensures state == if onWorker then old(state) else Apply(old(state), Step.Post(handle))
      ensures deque == if onWorker then old(deque) else old(deque) + [handle]
    {
      if !onWorker { Post(handle); }
      inlined := onWorker;
    }

    /** `idx` is the index that the stop callback will cancel, should it be called. */
    method PostAfter(handle: nat, deadline: int, stopRequested: bool) returns (idx: nat)
      requires Valid()
      modifies this
      ensures Valid()
      ensures stopRequested ==> state == Apply(old(state), Step.Post(handle))
      ensures !stopRequested ==> Enabled(old(state), Step.PostAfter(handle, deadline, heap))
                                 && state == Apply(old(state), Step.PostAfter(handle, deadline, heap))
      ensures state.given == old(state.given) + multiset{handle} && idx == old(delayOpIdx)
      ensures if stopRequested then
                deque == old(deque) + [handle] && heap == old(heap) && delayOpIdx == old(delayOpIdx)
              else
                && deque == old(deque) && delayOpIdx == old(delayOpIdx) + 1 && EarliestFirst(heap)
                && multiset(heap) == multiset(old(heap))
                                       + multiset{DelayOp(old(delayOpIdx), handle, deadline, deadline, false)}
    {
      idx := delayOpIdx;
      if stopRequested {
        Post(handle);
      } else {
        heap := MakeHeap(heap + [DelayOp(delayOpIdx, handle, deadline, deadline, false)]);
        delayOpIdx := delayOpIdx + 1;
        ghost var step := Step.PostAfter(handle, deadline, heap);
        StepPreserves(state, step);
        state := Apply(state, step);
      }
    }

    /** Cancelling makes the operation due now, if it is still in the heap. */
    method CancelDelayOp(idx: nat, now: int) returns (notify: bool)
      requires Valid() && state.now <= now
      modifies this
      ensures Valid()
      ensures var ticked := Apply(old(state), Tick(now));
              Enabled(ticked, Cancel(idx, heap)) && state == Apply(ticked, Cancel(idx, heap))
      ensures Arranged(heap, Cancelled(old(heap), idx, now)) && deque == old(deque) && work == old(work)
      ensures notify <==> exists i :: 0 <= i < |old(heap)| && old(heap)[i].idx == idx
    {
      Clock(now);
      var ops;
      notify, ops := Hurry(heap, idx, now);
      Rearrange(ops, notify, idx);
    }

    /** The heap again, after a search that may have changed an operation. */
    method Rearrange(ops: seq<DelayOp>, changed: bool, ghost idx: nat)
      requires Valid() && ops == Cancelled(heap, idx, state.now) && (!changed ==> ops == heap)
      modifies this
      ensures Valid() && Enabled(old(state), Cancel(idx, heap)) && state == Apply(old(state), Cancel(idx, heap))
      ensures deque == old(deque) && work == old(work)
    {
      if changed { heap := MakeHeap(ops); }
      StepPreserves(state, Cancel(idx, heap));
      state := Apply(state, Cancel(idx, heap));
    }

    method WorkUp()
      requires Valid()
      modifies this
      ensures Valid() && state == Apply(old(state), Step.WorkUp) && work == old(work) + 1
    {
      work := work + 1;
      StepPreserves(state, Step.WorkUp);
      state := Apply(state, Step.WorkUp);
    }

    /** Letting go of a piece of work wakes the waiting workers when it was the
        last. */
    method WorkDown() returns (notifyAll: bool)
      requires Valid() && work > 0
      modifies this
      ensures Valid() && state == Apply(old(state), Step.WorkDown)
      ensures work == old(work) - 1 && (notifyAll <==> work == 0)
    {
      work := work - 1;
      notifyAll := work == 0;
      StepPreserves(state, Step.WorkDown);
      state := Apply(state, Step.WorkDown);
    }

    /** One turn of the worker loop, from its test, or from the end of a wait. */
    method Turn(now: int, looking: bool, ghost t: nat) returns (outcome: Outcome)
      requires Valid() && state.now <= now && t < |state.workers|
      requires state.workers[t] == if looking then Looking else Waiting
      modifies this
      ensures Valid()
      ensures var ticked := Apply(old(state), Tick(now));
              && Enabled(ticked, Step.Turn(t, heap)) && state == Apply(ticked, Step.Turn(t, heap))
              && state.workers[t] == match outcome
                                     case Return => Returned
                                     case Wait => Waiting
                                     case Again => Looking
                                     case Resume(h) => Running(h)
      ensures outcome == Return <==> looking && old(work) == 0 && old(deque) == [] && old(heap) == []
      ensures work == old(work)
      ensures if old(heap) != [] && old(heap)[0].deadline <= now then
                outcome == Resume(old(heap)[0].handle) && Arranged(heap, old(heap)[1..]) && deque == old(deque)
              else if old(deque) != [] then
                outcome == Resume(old(deque)[0]) && deque == old(deque)[1..] && heap == old(heap)
              else
                && deque == old(deque) && heap == old(heap)
                && outcome == if !looking then Again else if old(work) == 0 && heap == [] then Return else Wait
    {
      Clock(now);
      if looking && work == 0 && deque == [] && heap == [] {
        Move(t);
        outcome := Return;
      } else if heap != [] && heap[0].deadline <= now {
        var handle := PopDelayed(t);
        outcome := Resume(handle);
      } else if deque != [] {
        var handle := PopQueued(t);
        outcome := Resume(handle);
      } else {
        Move(t);
        outcome := if looking then Wait else Again;
      }
    }

    /** A turn that takes nothing. */
    ghost method Move(t: nat)
      requires Valid() && Enabled(state, Step.Turn(t, heap)) && !Due(state)
      requires deque == []
      modifies this`state
      ensures Valid() && state == Apply(old(state), Step.Turn(t, heap))
    {
      StepPreserves(state, Step.Turn(t, heap));
      state := Apply(state, Step.Turn(t, heap));
    }

    method PopDelayed(ghost t: nat) returns (handle: nat)
      requires Valid() && t < |state.workers| && (state.workers[t] == Looking || state.workers[t] == Waiting) && Due(state)
      modifies this
      ensures Valid() && Enabled(old(state), Step.Turn(t, heap)) && state == Apply(old(state), Step.Turn(t, heap))
      ensures state.workers[t] == Running(handle)
    {
      handle := heap[0].handle;
      heap := MakeHeap(heap[1..]);
      StepPreserves(state, Step.Turn(t, heap));
      state := Apply(state, Step.Turn(t, heap));
    }

    method PopQueued(ghost t: nat) returns (handle: nat)
      requires Valid() && Enabled(state, Step.Turn(t, heap)) && !Due(state) && deque != []
      modifies this
      ensures Valid() && heap == old(heap) && state == Apply(old(state), Step.Turn(t, heap))
      ensures state.workers[t] == Running(handle)
    {
      handle := deque[0];
      deque := deque[1..];
      StepPreserves(state, Step.Turn(t, heap));
      state := Apply(state, Step.Turn(t, heap));
    }
  }

  /** The search for an operation: it finds the one with the given index, if any,
      and changes no other. */
  method Hurry(heap: seq<DelayOp>, idx: nat, now: int) returns (found: bool, ops: seq<DelayOp>)
    ensures ops == Cancelled(heap, idx, now)
    ensures found <==> exists i :: 0 <= i < |heap| && heap[i].idx == idx
    ensures !found ==> ops == heap
  {
    for i := 0 to |heap|
      invariant forall j :: 0 <= j < i ==> heap[j].idx != idx
    {
      if heap[i].idx == idx {
        CancelledAt(heap, idx, now, i);
        found, ops := true, heap[i := Hurried(heap[i], now)];
        return;
      }
    }
    CancelledNowhere(heap, idx, now);
    found, ops := false, heap;
  }

  lemma {:induction false} CancelledAt(heap: seq<DelayOp>, idx: nat, now: int, i: nat)
    requires i < |heap| && heap[i].idx == idx && forall j :: 0 <= j < i ==> heap[j].idx != idx
    ensures Cancelled(heap, idx, now) == heap[i := Hurried(heap[i], now)]
  {
    if i > 0 { CancelledAt(heap[1..], idx, now, i - 1); }
  }

  lemma {:induction false} CancelledNowhere(heap: seq<DelayOp>, idx: nat, now: int)
    requires forall j :: 0 <= j < |heap| ==> heap[j].idx != idx
    ensures Cancelled(heap, idx, now) == heap
  {
    if heap != [] { CancelledNowhere(heap[1..], idx, now); }
  }
}
