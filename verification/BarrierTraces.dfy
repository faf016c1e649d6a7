/** The sequence barrier seen from its steps: what was published, and what each
    waiter waits for, are what the steps of the publisher and the waiters say. */
module BarrierTraces {
  import opened Lists
  import opened BarrierProtocol
  import opened BarrierResults

  /** Step `k` leads from `run[k]` to `run[k + 1]`. */
  ghost predicate TakesAt(run: seq<State>, steps: seq<Step>, k: int)
    requires |run| == |steps| + 1 && 0 <= k < |steps|
  {
    Enabled(run[k], steps[k]) && run[k + 1] == Apply(run[k], steps[k])
  }

  ghost predicate IsTrace(run: seq<State>, steps: seq<Step>) {
    && |run| == |steps| + 1 && Init(run[0])
    && forall k {:trigger TakesAt(run, steps, k)} :: 0 <= k < |steps| ==> TakesAt(run, steps, k)
  }

  lemma TraceIsRun(run: seq<State>, steps: seq<Step>)
    requires IsTrace(run, steps)
    ensures IsRun(run)
  {
    forall i | 0 < i < |run| ensures NextAt(run, i) {
      assert TakesAt(run, steps, i - 1);
    }
  }

  // ---------- what the first `i` steps say ----------

  function LastPublished(initial: int, steps: seq<Step>, i: nat): int
    requires i <= |steps|
  {
    if i == 0 then initial
    else if steps[i - 1].Publish? then steps[i - 1].value else LastPublished(initial, steps, i - 1)
  }

  /** What waiter `w` waits for. */
  function Awaited(steps: seq<Step>, i: nat, w: nat): Option<int>
    requires i <= |steps|
  {
    if i == 0 then None
    else if steps[i - 1].Await? && steps[i - 1].id == w then Some(steps[i - 1].target)
    else Awaited(steps, i - 1, w)
  }

  // ---------- and what the states hold ----------

  lemma AdvanceKeepsTargets(s: State, t: Thread, w: nat)
    requires Enabled(s, Advance(t))
    ensures var s' := Apply(s, Advance(t));
            && s'.last == s.last && (w in s'.waiters <==> w in s.waiters)
            && (w in s.waiters ==> s'.waiters[w].target == s.waiters[w].target)
  {
  }

  lemma {:induction false} StateFollowsSteps(run: seq<State>, steps: seq<Step>, i: nat, w: nat)
    requires IsTrace(run, steps) && i <= |steps|
    ensures run[i].last == LastPublished(run[0].last, steps, i)
    ensures Awaited(steps, i, w) == if w in run[i].waiters then Some(run[i].waiters[w].target) else None
  {
    if i > 0 {
      StateFollowsSteps(run, steps, i - 1, w);
      assert TakesAt(run, steps, i - 1);
      if steps[i - 1].Advance? { AdvanceKeepsTargets(run[i - 1], steps[i - 1].thread, w); }
    }
  }

  /** A waiter goes on without suspending exactly if its number was published when it
      began to wait. */
  lemma GoesOnIfPublished(run: seq<State>, steps: seq<Step>, k: nat, w: nat, target: int)
    requires IsTrace(run, steps) && k < |steps| && steps[k] == Await(w, target)
    ensures w in run[k + 1].waiters
    ensures run[k + 1].waiters[w].runs == if target <= LastPublished(run[0].last, steps, k) then 1 else 0
  {
    StateFollowsSteps(run, steps, k, w);
    assert TakesAt(run, steps, k);
  }

  /** Whoever continued awaited a number that had been published by then. */
  lemma ContinuedAfterPublishing(run: seq<State>, steps: seq<Step>, i: nat, w: nat)
    requires IsTrace(run, steps) && i <= |steps| && w in run[i].waiters && run[i].waiters[w].runs > 0
    ensures Awaited(steps, i, w).Some?
    ensures Awaited(steps, i, w).value <= run[i].waiters[w].known <= LastPublished(run[0].last, steps, i)
  {
    TraceIsRun(run, steps);
    StateFollowsSteps(run, steps, i, w);
    ResumedExactlyOnce(run, i, w);
  }

  /** With no thread inside an operation, everybody who awaited a number that has been
      published has continued once, and everybody else is listed. */
  lemma AtRestAllContinued(run: seq<State>, steps: seq<Step>, i: nat, w: nat)
    requires IsTrace(run, steps) && i <= |steps| && AtRest(run[i]) && Awaited(steps, i, w).Some?
    ensures w in run[i].waiters
    ensures Awaited(steps, i, w).value <= LastPublished(run[0].last, steps, i) ==> run[i].waiters[w].runs == 1
    ensures run[i].waiters[w].runs != 1 ==> run[i].waiters[w].runs == 0 && w in run[i].list
  {
    TraceIsRun(run, steps);
    StateFollowsSteps(run, steps, i, w);
    NoSatisfiedWaiterSleeps(run, i, w);
  }
}
