/** The manual reset event seen from its steps: it is set exactly if the last call
    that counted was a `set`, and that decides who passes. */
module EventTraces {
  import opened ResetEvent

  /** Step `k` leads from `run[k]` to `run[k + 1]`. */
  ghost predicate TakesAt(run: seq<State>, steps: seq<Step>, k: int)
    requires |run| == |steps| + 1 && 0 <= k < |steps|
  {
    Enabled(run[k], steps[k]) && run[k + 1] == Apply(run[k], steps[k])
  }

  ghost predicate IsTrace(run: seq<State>, steps: seq<Step>) {
    && |run| == |steps| + 1 && Init(run[0])
    && forall k {:trigger TakesAt(run, steps, k)} :: 0 <= k < |steps| ==> TakesAt(run, steps, k)
  }

  lemma TraceIsRun(run: seq<State>, steps: seq<Step>)
    requires IsTrace(run, steps)
    ensures IsRun(run)
  {
    forall i | 0 < i < |run| ensures NextAt(run, i) {
      assert TakesAt(run, steps, i - 1);
    }
  }

  /** Whether the event is set after the first `i` steps. */
  predicate Signalled(initially: bool, steps: seq<Step>, i: nat)
    requires i <= |steps|
  {
    if i == 0 then initially
    else match steps[i - 1] case Set(_) => true case Reset => false case _ => Signalled(initially, steps, i - 1)
  }

  /** How many of the sets found the event not set. */
  function SetsThatCount(initially: bool, steps: seq<Step>, i: nat): nat
    requires i <= |steps|
  {
    if i == 0 then 0
    else
      SetsThatCount(initially, steps, i - 1)
      + if steps[i - 1].Set? && !Signalled(initially, steps, i - 1) then 1 else 0
  }

  lemma StepSignals(s: State, step: Step)
    requires Inv(s) && Enabled(s, step)
    ensures Apply(s, step).word == IsSet <==> if step.Set? then true else if step.Reset? then false else s.word == IsSet
    ensures Apply(s, step).sets == s.sets + if step.Set? && s.word != IsSet then 1 else 0
  {
    if step.Advance? { assert WaiterOk(s, step.id); }
  }

  lemma {:induction false} EventFollowsSteps(run: seq<State>, steps: seq<Step>, i: nat)
    requires IsTrace(run, steps) && i <= |steps|
    ensures run[i].word == IsSet <==> Signalled(run[0].word == IsSet, steps, i)
    ensures run[i].sets == SetsThatCount(run[0].word == IsSet, steps, i)
  {
    if i > 0 {
      EventFollowsSteps(run, steps, i - 1);
      TraceIsRun(run, steps);
      RunKeepsInv(run, i - 1);
      assert TakesAt(run, steps, i - 1);
      StepSignals(run[i - 1], steps[i - 1]);
    }
  }

  lemma LookDecides(s: State, id: nat)
    requires Inv(s) && Enabled(s, Advance(id))
    ensures id in Apply(s, Advance(id)).waiters
    ensures Apply(s, Advance(id)).waiters[id].pc == Passed <==> s.word == IsSet
    ensures Apply(s, Advance(id)).waiters[id].pc == Suspended <==> s.waiters[id].pc == Exchange(s.word)
  {
    assert WaiterOk(s, id);
  }

  /** An access of a waiter lets it pass exactly if the event is then set; it suspends
      exactly if its exchange finds the event as it saw it, not set and with the
      same waiter on top. */
  lemma PassesExactlyIfSet(run: seq<State>, steps: seq<Step>, k: nat, id: nat)
    requires IsTrace(run, steps) && k < |steps| && steps[k] == Advance(id)
    ensures id in run[k].waiters && id in run[k + 1].waiters
    ensures run[k + 1].waiters[id].pc == Passed <==> Signalled(run[0].word == IsSet, steps, k)
    ensures run[k + 1].waiters[id].pc == Suspended <==> run[k].waiters[id].pc == Exchange(run[k].word)
    ensures run[k + 1].waiters[id].pc == Suspended ==>
              run[k + 1].waiters[id].epoch == SetsThatCount(run[0].word == IsSet, steps, k)
  {
    TraceIsRun(run, steps);
    RunKeepsInv(run, k);
    assert TakesAt(run, steps, k);
    LookDecides(run[k], id);
    EventFollowsSteps(run, steps, k);
  }

  // ---------- from suspending to the next set ----------

  /** A waiter that suspended does not come back before a set: the event has then been
      set at least once more, and it is that set that resumed it. */
  predicate StillOrSetAfter(s: State, id: nat, epoch: nat) {
    && id in s.waiters && (s.waiters[id].pc == Suspended || s.waiters[id].pc == Resumed)
    && s.waiters[id].epoch == epoch
  }

  lemma StepKeepsSuspended(s: State, step: Step, id: nat, epoch: nat)
    requires Inv(s) && Enabled(s, step) && StillOrSetAfter(s, id, epoch)
    ensures StillOrSetAfter(Apply(s, step), id, epoch)
  {
    match step
    case ResumeNext(t) =>
      assert SetterOk(s, t);
      assert LinkAt(s.waiters, s.setters[t].rest, 0);
    case _ =>
  }

  lemma {:induction false} SuspendedStaysInPlace(run: seq<State>, steps: seq<Step>, k: nat, i: nat, id: nat)
    requires IsTrace(run, steps) && k < i <= |steps| && steps[k] == Advance(id)
    requires id in run[k + 1].waiters && run[k + 1].waiters[id].pc == Suspended
    ensures StillOrSetAfter(run[i], id, SetsThatCount(run[0].word == IsSet, steps, k))
    decreases i
  {
    if k < i - 1 {
      SuspendedStaysInPlace(run, steps, k, i - 1, id);
      TraceIsRun(run, steps);
      RunKeepsInv(run, i - 1);
      assert TakesAt(run, steps, i - 1);
      StepKeepsSuspended(run[i - 1], steps[i - 1], id, SetsThatCount(run[0].word == IsSet, steps, k));
    } else {
      PassesExactlyIfSet(run, steps, k, id);
    }
  }

  lemma ResumedCountsItsSet(s: State, id: nat)
    requires Inv(s) && id in s.waiters && s.waiters[id].pc == Resumed
    ensures s.waiters[id].setBy == s.waiters[id].epoch + 1
  {
    assert WaiterOk(s, id);
  }

  /** A waiter that suspended and was resumed was resumed by the next set that found
      the event not set, after it suspended. */
  lemma ResumedBySetAfter(run: seq<State>, steps: seq<Step>, k: nat, i: nat, id: nat)
    requires IsTrace(run, steps) && k < i <= |steps| && steps[k] == Advance(id)
    requires id in run[k + 1].waiters && run[k + 1].waiters[id].pc == Suspended
    requires id in run[i].waiters && run[i].waiters[id].pc == Resumed
    ensures run[i].waiters[id].setBy == SetsThatCount(run[0].word == IsSet, steps, k) + 1
  {
    SuspendedStaysInPlace(run, steps, k, i, id);
    TraceIsRun(run, steps);
    RunKeepsInv(run, i);
    ResumedCountsItsSet(run[i], id);
  }
}
