/** The multi-producer sequencer's waits seen from their steps: the consumer goes on
    for the targets that it asked for, in order, and what counts as published is
    what the producers' steps stored. */
module MpscTraces {
  import opened Lists
  import R = Ring
  import opened MpscProtocol
  import opened MpscResults

  /** Step `k` leads from `run[k]` to `run[k + 1]`. */
  ghost predicate TakesAt(run: seq<State>, steps: seq<Step>, k: int)
    requires |run| == |steps| + 1 && 0 <= k < |steps|
  {
    && run[k].ring.size > 0 && |run[k].ring.slots| == run[k].ring.size
    && Enabled(run[k], steps[k]) && run[k + 1] == Apply(run[k], steps[k])
  }

  ghost predicate IsTrace(run: seq<State>, steps: seq<Step>) {
    && |run| == |steps| + 1 && Init(run[0])
    && forall k {:trigger TakesAt(run, steps, k)} :: 0 <= k < |steps| ==> TakesAt(run, steps, k)
  }

  lemma TraceIsRun(run: seq<State>, steps: seq<Step>)
    requires IsTrace(run, steps)
    ensures IsRun(run)
  {
    forall i | 0 < i < |run| ensures NextAt(run, i) {
      assert TakesAt(run, steps, i - 1);
    }
  }

  // ---------- what the first `i` steps say ----------

  function Stored(steps: seq<Step>, i: nat): set<int>
    requires i <= |steps|
  {
    if i == 0 then {}
    else Stored(steps, i - 1) + if steps[i - 1].StoreTail? || steps[i - 1].StoreLast? then {steps[i - 1].x} else {}
  }

  /** The targets of the waits that began with a target not yet known, in order. */
  function Targets(steps: seq<Step>, i: nat): seq<int>
    requires i <= |steps|
  {
    if i == 0 then []
    else
      Targets(steps, i - 1)
      + if steps[i - 1].BeginWait? && steps[i - 1].known < steps[i - 1].target then [steps[i - 1].target] else []
  }

  function Released(initial: int, steps: seq<Step>, i: nat): int
    requires i <= |steps|
  {
    if i == 0 then initial else if steps[i - 1].Consume? then steps[i - 1].v else Released(initial, steps, i - 1)
  }

  // ---------- and what the states hold ----------

  /** The targets that were answered, and the one being waited for. */
  function Answers(log: seq<Woken>): (targets: seq<int>)
    ensures |targets| == |log| && forall j :: 0 <= j < |log| ==> targets[j] == log[j].target
  {
    seq(|log|, j requires 0 <= j < |log| => log[j].target)
  }

  function Asked(s: State): seq<int> { Answers(s.log) + if s.consumer == Running then [] else [s.wait.target] }

  lemma StepAsks(s: State, step: Step)
    requires Inv(s) && Enabled(s, step)
    ensures Asked(Apply(s, step)) == Asked(s) + if step.BeginWait? && step.known < step.target then [step.target] else []
  {
    ContinuesTheWaiter(s, step);
  }

  /** Producers and consumer at the waiter list leave the published numbers alone. */
  predicate SameRing(s: State, s': State) {
    && s'.ring.published == s.ring.published && s'.ring.consumed == s.ring.consumed
    && s'.ring.initial == s.ring.initial
  }

  lemma ProducerSparesRing(s: State, t: nat)
    requires Busy(s, t)
    ensures SameRing(s, Advance(s, t))
  {
  }

  lemma ConsumerSparesRing(s: State)
    requires s.ring.size > 0 && |s.ring.slots| == s.ring.size && s.consumer != Running && s.consumer != Suspended
    ensures SameRing(s, ConsumerAdvance(s))
  {
  }

  lemma StepStores(s: State, step: Step)
    requires s.ring.size > 0 && |s.ring.slots| == s.ring.size && Enabled(s, step)
    ensures var s' := Apply(s, step);
            && s'.ring.published == s.ring.published + (if step.StoreTail? || step.StoreLast? then {step.x} else {})
            && s'.ring.consumed == (if step.Consume? then step.v else s.ring.consumed)
            && s'.ring.initial == s.ring.initial
  {
    match step
    case Produce(t) => ProducerSparesRing(s, t);
    case Await => ConsumerSparesRing(s);
    case _ =>
  }

  lemma {:induction false} StateFollowsSteps(run: seq<State>, steps: seq<Step>, i: nat)
    requires IsTrace(run, steps) && i <= |steps|
    ensures run[i].ring.initial == run[0].ring.initial && run[i].ring.published == Stored(steps, i)
    ensures run[i].ring.consumed == Released(run[0].ring.initial, steps, i)
    ensures Asked(run[i]) == Targets(steps, i)
  {
    if i > 0 {
      StateFollowsSteps(run, steps, i - 1);
      TraceIsRun(run, steps);
      RunKeepsInv(run, i - 1);
      assert TakesAt(run, steps, i - 1);
      StepStores(run[i - 1], steps[i - 1]);
      StepAsks(run[i - 1], steps[i - 1]);
    }
  }

  /** The waits that suspended, or tried to, are answered in order: the `j`-th
      continuation is for the `j`-th target, with a value not before it up to which
      everything was stored. */
  lemma AnsweredInOrder(run: seq<State>, steps: seq<Step>, i: nat, j: nat)
    requires IsTrace(run, steps) && i <= |steps| && j < |run[i].log|
    ensures |run[i].log| == |Targets(steps, i)| - if run[i].consumer == Running then 0 else 1
    ensures j < |Targets(steps, i)| && run[i].log[j].target == Targets(steps, i)[j] <= run[i].log[j].value
    ensures forall x :: run[0].ring.initial < x <= run[i].log[j].value ==> x in Stored(steps, i)
  {
    TraceIsRun(run, steps);
    StateFollowsSteps(run, steps, i);
    ContinuedOnce(run, i);
    assert Asked(run[i])[j] == Answers(run[i].log)[j];
  }

  /** With all producers outside, a sleeping consumer waits for its last target, and
      some number up to that target was not stored. */
  lemma SleepsOnlyForUnstored(run: seq<State>, steps: seq<Step>, i: nat)
    requires IsTrace(run, steps) && i <= |steps|
    requires run[i].consumer == Suspended && forall t :: t in run[i].threads ==> run[i].threads[t] == User
    ensures Targets(steps, i) != []
    ensures exists x :: x <= Targets(steps, i)[|Targets(steps, i)| - 1] && x > run[0].ring.initial && x !in Stored(steps, i)
  {
    TraceIsRun(run, steps);
    StateFollowsSteps(run, steps, i);
    SleepsOnlyForMissing(run, i);
    var s := run[i];
    assert Asked(s)[|Asked(s)| - 1] == s.wait.target;
    var x :| s.wait.known < x <= s.wait.target && x !in s.ring.published;
    RunKeepsInv(run, i);
    KnownIsNotBefore(s);
  }

  lemma KnownIsNotBefore(s: State)
    requires Inv(s) && s.consumer != Running
    ensures s.ring.initial <= s.wait.known
  {
  }
}
