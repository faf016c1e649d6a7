/** The single-producer sequencer seen from its steps. */
module SpscTraces {
  import opened SequenceSpscs

  /** Step `k` leads from `run[k]` to `run[k + 1]`. */
  ghost predicate TakesAt(run: seq<State>, steps: seq<Step>, k: int)
    requires |run| == |steps| + 1 && 0 <= k < |steps|
  {
    Enabled(run[k], steps[k]) && run[k + 1] == Apply(run[k], steps[k])
  }

  ghost predicate IsTrace(run: seq<State>, steps: seq<Step>) {
    && |run| == |steps| + 1 && Init(run[0])
    && forall k {:trigger TakesAt(run, steps, k)} :: 0 <= k < |steps| ==> TakesAt(run, steps, k)
  }

  /** Out of what is available, told that everything up to `observed` is released, a
      claim takes what it asked for, or all. */
  function Share(count: int, available: int): int { if count < available then count else available }

  /** The number after the last one claimed. */
  function NextNumber(initial: int, size: nat, steps: seq<Step>, i: nat): int
    requires i <= |steps|
  {
    if i == 0 then initial + 1
    else
      var next := NextNumber(initial, size, steps, i - 1);
      if steps[i - 1].Claim? then next + Share(steps[i - 1].count, steps[i - 1].observed + size - next + 1) else next
  }

  function LastPublished(initial: int, steps: seq<Step>, i: nat): int
    requires i <= |steps|
  {
    if i == 0 then initial
    else if steps[i - 1].Publish? then steps[i - 1].last else LastPublished(initial, steps, i - 1)
  }

  function LastReleased(initial: int, steps: seq<Step>, i: nat): int
    requires i <= |steps|
  {
    if i == 0 then initial
    else if steps[i - 1].Release? then steps[i - 1].last else LastReleased(initial, steps, i - 1)
  }

  /** Claimed, published and released numbers are those of the steps. */
  lemma {:induction false} StateFollowsSteps(run: seq<State>, steps: seq<Step>, i: nat)
    requires IsTrace(run, steps) && i <= |steps|
    ensures run[i].size == run[0].size && run[i].initial == run[0].initial
    ensures run[i].next == NextNumber(run[0].initial, run[0].size, steps, i)
    ensures run[i].published == LastPublished(run[0].initial, steps, i)
    ensures run[i].released == LastReleased(run[0].initial, steps, i)
  {
    if i > 0 {
      StateFollowsSteps(run, steps, i - 1);
      assert TakesAt(run, steps, i - 1);
    }
  }
}
