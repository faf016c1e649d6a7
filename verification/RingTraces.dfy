/** The ring-buffer protocol seen from its steps: what was claimed, published,
    learned and released is what the steps of a run say. */
module RingTraces {
  import opened Ring
  import opened RingResults

  /** Step `k` leads from `run[k]` to `run[k + 1]`. */
  ghost predicate TakesAt(run: seq<State>, steps: seq<Step>, k: int)
    requires |run| == |steps| + 1 && 0 <= k < |steps|
  {
    && run[k].size > 0 && |run[k].slots| == run[k].size
    && Enabled(run[k], steps[k]) && run[k + 1] == Apply(run[k], steps[k])
  }

  ghost predicate IsTrace(run: seq<State>, steps: seq<Step>) {
    && |run| == |steps| + 1 && Init(run[0])
    && forall k {:trigger TakesAt(run, steps, k)} :: 0 <= k < |steps| ==> TakesAt(run, steps, k)
  }

  lemma TraceIsRun(run: seq<State>, steps: seq<Step>)
    requires IsTrace(run, steps)
    ensures IsRun(run)
  {
    forall i | 0 < i < |run| ensures NextAt(run, i) {
      assert TakesAt(run, steps, i - 1);
    }
  }

  // ---------- what the first `i` steps say ----------

  /** How many numbers a claim of `count` takes. */
  function Share(count: nat, size: nat): nat { if count < size then count else size }

  function Taken(size: nat, steps: seq<Step>, i: nat): nat
    requires i <= |steps|
  {
    if i == 0 then 0
    else Taken(size, steps, i - 1) + if steps[i - 1].ClaimUpTo? then Share(steps[i - 1].count, size) else 0
  }

  function Learned(initial: int, steps: seq<Step>, i: nat): int
    requires i <= |steps|
  {
    if i == 0 then initial else if steps[i - 1].Learn? then steps[i - 1].v else Learned(initial, steps, i - 1)
  }

  function Released(initial: int, steps: seq<Step>, i: nat): int
    requires i <= |steps|
  {
    if i == 0 then initial else if steps[i - 1].Consume? then steps[i - 1].v else Released(initial, steps, i - 1)
  }

  function Stored(steps: seq<Step>, i: nat): set<int>
    requires i <= |steps|
  {
    if i == 0 then {} else Stored(steps, i - 1) + if steps[i - 1].Store? then {steps[i - 1].x} else {}
  }

  // ---------- and what the states hold ----------

  /** The numbers are those that the claims took, the published ones those that were
      stored, and the consumer's numbers those of its own steps. */
  lemma {:induction false} StateFollowsSteps(run: seq<State>, steps: seq<Step>, i: nat)
    requires IsTrace(run, steps) && i <= |steps|
    ensures run[i].size == run[0].size && run[i].initial == run[0].initial
    ensures run[i].next == run[0].initial + 1 + Taken(run[0].size, steps, i)
    ensures run[i].published == Stored(steps, i)
    ensures run[i].known == Learned(run[0].initial, steps, i)
    ensures run[i].consumed == Released(run[0].initial, steps, i)
  {
    if i > 0 {
      StateFollowsSteps(run, steps, i - 1);
      assert TakesAt(run, steps, i - 1);
    }
  }

  lemma StepKeepsClaims(s: State, step: Step, p: nat)
    requires s.size > 0 && |s.slots| == s.size && Enabled(s, step) && p in s.claims
    ensures var s' := Apply(s, step);
            p in s'.claims && s'.claims[p].first == s.claims[p].first && s'.claims[p].count == s.claims[p].count
  {
  }

  /** A claim takes the numbers after all earlier claims, as many as it asked for, or
      a whole buffer if it asked for more, and keeps them. */
  lemma {:induction false} ClaimTakesItsShare(run: seq<State>, steps: seq<Step>, k: nat, i: nat, p: nat, count: nat)
    requires IsTrace(run, steps) && k < i <= |steps| && steps[k] == ClaimUpTo(p, count)
    ensures p in run[i].claims
    ensures run[i].claims[p].first == run[0].initial + 1 + Taken(run[0].size, steps, k)
    ensures run[i].claims[p].count == Share(count, run[0].size)
    decreases i
  {
    assert TakesAt(run, steps, i - 1);
    if k < i - 1 {
      ClaimTakesItsShare(run, steps, k, i - 1, p, count);
      StepKeepsClaims(run[i - 1], steps[i - 1], p);
    } else {
      StateFollowsSteps(run, steps, k);
    }
  }

  /** Exactly these numbers become claimed. */
  lemma ClaimMakesClaimed(s: State, p: nat, count: nat, x: int)
    requires Inv(s) && Enabled(s, ClaimUpTo(p, count))
    ensures var s' := Apply(s, ClaimUpTo(p, count));
            Claimed(s'.initial, s'.order, x) <==>
              Claimed(s.initial, s.order, x) || s.next <= x < s.next + Share(count, s.size)
  {
  }
}
