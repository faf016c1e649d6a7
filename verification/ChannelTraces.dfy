/** The channel seen from its steps: what is popped is what the senders' own steps
    assigned. */
module ChannelTraces {
  import opened Lists
  import R = Ring
  import opened ChannelProtocol
  import opened ChannelResults

  /** Step `k` leads from `run[k]` to `run[k + 1]`. */
  ghost predicate TakesAt<V(!new)>(run: seq<State<V>>, steps: seq<Step<V>>, k: int)
    requires |run| == |steps| + 1 && 0 <= k < |steps|
  {
    WellFormed(run[k]) && Enabled(run[k], steps[k]) && run[k + 1] == Apply(run[k], steps[k])
  }

  ghost predicate IsTrace<V(!new)>(run: seq<State<V>>, steps: seq<Step<V>>) {
    && |run| == |steps| + 1 && Init(run[0])
    && forall k {:trigger TakesAt(run, steps, k)} :: 0 <= k < |steps| ==> TakesAt(run, steps, k)
  }

  lemma TraceIsRun<V(!new)>(run: seq<State<V>>, steps: seq<Step<V>>)
    requires IsTrace(run, steps)
    ensures IsRun(run)
  {
    forall i | 0 < i < |run| ensures NextAt(run, i) {
      assert TakesAt(run, steps, i - 1);
    }
  }

  // ---------- what the first `i` steps say ----------

  /** The claims, in the order in which they were made. */
  function Claims<V>(steps: seq<Step<V>>, i: nat): seq<nat>
    requires i <= |steps|
  {
    if i == 0 then [] else Claims(steps, i - 1) + if steps[i - 1].Claim? then [steps[i - 1].id] else []
  }

  /** What claim `p` is for. */
  function Purpose<V>(steps: seq<Step<V>>, i: nat, p: nat): Option<Kind>
    requires i <= |steps|
  {
    if i == 0 then None
    else if steps[i - 1].Claim? && steps[i - 1].id == p then Some(steps[i - 1].kind)
    else Purpose(steps, i - 1, p)
  }

  /** The value that claim `p`'s sender assigned last. */
  function LastAssigned<V>(steps: seq<Step<V>>, i: nat, p: nat): Option<V>
    requires i <= |steps|
  {
    if i == 0 then None
    else if steps[i - 1].Assign? && steps[i - 1].id == p then Some(steps[i - 1].v)
    else LastAssigned(steps, i - 1, p)
  }

  function Pops<V>(steps: seq<Step<V>>, i: nat): nat
    requires i <= |steps|
  {
    if i == 0 then 0 else Pops(steps, i - 1) + if steps[i - 1].Pop? then 1 else 0
  }

  // ---------- and what the states hold ----------

  lemma StepOrders<V>(s: State<V>, step: Step<V>)
    requires Inv(s) && Enabled(s, step)
    ensures var s' := Apply(s, step);
            && s'.ring.order == s.ring.order + (if step.Claim? then [step.id] else [])
            && s'.kinds == (if step.Claim? then s.kinds[step.id := step.kind] else s.kinds)
            && |s'.popped| == |s.popped| + if step.Pop? then 1 else 0
  {
    if step.Claim? { assert seq(1, _ => step.id) == [step.id]; }
  }

  lemma {:induction false} StateFollowsSteps<V(!new)>(run: seq<State<V>>, steps: seq<Step<V>>, i: nat)
    requires IsTrace(run, steps) && i <= |steps|
    ensures run[i].ring.order == Claims(steps, i) && |run[i].popped| == Pops(steps, i)
    ensures forall p :: Purpose(steps, i, p) == if p in run[i].kinds then Some(run[i].kinds[p]) else None
  {
    if i > 0 {
      StateFollowsSteps(run, steps, i - 1);
      TraceIsRun(run, steps);
      RunKeepsInv(run, i - 1);
      assert TakesAt(run, steps, i - 1);
      StepOrders(run[i - 1], steps[i - 1]);
    }
  }

  /** What a claim's number holds, as the state records it. */
  function Recorded<V>(s: State<V>, p: nat): Option<V>
    requires p in s.ring.claims
  {
    Content(s.written, s.ring.claims[p].first)
  }

  lemma FirstIsOwn<V>(s: State<V>, p: nat, q: nat)
    requires Inv(s) && p in s.ring.claims && q in s.ring.claims && p != q
    ensures s.ring.claims[p].first != s.ring.claims[q].first
  {
    ClaimOwns(s.ring, p, s.ring.claims[p].first);
    ClaimOwns(s.ring, q, s.ring.claims[q].first);
  }

  /** A step records a value for a claim only by assigning it there. */
  lemma StepRecords<V>(s: State<V>, step: Step<V>, p: nat)
    requires Inv(s) && Enabled(s, step) && p in s.ring.claims
    ensures p in Apply(s, step).ring.claims
    ensures Recorded(Apply(s, step), p) == if step.Assign? && step.id == p then Some(step.v) else Recorded(s, p)
  {
    if step.Assign? && step.id != p { FirstIsOwn(s, p, step.id); }
  }

  lemma NewRecordsNothing<V>(s: State<V>, p: nat, kind: Kind)
    requires Inv(s) && Enabled(s, Claim(p, kind))
    ensures p in Apply(s, Claim(p, kind)).ring.claims && Recorded(Apply(s, Claim(p, kind)), p) == None
  {
    if s.ring.next in s.written { WrittenIsGranted(s, s.ring.next); }
  }

  lemma {:induction false} RecordsAreAssigned<V(!new)>(run: seq<State<V>>, steps: seq<Step<V>>, i: nat, p: nat)
    requires IsTrace(run, steps) && i <= |steps|
    ensures p in run[i].ring.claims ==> Recorded(run[i], p) == LastAssigned(steps, i, p)
    ensures p !in run[i].ring.claims ==> LastAssigned(steps, i, p) == None
  {
    if i > 0 {
      RecordsAreAssigned(run, steps, i - 1, p);
      TraceIsRun(run, steps);
      RunKeepsInv(run, i - 1);
      assert TakesAt(run, steps, i - 1);
      var s, step := run[i - 1], steps[i - 1];
      if p in s.ring.claims {
        StepRecords(s, step, p);
      } else if step.Claim? && step.id == p {
        NewRecordsNothing(s, p, step.kind);
      }
    }
  }

  /** First in, first out, in terms of the steps alone: the `j`-th pop found what the
      sender of the `j`-th claim assigned last, and nothing exactly if that claim
      was made to close the channel. */
  lemma PopsWhatWasPushed<V(!new)>(run: seq<State<V>>, steps: seq<Step<V>>, i: nat, j: nat)
    requires IsTrace(run, steps) && i <= |steps| && j < Pops(steps, i)
    ensures |run[i].popped| == Pops(steps, i) && j < |Claims(steps, i)|
    ensures var p := Claims(steps, i)[j];
            && Purpose(steps, i, p) == Some(if run[i].popped[j] == None then Close else Push)
            && run[i].popped[j] == LastAssigned(steps, i, p)
  {
    TraceIsRun(run, steps);
    StateFollowsSteps(run, steps, i);
    FirstInFirstOut(run, i, j);
    RecordsAreAssigned(run, steps, i, Claims(steps, i)[j]);
  }

  lemma StepKeepsPops<V>(s: State<V>, step: Step<V>)
    requires Inv(s) && Enabled(s, step)
    ensures s.popped <= Apply(s, step).popped
    ensures step.Pop? ==> Apply(s, step).popped == s.popped + [s.data[Slot(s, s.front)]]
  {
  }

  /** What the `j`-th pop found is what was in its slot when it was made, and stays
      what it found. */
  lemma {:induction false} PopFindsItsSlot<V(!new)>(run: seq<State<V>>, steps: seq<Step<V>>, k: nat, i: nat)
    requires IsTrace(run, steps) && k < i <= |steps| && steps[k] == Pop
    ensures Pops(steps, k) < |run[i].popped| && WellFormed(run[k])
    ensures run[i].popped[Pops(steps, k)] == run[k].data[Slot(run[k], run[k].front)]
    decreases i
  {
    TraceIsRun(run, steps);
    RunKeepsInv(run, i - 1);
    assert TakesAt(run, steps, i - 1);
    StepKeepsPops(run[i - 1], steps[i - 1]);
    if k < i - 1 { PopFindsItsSlot(run, steps, k, i - 1); } else { StateFollowsSteps(run, steps, k); }
  }
}
