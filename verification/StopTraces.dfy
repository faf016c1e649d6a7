/** Stop requests and callbacks seen from their steps: the notifying thread is the
    one whose step requested the stop, and a destructor's thread the one whose step
    entered it. */
module StopTraces {
  import opened Lists
  import opened StopProtocol
  import opened StopResults

  /** Step `k` leads from `run[k]` to `run[k + 1]`. */
  ghost predicate TakesAt(run: seq<State>, steps: seq<Step>, k: int)
    requires |run| == |steps| + 1 && 0 <= k < |steps|
  {
    Enabled(run[k], steps[k]) && run[k + 1] == Apply(run[k], steps[k])
  }

  ghost predicate IsTrace(run: seq<State>, steps: seq<Step>) {
    && |run| == |steps| + 1 && Init(run[0])
    && forall k {:trigger TakesAt(run, steps, k)} :: 0 <= k < |steps| ==> TakesAt(run, steps, k)
  }

  lemma TraceIsRun(run: seq<State>, steps: seq<Step>)
    requires IsTrace(run, steps)
    ensures IsRun(run)
  {
    forall i | 0 < i < |run| ensures NextAt(run, i) {
      assert TakesAt(run, steps, i - 1);
    }
  }

  // ---------- what the first `i` steps say ----------

  /** The thread that requested the stop first. */
  function Requester(steps: seq<Step>, i: nat): Option<nat>
    requires i <= |steps|
  {
    if i == 0 then None
    else
      var earlier := Requester(steps, i - 1);
      if earlier == None && steps[i - 1].Request? then Some(steps[i - 1].thread) else earlier
  }

  /** The thread that destroys callback `id`. */
  function Destroyer(steps: seq<Step>, i: nat, id: nat): Option<nat>
    requires i <= |steps|
  {
    if i == 0 then None
    else if steps[i - 1].Destroy? && steps[i - 1].id == id then Some(steps[i - 1].thread)
    else Destroyer(steps, i - 1, id)
  }

  function Constructed(steps: seq<Step>, i: nat): set<nat>
    requires i <= |steps|
  {
    if i == 0 then {} else Constructed(steps, i - 1) + if steps[i - 1].Construct? then {steps[i - 1].id} else {}
  }

  /** The sources: the first one, and the copies that were not dropped. */
  function Sources(steps: seq<Step>, i: nat): int
    requires i <= |steps|
  {
    if i == 0 then 1
    else Sources(steps, i - 1) + match steps[i - 1] case CopySource => 1 case DropSource => -1 case _ => 0
  }

  // ---------- and what the states hold ----------

  /** The sweep belongs to the requesting thread. */
  predicate SweptBy(s: State, requester: Option<nat>) {
    && (s.requested <==> requester.Some?)
    && (s.notifier.Some? ==> s.notifier == requester)
    && match s.sweep
       case LoadState(t) => requester == Some(t)
       case SetThread(t) => requester == Some(t)
       case _ => true
  }

  /** What the accesses of callbacks leave alone. */
  predicate SameShared(s: State, s': State) {
    && s'.callbacks.Keys == s.callbacks.Keys && s'.sources == s.sources && s'.requested == s.requested
  }

  lemma CallbackKeepsShared(s: State, id: nat)
    requires Enabled(s, Advance(id))
    ensures SameShared(s, CallbackOn(s, id))
    ensures CallbackOn(s, id).sweep == s.sweep && CallbackOn(s, id).notifier == s.notifier
  {
    match s.callbacks[id].pc
    case Install =>
    case Undo =>
    case Dereg(t) =>
    case _ =>
  }

  lemma TakeKeepsShared(s: State, at: Loc)
    requires at in s.slots
    ensures SameShared(s, Take(s, at)) && Take(s, at).notifier == s.notifier && Take(s, at).sweep.Took?
  {
  }

  lemma CallKeepsShared(s: State, at: Loc, id: nat)
    ensures SameShared(s, Call(s, at, id)) && Call(s, at, id).notifier == s.notifier && Call(s, at, id).sweep.Calling?
  {
  }

  lemma SweepKeepsShared(s: State)
    requires Enabled(s, SweepOn)
    ensures SameShared(s, SweepStep(s))
    ensures s.sweep.SetThread? ==> SweepStep(s).notifier == Some(s.sweep.thread)
    ensures !s.sweep.SetThread? ==> SweepStep(s).notifier == s.notifier
    ensures !SweepStep(s).sweep.LoadState?
    ensures SweepStep(s).sweep.SetThread? ==> s.sweep == LoadState(SweepStep(s).sweep.thread)
  {
    match s.sweep
    case AtSwap(at) => if at in s.slots { TakeKeepsShared(s, at); }
    case Took(at, id) => CallKeepsShared(s, at, id);
    case _ =>
  }

  lemma StepSweptBy(s: State, step: Step, requester: Option<nat>)
    requires Enabled(s, step) && SweptBy(s, requester)
    ensures SweptBy(Apply(s, step), if requester == None && step.Request? then Some(step.thread) else requester)
  {
    match step
    case Advance(id) => CallbackKeepsShared(s, id);
    case SweepOn => SweepKeepsShared(s);
    case _ =>
  }

  /** The stop is requested exactly from the first request on; the sweep is that
      thread's, and the thread is recorded before the first registration is taken. */
  lemma {:induction false} RequesterSweeps(run: seq<State>, steps: seq<Step>, i: nat)
    requires IsTrace(run, steps) && i <= |steps|
    ensures SweptBy(run[i], Requester(steps, i))
    ensures Walking(run[i].sweep) ==> run[i].notifier == Requester(steps, i) != None
  {
    hide Inv, Apply, Enabled, IsRun, Walking;
    if i > 0 {
      RequesterSweeps(run, steps, i - 1);
      assert TakesAt(run, steps, i - 1);
      StepSweptBy(run[i - 1], steps[i - 1], Requester(steps, i - 1));
    }
    TraceIsRun(run, steps);
    RunKeepsInv(run, i);
    WalksOnRequest(run[i]);
  }

  lemma WalksOnRequest(s: State)
    requires Inv(s)
    ensures Walking(s.sweep) ==> s.notifier.Some?
  {
  }

  /** Sources and callbacks are those of the steps. */
  lemma StepCounts(s: State, step: Step)
    requires Enabled(s, step)
    ensures Apply(s, step).sources == s.sources + match step case CopySource => 1 case DropSource => -1 case _ => 0
    ensures Apply(s, step).callbacks.Keys == s.callbacks.Keys + if step.Construct? then {step.id} else {}
  {
    match step
    case Advance(id) => CallbackKeepsShared(s, id);
    case SweepOn => SweepKeepsShared(s);
    case _ =>
  }

  lemma {:induction false} StateFollowsSteps(run: seq<State>, steps: seq<Step>, i: nat)
    requires IsTrace(run, steps) && i <= |steps|
    ensures run[i].sources == Sources(steps, i) && run[i].callbacks.Keys == Constructed(steps, i)
  {
    if i > 0 {
      StateFollowsSteps(run, steps, i - 1);
      assert TakesAt(run, steps, i - 1);
      StepCounts(run[i - 1], steps[i - 1]);
    }
  }

  /** The thread that a destructor runs on. */
  function ThreadOf(pc: Pc): Option<nat> {
    match pc
    case Dereg(t) => Some(t)
    case Compare(t) => Some(t)
    case Waiting(t) => Some(t)
    case Gone(t) => Some(t)
    case _ => None
  }

  predicate DestroyedBy(s: State, id: nat, destroyer: Option<nat>) {
    destroyer == if id in s.callbacks then ThreadOf(s.callbacks[id].pc) else None
  }

  lemma MovedKeepsThread(s: State, cb: Callback)
    ensures ThreadOf(Moved(s, cb).pc) == ThreadOf(cb.pc)
  {
  }

  lemma LeaveKeepsThread(s: State, id: nat, left: Pc, missed: Pc)
    requires id in s.callbacks && ThreadOf(left) == ThreadOf(missed)
    ensures id in Leave(s, id, left, missed).callbacks
    ensures ThreadOf(Leave(s, id, left, missed).callbacks[id].pc) == ThreadOf(left)
  {
  }

  lemma OwnStepDestroyedBy(s: State, id: nat, destroyer: Option<nat>)
    requires Enabled(s, Advance(id)) && DestroyedBy(s, id, destroyer)
    ensures DestroyedBy(CallbackOn(s, id), id, destroyer)
  {
    var cb := s.callbacks[id];
    MovedKeepsThread(s, cb);
    hide Moved, Leave;
    match cb.pc
    case Install =>
    case Undo => LeaveKeepsThread(s, id, Inline, Registered);
    case Dereg(t) => LeaveKeepsThread(s, id, Gone(t), Compare(t));
    case _ => assert CallbackOn(s, id) == Put(s, id, Moved(s, cb));
  }

  lemma StepDestroyedBy(s: State, step: Step, id: nat, destroyer: Option<nat>)
    requires Enabled(s, step) && DestroyedBy(s, id, destroyer)
    ensures DestroyedBy(Apply(s, step), id, if step.Destroy? && step.id == id then Some(step.thread) else destroyer)
  {
    match step
    case Advance(other) =>
      if other == id {
        OwnStepDestroyedBy(s, id, destroyer);
      } else {
        CallbackKeepsShared(s, other);
        if id in s.callbacks { OthersStay(s, other, id); }
      }
    case SweepOn =>
      SweepKeepsShared(s);
      if id in s.callbacks { SweepStepKeepsPlaces(s, SweepStep(s), id); }
    case _ =>
  }

  lemma {:induction false} DestroyerDestroys(run: seq<State>, steps: seq<Step>, i: nat, id: nat)
    requires IsTrace(run, steps) && i <= |steps|
    ensures DestroyedBy(run[i], id, Destroyer(steps, i, id))
  {
    if i > 0 {
      DestroyerDestroys(run, steps, i - 1, id);
      assert TakesAt(run, steps, i - 1);
      StepDestroyedBy(run[i - 1], steps[i - 1], id, Destroyer(steps, i - 1, id));
    }
  }

  // ---------- the thread of the request ----------

  lemma WaitsMeansTaken(s: State, id: nat, t: nat)
    requires Inv(s) && AtPc(s, id, Waiting(t))
    ensures s.notifier.Some?
  {
    assert CallbackAt(s, id);
  }

  /** The thread that requested the stop, destroying a callback while it calls one,
      never waits: its destructor can go on from its first access, and returns after
      at most two. */
  lemma RequesterNeverWaits(run: seq<State>, steps: seq<Step>, i: nat, id: nat, t: nat)
    requires IsTrace(run, steps) && i <= |steps| && Requester(steps, i) == Some(t)
    ensures !AtPc(run[i], id, Waiting(t))
    ensures AtPc(run[i], id, Compare(t)) && run[i].sweep.Calling? ==>
              Enabled(run[i], Advance(id)) && AtPc(CallbackOn(run[i], id), id, Gone(t))
    ensures AtPc(run[i], id, Dereg(t)) && run[i].sweep.Calling? ==>
              && Enabled(run[i], Advance(id))
              && var s1 := CallbackOn(run[i], id);
                 || AtPc(s1, id, Gone(t))
                 || (Enabled(s1, Advance(id)) && AtPc(s1, id, Compare(t)) && AtPc(CallbackOn(s1, id), id, Gone(t)))
  {
    TraceIsRun(run, steps);
    RequesterSweeps(run, steps, i);
    RunKeepsInv(run, i);
    if AtPc(run[i], id, Waiting(t)) { WaitsMeansTaken(run[i], id, t); }
    if run[i].notifier == Some(t) { NotifierNeverWaits(run, i, id, t); }
  }

  /** Whoever waits in a destructor destroys on another thread than the one that
      requested the stop. */
  lemma OnlyOthersWait(run: seq<State>, steps: seq<Step>, i: nat, id: nat, t: nat)
    requires IsTrace(run, steps) && i <= |steps| && AtPc(run[i], id, Waiting(t))
    ensures Destroyer(steps, i, id) == Some(t) && Requester(steps, i).Some? && Requester(steps, i) != Some(t)
  {
    TraceIsRun(run, steps);
    RunKeepsInv(run, i);
    DestroyerDestroys(run, steps, i, id);
    RequesterSweeps(run, steps, i);
    WaitsMeansTaken(run[i], id, t);
    if Requester(steps, i) == Some(t) { RequesterNeverWaits(run, steps, i, id, t); }
  }

  /** Once a destructor that thread `t` entered has returned, the callback never
      starts again; and unless `t` is the thread that requested the stop, the
      callback is not running either. */
  lemma NeverAfterDestroy(run: seq<State>, steps: seq<Step>, i: nat, j: nat, id: nat, t: nat)
    requires IsTrace(run, steps) && i <= j <= |steps|
    requires Destroyer(steps, i, id) == Some(t) && id in run[i].callbacks && run[i].callbacks[id].pc.Gone?
    ensures id in run[j].callbacks && run[j].callbacks[id].runs == run[i].callbacks[id].runs
    ensures Requester(steps, j) != Some(t) ==> !(run[j].sweep.Calling? && run[j].sweep.id == id)
  {
    TraceIsRun(run, steps);
    DestroyerDestroys(run, steps, i, id);
    NeverAfterDestruction(run, i, j, id, t);
    RequesterSweeps(run, steps, j);
  }

  /** A deregistration on thread `t` that finds its registration prevents the call for
      good; one that does not comes after the sweep took it, and if `t` requested
      the stop, after its call began. */
  lemma DeregistrationOf(run: seq<State>, steps: seq<Step>, i: nat, id: nat, t: nat)
    requires IsTrace(run, steps) && i <= |steps| && Destroyer(steps, i, id) == Some(t)
    requires id in run[i].callbacks && run[i].callbacks[id].pc.Dereg? && Enabled(run[i], Advance(id))
    ensures var s, s' := run[i], CallbackOn(run[i], id);
            if Armed(s, id, s.callbacks[id])
            then s'.callbacks[id] == Callback(Gone(t), s.callbacks[id].loc, false, 0)
            else AtPc(s', id, Compare(t)) && s'.callbacks[id].taken && Requester(steps, i).Some?
                 && (Requester(steps, i) == Some(t) ==> s'.callbacks[id].runs == 1)
  {
    TraceIsRun(run, steps);
    RunKeepsInv(run, i);
    DestroyerDestroys(run, steps, i, id);
    DeregistrationDecides(run[i], id, t);
    RequesterSweeps(run, steps, i);
    TakenWhileSwept(run[i], id);
  }

  lemma TakenWhileSwept(s: State, id: nat)
    requires Inv(s) && id in s.callbacks
    ensures s.callbacks[id].pc.Dereg? && !Armed(s, id, s.callbacks[id]) ==> s.requested && s.notifier.Some?
  {
    assert CallbackAt(s, id);
  }

  // ---------- no call without a request ----------

  predicate RanFor(s: State, id: nat) {
    id in s.callbacks ==>
      && (s.callbacks[id].runs > 0 ==> s.requested)
      && (s.callbacks[id].pc == Undo || s.callbacks[id].pc == Inline ==> s.requested)
  }

  lemma StepRanFor(s: State, step: Step, id: nat)
    requires Inv(s) && Enabled(s, step) && RanFor(s, id)
    ensures RanFor(Apply(s, step), id)
  {
    match step
    case Advance(other) =>
      if other == id {
        OwnStepRanFor(s, id);
      } else {
        CallbackKeepsShared(s, other);
        if id in s.callbacks { OthersStay(s, other, id); }
      }
    case SweepOn => SweepRanFor(s, id);
    case _ =>
  }

  lemma OwnStepRanFor(s: State, id: nat)
    requires Enabled(s, Advance(id)) && RanFor(s, id)
    ensures RanFor(CallbackOn(s, id), id)
  {
    match s.callbacks[id].pc
    case Install =>
    case Undo =>
    case Dereg(t) =>
    case _ =>
  }

  lemma SweepRanFor(s: State, id: nat)
    requires Inv(s) && Enabled(s, SweepOn) && RanFor(s, id)
    ensures RanFor(SweepStep(s), id)
  {
    SweepKeepsShared(s);
    match s.sweep
    case AtSwap(at) =>
    case Took(at, called) =>
    case _ =>
  }

  /** A callback is called only after some thread requested a stop. */
  lemma {:induction false} CalledOnlyOnRequest(run: seq<State>, steps: seq<Step>, i: nat, id: nat)
    requires IsTrace(run, steps) && i <= |steps|
    ensures RanFor(run[i], id)
    ensures id in run[i].callbacks && run[i].callbacks[id].runs > 0 ==> Requester(steps, i).Some?
  {
    if i > 0 {
      CalledOnlyOnRequest(run, steps, i - 1, id);
      TraceIsRun(run, steps);
      RunKeepsInv(run, i - 1);
      assert TakesAt(run, steps, i - 1);
      StepRanFor(run[i - 1], steps[i - 1], id);
    }
    RequesterSweeps(run, steps, i);
  }

  // ---------- what a constructor decides ----------

  lemma CtorDecides(s: State, id: nat)
    requires Inv(s) && AtPc(s, id, Ctor)
    ensures Enabled(s, Advance(id))
    ensures AtPc(CallbackOn(s, id), id, Empty) <==> !s.requested && s.sources == 0
    ensures AtPc(CallbackOn(s, id), id, Ask) <==> s.requested || s.sources != 0
  {
  }

  /** A callback stays empty exactly if no stop was requested and no source is left when
      it is constructed; otherwise it goes on to register, or to be called. */
  lemma EmptyExactlyIfImpossible(run: seq<State>, steps: seq<Step>, k: nat, id: nat)
    requires IsTrace(run, steps) && k < |steps| && steps[k] == Advance(id) && AtPc(run[k], id, Ctor)
    ensures AtPc(run[k + 1], id, Empty) <==> Requester(steps, k) == None && Sources(steps, k) == 0
    ensures !AtPc(run[k + 1], id, Empty) ==> AtPc(run[k + 1], id, Ask)
  {
    TraceIsRun(run, steps);
    RunKeepsInv(run, k);
    StateFollowsSteps(run, steps, k);
    RequesterSweeps(run, steps, k);
    CtorDecides(run[k], id);
    assert TakesAt(run, steps, k);
  }

  /** When the requesting thread's sweep is over, every callback that is constructed and
      not being destroyed was called once. */
  lemma AllCalledOnRequest(run: seq<State>, steps: seq<Step>, i: nat, id: nat)
    requires IsTrace(run, steps) && i <= |steps| && run[i].sweep == Finished
    requires id in run[i].callbacks && Live(run[i].callbacks[id].pc)
    ensures id in Constructed(steps, i) && Requester(steps, i).Some? && run[i].callbacks[id].runs == 1
  {
    TraceIsRun(run, steps);
    RunKeepsInv(run, i);
    StateFollowsSteps(run, steps, i);
    RequesterSweeps(run, steps, i);
    RanExactlyOnce(run, i, id);
    assert run[i].requested;
  }
}
