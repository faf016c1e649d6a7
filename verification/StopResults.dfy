/** What every run of registrations, deregistrations and one stop request
    guarantees. */
module StopResults {
  import opened Lists
  import opened StopProtocol

  ghost predicate Next(s: State, s': State) { exists step :: Enabled(s, step) && s' == Apply(s, step) }

  ghost predicate IsRun(run: seq<State>) {
    && run != [] && Init(run[0])
    && forall i {:trigger NextAt(run, i)} :: 0 < i < |run| ==> NextAt(run, i)
  }

  ghost predicate NextAt(run: seq<State>, i: int)
    requires 0 < i < |run|
  {
    Next(run[i - 1], run[i])
  }

  lemma {:induction false} RunKeepsInv(run: seq<State>, i: nat)
    requires IsRun(run) && i < |run|
    ensures Inv(run[i])
  {
    hide Inv;
    if i == 0 {
      InitInv(run[0]);
    } else {
      RunKeepsInv(run, i - 1);
      assert NextAt(run, i);
      var step :| Enabled(run[i - 1], step) && run[i] == Apply(run[i - 1], step);
      StepPreserves(run[i - 1], step);
    }
  }

  /** No callback runs twice, wherever its registration and the sweep meet. */
  lemma RunsAtMostOnce(run: seq<State>, i: nat, id: nat)
    requires IsRun(run) && i < |run| && id in run[i].callbacks
    ensures run[i].callbacks[id].runs <= 1
  {
    RunKeepsInv(run, i);
    assert CallbackAt(run[i], id);
  }

  /** The constructor has returned and the destructor has not been entered. */
  predicate Live(pc: Pc) { pc == Empty || pc == InlineDone || pc == Registered }

  /** No callback is missed: once stop is requested, a constructed callback has run
      exactly once, or it sits in a slot that the sweep has yet to look at, or is
      what the sweep has just taken to call. */
  lemma RanOrAhead(run: seq<State>, i: nat, id: nat)
    requires IsRun(run) && i < |run| && id in run[i].callbacks
    requires run[i].requested && Live(run[i].callbacks[id].pc)
    ensures var s, cb := run[i], run[i].callbacks[id];
            || cb.runs == 1
            || (cb.runs == 0 && Armed(s, id, cb) && Ahead(s.sweep, cb.loc))
            || (cb.runs == 0 && cb.taken && Pending(s, id))
  {
    RunKeepsInv(run, i);
    assert CallbackAt(run[i], id);
  }

  /** When `request_stop` has returned, every constructed callback ran exactly
      once. */
  lemma RanExactlyOnce(run: seq<State>, i: nat, id: nat)
    requires IsRun(run) && i < |run| && id in run[i].callbacks
    requires run[i].sweep == Finished && Live(run[i].callbacks[id].pc)
    ensures run[i].callbacks[id].runs == 1
  {
    RunKeepsInv(run, i);
    assert CallbackAt(run[i], id);
  }

  // ---------- after deregistration ----------

  predicate Ended(pc: Pc) { pc == Empty || pc == InlineDone || pc.Gone? }

  lemma TakeSparesEnded(s: State, at: Loc, id: nat)
    requires Inv(s) && at in s.slots && id in s.callbacks && Ended(s.callbacks[id].pc)
    ensures id in Take(s, at).callbacks && Take(s, at).callbacks[id] == s.callbacks[id]
  {
    assert SlotOk(s, at);
  }

  lemma CallSparesEnded(s: State, id: nat)
    requires Inv(s) && s.sweep.Took? && id in s.callbacks && Ended(s.callbacks[id].pc)
    ensures id != s.sweep.id
  {
    assert CallbackAt(s, id);
  }

  lemma OthersStay(s: State, id: nat, other: nat)
    requires Enabled(s, Advance(id)) && other in s.callbacks && other != id
    ensures other in CallbackOn(s, id).callbacks && CallbackOn(s, id).callbacks[other] == s.callbacks[other]
  {
    match s.callbacks[id].pc
    case Install =>
    case Undo =>
    case Dereg(t) =>
    case _ =>
  }

  lemma StepKeepsEnded(s: State, step: Step, id: nat)
    requires Inv(s) && Enabled(s, step) && id in s.callbacks && Ended(s.callbacks[id].pc)
    ensures id in Apply(s, step).callbacks && Apply(s, step).callbacks[id] == s.callbacks[id]
  {
    match step
    case SweepOn =>
      if s.sweep.AtSwap? && s.sweep.at in s.slots { TakeSparesEnded(s, s.sweep.at, id); }
      if s.sweep.Took? { CallSparesEnded(s, id); }
    case Advance(other) => OthersStay(s, other, id);
    case _ =>
  }

  lemma NextKeepsEnded(s: State, s': State, id: nat)
    requires Inv(s) && Next(s, s') && id in s.callbacks && Ended(s.callbacks[id].pc)
    ensures id in s'.callbacks && s'.callbacks[id] == s.callbacks[id]
  {
    var step :| Enabled(s, step) && s' == Apply(s, step);
    StepKeepsEnded(s, step, id);
  }

  lemma {:induction false} RunKeepsEnded(run: seq<State>, i: nat, j: nat, id: nat)
    requires IsRun(run) && i <= j < |run| && id in run[i].callbacks && Ended(run[i].callbacks[id].pc)
    ensures id in run[j].callbacks && run[j].callbacks[id] == run[i].callbacks[id]
    decreases j
  {
    if i < j {
      RunKeepsEnded(run, i, j - 1, id);
      RunKeepsInv(run, j - 1);
      assert NextAt(run, j);
      NextKeepsEnded(run[j - 1], run[j], id);
    }
  }

  /** Once the destructor has returned the callback never starts again; and if it
      returned on another thread than the notifying one, the callback is not
      running either. */
  lemma NeverAfterDestruction(run: seq<State>, i: nat, j: nat, id: nat, t: nat)
    requires IsRun(run) && i <= j < |run| && AtPc(run[i], id, Gone(t))
    ensures AtPc(run[j], id, Gone(t)) && run[j].callbacks[id].runs == run[i].callbacks[id].runs
    ensures run[j].notifier != Some(t) ==> !(run[j].sweep.Calling? && run[j].sweep.id == id)
  {
    RunKeepsEnded(run, i, j, id);
    RunKeepsInv(run, j);
    assert CallbackAt(run[j], id);
  }

  /** A deregistration that found its registration in the slot prevents the call
      for good; one that did not, comes after the sweep took it, and on the
      notifying thread after its call began. */
  lemma DeregistrationDecides(s: State, id: nat, t: nat)
    requires Inv(s) && AtPc(s, id, Dereg(t)) && Enabled(s, Advance(id))
    ensures var s' := CallbackOn(s, id);
            if Armed(s, id, s.callbacks[id])
            then s'.callbacks[id] == Callback(Gone(t), s.callbacks[id].loc, false, 0)
            else AtPc(s', id, Compare(t)) && s'.callbacks[id].taken
                 && (s.notifier == Some(t) ==> s'.callbacks[id].runs == 1)
  {
    assert CallbackAt(s, id);
  }

  /** When the destructor of a taken callback returns, the callback has been called,
      once. */
  lemma DestroyedAfterCall(run: seq<State>, i: nat, id: nat, t: nat)
    requires IsRun(run) && i < |run| && AtPc(run[i], id, Gone(t))
    ensures run[i].callbacks[id].runs == if run[i].callbacks[id].taken then 1 else 0
  {
    RunKeepsInv(run, i);
    assert CallbackAt(run[i], id);
  }

  lemma NotifierReturns(s: State, id: nat, t: nat)
    requires s.notifier == Some(t) && AtPc(s, id, Compare(t)) && s.sweep.Calling?
    ensures Enabled(s, Advance(id)) && AtPc(CallbackOn(s, id), id, Gone(t))
  {
  }

  lemma NotifierLeaves(s: State, id: nat, t: nat)
    requires s.notifier == Some(t) && AtPc(s, id, Dereg(t)) && s.sweep.Calling?
    ensures Enabled(s, Advance(id))
    ensures var s1 := CallbackOn(s, id);
            || AtPc(s1, id, Gone(t))
            || (Enabled(s1, Advance(id)) && AtPc(s1, id, Compare(t)) && AtPc(CallbackOn(s1, id), id, Gone(t)))
  {
    if !Armed(s, id, s.callbacks[id]) { NotifierReturns(CallbackOn(s, id), id, t); }
  }

  /** The notifying thread, inside a callback, never waits for itself: its
      destructors can go on from their first access, and return after at most two. */
  lemma NotifierNeverWaits(run: seq<State>, i: nat, id: nat, t: nat)
    requires IsRun(run) && i < |run| && run[i].notifier == Some(t)
    ensures !AtPc(run[i], id, Waiting(t))
    ensures AtPc(run[i], id, Compare(t)) && run[i].sweep.Calling? ==>
              Enabled(run[i], Advance(id)) && AtPc(CallbackOn(run[i], id), id, Gone(t))
    ensures AtPc(run[i], id, Dereg(t)) && run[i].sweep.Calling? ==>
              && Enabled(run[i], Advance(id))
              && var s1 := CallbackOn(run[i], id);
                 || AtPc(s1, id, Gone(t))
                 || (Enabled(s1, Advance(id)) && AtPc(s1, id, Compare(t)) && AtPc(CallbackOn(s1, id), id, Gone(t)))
  {
    RunKeepsInv(run, i);
    hide Inv;
    if AtPc(run[i], id, Waiting(t)) { WaitsForAnother(run[i], id, t); }
    if run[i].sweep.Calling? {
      if AtPc(run[i], id, Compare(t)) { NotifierReturns(run[i], id, t); }
      if AtPc(run[i], id, Dereg(t)) { NotifierLeaves(run[i], id, t); }
    }
  }

  lemma WaitsForAnother(s: State, id: nat, t: nat)
    requires Inv(s) && AtPc(s, id, Waiting(t))
    ensures s.notifier != Some(t) && Sweeping(s)
  {
    assert CallbackAt(s, id);
  }

  /** A callback constructed when no stop was possible is never owed a call. */
  lemma EmptyIsNeverOwed(run: seq<State>, i: nat, j: nat, id: nat)
    requires IsRun(run) && i <= j < |run| && AtPc(run[i], id, Empty)
    ensures !run[j].requested && run[j].sources == 0
  {
    RunKeepsEnded(run, i, j, id);
    RunKeepsInv(run, j);
    assert CallbackAt(run[j], id);
  }

  // ---------- the sweep comes to an end ----------

  function Phase(sweep: Sweep): nat {
    match sweep
    case NotStarted => 6
    case LoadState(_) => 5
    case SetThread(_) => 4
    case Completing => 1
    case Finished => 0
    case _ => 3
  }

  function ListsLeft(s: State): nat {
    var l := match s.sweep
             case AtList(l) => l
             case AtEntry(at) => at.list
             case AtSwap(at) => at.list
             case Took(at, _) => at.list
             case Calling(at, _) => at.list
             case NextChunk(l, _) => l
             case _ => |s.shape|;
    if l < |s.shape| then |s.shape| - l else 0
  }

  function ChunksLeft(s: State): nat {
    match s.sweep
    case AtList(l) => if l < |s.shape| then |s.shape[l]| + 1 else 0
    case AtEntry(at) => LeftAfter(s, at.list, at.chunk)
    case AtSwap(at) => LeftAfter(s, at.list, at.chunk)
    case Took(at, _) => LeftAfter(s, at.list, at.chunk)
    case Calling(at, _) => LeftAfter(s, at.list, at.chunk)
    case NextChunk(l, c) => LeftAfter(s, l, c)
    case _ => 0
  }

  function LeftAfter(s: State, l: nat, c: nat): nat {
    if l < |s.shape| && c < |s.shape[l]| then |s.shape[l]| - c else 0
  }

  function EntriesLeft(s: State): nat {
    match s.sweep
    case AtEntry(at) => 4 * Rest(s, at) + 1
    case AtSwap(at) => 4 * Rest(s, at)
    case Took(at, _) => if Rest(s, at) > 0 then 4 * Rest(s, at) - 1 else 0
    case Calling(at, _) => if Rest(s, at) > 0 then 4 * Rest(s, at) - 2 else 0
    case _ => 0
  }

  function Rest(s: State, at: Loc): nat { if InShape(s.shape, at) then s.shape[at.list][at.chunk] - at.entry else 0 }

  predicate SweepsOn(s: State, s': State) { Enabled(s, SweepOn) && s' == SweepStep(s) }

  predicate SweepAt(run: seq<State>, i: int)
    requires 0 < i < |run|
  {
    SweepsOn(run[i - 1], run[i])
  }

  ghost predicate SweepRun(run: seq<State>) {
    run != [] && forall i {:trigger SweepAt(run, i)} :: 0 < i < |run| ==> SweepAt(run, i)
  }

  predicate Less(s': State, s: State) {
    || Phase(s'.sweep) < Phase(s.sweep)
    || (Phase(s'.sweep) == Phase(s.sweep) && ListsLeft(s') < ListsLeft(s))
    || (Phase(s'.sweep) == Phase(s.sweep) && ListsLeft(s') == ListsLeft(s) && ChunksLeft(s') < ChunksLeft(s))
    || (Phase(s'.sweep) == Phase(s.sweep) && ListsLeft(s') == ListsLeft(s) && ChunksLeft(s') == ChunksLeft(s)
        && EntriesLeft(s') < EntriesLeft(s))
  }

  lemma EntryGetsNearer(s: State, at: Loc)
    requires Inv(s) && s.sweep == AtEntry(at)
    ensures Less(SweepStep(s), s)
  {
  }

  lemma SwapGetsNearer(s: State, at: Loc)
    requires Inv(s) && s.sweep == AtSwap(at)
    ensures Less(SweepStep(s), s)
  {
  }

  lemma CallGetsNearer(s: State, at: Loc, id: nat)
    requires Inv(s) && (s.sweep == Took(at, id) || s.sweep == Calling(at, id))
    ensures Less(SweepStep(s), s)
  {
  }

  lemma SweepGetsNearer(s: State)
    requires Inv(s) && Enabled(s, SweepOn)
    ensures Less(SweepStep(s), s)
  {
    match s.sweep
    case AtEntry(at) => EntryGetsNearer(s, at);
    case AtSwap(at) => SwapGetsNearer(s, at);
    case Took(at, id) => CallGetsNearer(s, at, id);
    case Calling(at, id) => CallGetsNearer(s, at, id);
    case _ =>
  }

  /** The sweep, if no registration interferes, ends after finitely many accesses
      and calls. */
  lemma {:induction false} SweepAlone(s: State) returns (run: seq<State>)
    requires Inv(s) && s.requested
    ensures SweepRun(run) && run[0] == s && run[|run| - 1].sweep == Finished && Inv(run[|run| - 1])
    decreases Phase(s.sweep), ListsLeft(s), ChunksLeft(s), EntriesLeft(s)
  {
    if s.sweep == Finished {
      run := [s];
    } else {
      SweepGetsNearer(s);
      SweepPreserves(s);
      var rest := SweepAlone(SweepStep(s));
      run := [s] + rest;
      forall i | 0 < i < |run| ensures SweepAt(run, i) {
        if i > 1 { assert SweepAt(rest, i - 1); }
      }
    }
  }

  lemma TakeKeepsPlaces(s: State, at: Loc, id: nat)
    requires at in s.slots && id in s.callbacks
    ensures id in Take(s, at).callbacks && Take(s, at).callbacks[id].pc == s.callbacks[id].pc
  {
  }

  lemma CallKeepsPlaces(s: State, at: Loc, called: nat, id: nat)
    requires id in s.callbacks
    ensures id in Call(s, at, called).callbacks && Call(s, at, called).callbacks[id].pc == s.callbacks[id].pc
  {
  }

  lemma SweepStepKeepsPlaces(s: State, s': State, id: nat)
    requires SweepsOn(s, s') && id in s.callbacks
    ensures id in s'.callbacks && s'.callbacks[id].pc == s.callbacks[id].pc
  {
    match s.sweep
    case AtSwap(at) => if at in s.slots { TakeKeepsPlaces(s, at, id); }
    case Took(at, called) => CallKeepsPlaces(s, at, called, id);
    case _ =>
  }

  lemma {:induction false} SweepKeepsPlaces(run: seq<State>, i: nat, id: nat)
    requires SweepRun(run) && i < |run| && id in run[0].callbacks
    ensures id in run[i].callbacks && run[i].callbacks[id].pc == run[0].callbacks[id].pc
  {
    if i > 0 {
      SweepKeepsPlaces(run, i - 1, id);
      assert SweepAt(run, i);
      SweepStepKeepsPlaces(run[i - 1], run[i], id);
    }
  }

  /** What the end of the sweep means for one callback. */
  predicate Served(pc: Pc, end: State, id: nat) {
    && id in end.callbacks
    && (Live(pc) ==> end.callbacks[id].runs == 1)
    && (pc.Waiting? ==> AtPc(end, id, pc) && AtPc(CallbackOn(end, id), id, Gone(pc.thread)))
  }

  lemma EndServes(end: State, id: nat)
    requires Inv(end) && end.sweep == Finished && id in end.callbacks
    ensures Served(end.callbacks[id].pc, end, id)
  {
    assert CallbackAt(end, id);
  }

  /** The sweep alone runs every callback that is constructed and has not run, and
      then releases every destructor that waits for it. */
  lemma SweepAloneServesAll(s: State) returns (run: seq<State>)
    requires Inv(s) && s.requested
    ensures SweepRun(run) && run[0] == s && run[|run| - 1].sweep == Finished
    ensures forall id :: id in s.callbacks ==> Served(s.callbacks[id].pc, run[|run| - 1], id)
  {
    run := SweepAlone(s);
    forall id | id in s.callbacks ensures Served(s.callbacks[id].pc, run[|run| - 1], id) {
      SweepKeepsPlaces(run, |run| - 1, id);
      EndServes(run[|run| - 1], id);
    }
  }
}
