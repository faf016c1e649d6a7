/** What every run of a scope and its tasks guarantees. */
module ScopeResults {
  import opened ScopeProtocol

  ghost predicate Next(s: State, s': State) { exists step :: Enabled(s, step) && s' == Apply(s, step) }

  ghost predicate NextAt(run: seq<State>, i: int)
    requires 0 < i < |run|
  {
    Next(run[i - 1], run[i])
  }

  ghost predicate IsRun(run: seq<State>) {
    && run != [] && Init(run[0])
    && forall i {:trigger NextAt(run, i)} :: 0 < i < |run| ==> NextAt(run, i)
  }

  lemma {:induction false} RunKeepsInv(run: seq<State>, i: nat)
    requires IsRun(run) && i < |run|
    ensures Inv(run[i])
  {
    hide Inv;
    if i == 0 {
      InitInv(run[0]);
    } else {
      RunKeepsInv(run, i - 1);
      assert NextAt(run, i);
      NextKeepsInv(run[i - 1], run[i]);
    }
  }

  lemma NextKeepsInv(s: State, s': State)
    requires Inv(s) && Next(s, s')
    ensures Inv(s')
  {
    var step :| Enabled(s, step) && s' == Apply(s, step);
    StepPreserves(s, step);
  }

  lemma TaskInRun(run: seq<State>, i: nat, id: nat)
    requires IsRun(run) && i < |run| && id in run[i].tasks
    ensures TaskOk(run[i].tasks[id], multiset(run[i].exceptions)[id])
  {
    RunKeepsInv(run, i);
    assert TaskAt(run[i].tasks, run[i].exceptions, id);
  }

  /** The task has finished and its owner has let go. */
  predicate Settled(tk: Task) { tk.frame == Done && tk.side == Gone }

  /** Every frame is destroyed by one party only, and by one in the end. */
  lemma OneDestroyer(run: seq<State>, i: nat, id: nat)
    requires IsRun(run) && i < |run| && id in run[i].tasks
    ensures run[i].tasks[id].destroyed <= 1
    ensures Settled(run[i].tasks[id]) ==> run[i].tasks[id].destroyed == 1
  {
    TaskInRun(run, i, id);
  }

  /** An exception goes to the awaiter, or once into the scope's list, and in the
      end to one of them. */
  lemma ExceptionOnce(run: seq<State>, i: nat, id: nat)
    requires IsRun(run) && i < |run| && id in run[i].tasks
    ensures var tk, listed := run[i].tasks[id], multiset(run[i].exceptions)[id];
            && tk.reported + listed <= (if tk.threw then 1 else 0)
            && (tk.reported > 0 ==> tk.awaited) && (listed > 0 ==> !tk.awaited)
            && (Settled(tk) && tk.threw ==> tk.reported + listed == 1)
  {
    TaskInRun(run, i, id);
  }

  /** An awaiter is resumed at most once, and only by a completed task; and it
      never sleeps behind a task that is done. */
  lemma AwaiterResumedOnce(run: seq<State>, i: nat, id: nat)
    requires IsRun(run) && i < |run| && id in run[i].tasks
    ensures var tk := run[i].tasks[id];
            && tk.resumed <= 1 && (tk.resumed == 1 ==> tk.awaited && tk.completed)
            && (Settled(tk) && tk.awaited ==> tk.resumed == 1)
            && (tk.frame == Done ==> tk.side != Asleep)
  {
    TaskInRun(run, i, id);
  }

  /** A join ends once: the wakes are the joins, but for the one in progress. */
  lemma JoinedOnce(run: seq<State>, i: nat)
    requires IsRun(run) && i < |run|
    ensures run[i].joins == run[i].wakes + if run[i].joiner == Outside then 0 else 1
  {
    RunKeepsInv(run, i);
  }

  /** The joiner found nothing to wait for, and before its decrement a task was
      added: `await_suspend` then returns its own handle. */
  predicate Overtaken(s: State, step: Step) { s.joiner == Decrement(false) && s.count != 1 && step == JoinerOn }

  predicate Wakes(s: State, step: Step)
    requires Enabled(s, step)
  {
    Apply(s, step).wakes != s.wakes
  }

  /** When a joiner goes on, all tasks have given back their counts, exactly unless
      it was overtaken by one that was added after its increment. */
  lemma WakeFindsNoHolder(s: State, step: Step)
    requires Inv(s) && Enabled(s, step) && Wakes(s, step)
    ensures Apply(s, step).wakes == s.wakes + 1 && (step.FrameOn? || step.JoinerOn?)
    ensures Holders(s.tasks) == {} <==> !Overtaken(s, step)
    ensures s.joinedFor !! Holders(s.tasks)
  {
    EmptySet(Holders(s.tasks));
    match step
    case FrameOn(id) => assert Crosses(s.tasks, id);
    case _ =>
  }

  lemma NoHolderIsComplete(s: State, id: nat)
    requires Inv(s) && id in s.tasks && id !in Holders(s.tasks)
    ensures s.tasks[id].completed
  {
    assert TaskAt(s.tasks, s.exceptions, id);
  }

  /** A joiner goes on only after every task of the scope has completed, whenever it
      was added; if it was overtaken, after every task that was there when it began
      to join. */
  lemma WakesOnlyWhenComplete(run: seq<State>, i: nat, step: Step)
    requires IsRun(run) && i < |run| && Enabled(run[i], step) && Wakes(run[i], step)
    ensures var s := run[i];
            && (!Overtaken(s, step) ==> forall id :: id in s.tasks ==> s.tasks[id].completed)
            && (forall id :: id in s.joinedFor ==> id in s.tasks && s.tasks[id].completed)
  {
    var s := run[i];
    RunKeepsInv(run, i);
    WakeFindsNoHolder(s, step);
    forall id | id in s.tasks && (!Overtaken(s, step) || id in s.joinedFor) ensures s.tasks[id].completed {
      NoHolderIsComplete(s, id);
    }
  }

  /** Being overtaken happens with the rule about adding kept: a joiner that began
      with nothing to wait for goes on while the added task is in its body. */
  lemma OvertakenJoinerLeavesEarly(s: State, id: nat)
    requires Inv(s) && s.joiner == Outside && s.count == 0 && NoCrossing(s) && id !in s.tasks
    ensures var joining := Apply(s, Join);
            && Enabled(joining, Add(id))
            && var added := Apply(joining, Add(id));
               && Enabled(added, JoinerOn) && Overtaken(added, JoinerOn)
               && var left := Apply(added, JoinerOn);
                  left.joiner == Outside && left.wakes == s.wakes + 1 && left.tasks[id].frame == Body
  {
  }

  /** While a task holds a count no zero crossing is in flight: adding from inside
      the scope is always allowed. */
  lemma HolderMayAdd(s: State, id: nat)
    requires Inv(s) && Holders(s.tasks) != {} && id !in s.tasks
    ensures Enabled(s, Add(id))
  {
    forall u | u in s.tasks ensures s.tasks[u].frame != Cross {
      if s.tasks[u].frame == Cross { assert Crosses(s.tasks, u); }
    }
  }

  // ---------- adding from inside, or between joins ----------

  /** Tasks are added from inside the scope, while some task holds a count, or
      between joins; that no zero crossing is in flight is part of `Enabled`. */
  ghost predicate Disciplined(s: State, step: Step) { step.Add? ==> Holders(s.tasks) != {} || s.joiner == Outside }

  ghost predicate DisciplinedNext(s: State, s': State) {
    exists step :: Enabled(s, step) && Disciplined(s, step) && s' == Apply(s, step)
  }

  ghost predicate DisciplinedAt(run: seq<State>, i: int)
    requires 0 < i < |run|
  {
    DisciplinedNext(run[i - 1], run[i])
  }

  ghost predicate IsDisciplinedRun(run: seq<State>) {
    && run != [] && Init(run[0])
    && forall i {:trigger DisciplinedAt(run, i)} :: 0 < i < |run| ==> DisciplinedAt(run, i)
  }

  /** A joiner that did not store its handle still has nothing to wait for. */
  ghost predicate Ahead(s: State) { s.joiner == Decrement(false) || s.joiner == Crossing(false) ==> Holders(s.tasks) == {} }

  lemma FewerHolders(s: State, step: Step)
    requires Enabled(s, step) && !step.Add?
    ensures Holders(Apply(s, step).tasks) <= Holders(s.tasks)
  {
    match step
    case FrameOn(id) => FrameGivesBack(s, id);
    case SideOn(id) => OneTaskMoves(s.tasks, id, Owned(s.tasks[id]));
    case Finish(id, throws) => OneTaskMoves(s.tasks, id, s.tasks[id].(frame := Or, threw := throws));
    case Begin(id, awaits) => OneTaskMoves(s.tasks, id, s.tasks[id].(side := Storing, awaited := awaits));
    case Join =>
    case JoinerOn =>
  }

  lemma OneTaskMoves(tasks: map<nat, Task>, id: nat, tk: Task)
    requires id in tasks && (Holding(tk.frame) ==> Holding(tasks[id].frame))
    ensures Holders(tasks[id := tk]) <= Holders(tasks)
  {
  }

  lemma FrameMovesOne(s: State, id: nat) returns (tk: Task)
    requires Enabled(s, FrameOn(id))
    ensures FrameStep(s, id).tasks == s.tasks[id := tk] && (Holding(tk.frame) ==> Holding(s.tasks[id].frame))
  {
    tk := FrameStep(s, id).tasks[id];
    match s.tasks[id].frame
    case Or =>
    case Push =>
    case Lower =>
    case Cross =>
    case _ =>
  }

  lemma FrameGivesBack(s: State, id: nat)
    requires Enabled(s, FrameOn(id))
    ensures Holders(FrameStep(s, id).tasks) <= Holders(s.tasks)
  {
    var tk := FrameMovesOne(s, id);
    OneTaskMoves(s.tasks, id, tk);
  }

  lemma StepKeepsAhead(s: State, step: Step)
    requires Inv(s) && Ahead(s) && Enabled(s, step) && Disciplined(s, step)
    ensures Ahead(Apply(s, step))
  {
    EmptySet(Holders(s.tasks));
    if !step.Add? { FewerHolders(s, step); }
  }

  lemma {:induction false} DisciplinedKeeps(run: seq<State>, i: nat)
    requires IsDisciplinedRun(run) && i < |run|
    ensures Inv(run[i]) && Ahead(run[i])
  {
    if i == 0 {
      InitInv(run[0]);
    } else {
      DisciplinedKeeps(run, i - 1);
      assert DisciplinedAt(run, i);
      var step :| Enabled(run[i - 1], step) && Disciplined(run[i - 1], step) && run[i] == Apply(run[i - 1], step);
      StepPreserves(run[i - 1], step);
      StepKeepsAhead(run[i - 1], step);
    }
  }

  /** With that discipline no joiner is ever overtaken: it goes on only after every
      task of the scope has completed. */
  lemma DisciplinedJoinerWaitsForAll(run: seq<State>, i: nat, step: Step, id: nat)
    requires IsDisciplinedRun(run) && i < |run| && Enabled(run[i], step) && Wakes(run[i], step) && id in run[i].tasks
    ensures run[i].tasks[id].completed
  {
    DisciplinedKeeps(run, i);
    EmptySet(Holders(run[i].tasks));
    WakeFindsNoHolder(run[i], step);
    NoHolderIsComplete(run[i], id);
  }

  // ---------- a rule for callers ----------

  /** The steps of the code itself, which adds whatever is in flight. */
  ghost predicate Moves(s: State, step: Step, s': State) {
    if step.Add? then step.id !in s.tasks && s' == AddTask(s, step.id)
    else Enabled(s, step) && s' == Apply(s, step)
  }

  /** A task is added while some task of the scope has not given back its count, or
      to a scope that never had a task and is not being joined. */
  ghost predicate Ruled(s: State, step: Step) {
    step.Add? ==> Holders(s.tasks) != {} || (s.tasks == map[] && s.joiner == Outside)
  }

  ghost predicate RuledNext(s: State, s': State) { exists step :: Moves(s, step, s') && Ruled(s, step) }

  ghost predicate RuledAt(run: seq<State>, i: int)
    requires 0 < i < |run|
  {
    RuledNext(run[i - 1], run[i])
  }

  ghost predicate IsRuledRun(run: seq<State>) {
    && run != [] && Init(run[0])
    && forall i {:trigger RuledAt(run, i)} :: 0 < i < |run| ==> RuledAt(run, i)
  }

  /** The rule implies that no zero crossing is in flight when a task is added. */
  lemma RuledIsDisciplined(s: State, s': State)
    requires Inv(s) && RuledNext(s, s')
    ensures DisciplinedNext(s, s')
  {
    var step :| Moves(s, step, s') && Ruled(s, step);
    if step.Add? && Holders(s.tasks) != {} { HolderMayAdd(s, step.id); }
    assert Enabled(s, step) && Disciplined(s, step) && s' == Apply(s, step);
  }

  lemma {:induction false} RuledRunIsDisciplined(run: seq<State>)
    requires IsRuledRun(run)
    ensures IsDisciplinedRun(run)
  {
    if |run| > 1 {
      var n := |run| - 1;
      var front := run[..n];
      forall i | 0 < i < |front| ensures RuledAt(front, i) { assert RuledAt(run, i); }
      RuledRunIsDisciplined(front);
      DisciplinedKeeps(front, n - 1);
      forall i | 0 < i < |run| ensures DisciplinedAt(run, i) {
        if i < n { assert DisciplinedAt(front, i); } else { assert RuledAt(run, i); RuledIsDisciplined(run[n - 1], run[n]); }
      }
    }
  }

  /** Under that rule, whatever the code may otherwise do, a joiner goes on only
      after every task of the scope has completed. */
  lemma RuledJoinerWaitsForAll(run: seq<State>, i: nat, step: Step, id: nat)
    requires IsRuledRun(run) && i < |run| && Enabled(run[i], step) && Wakes(run[i], step) && id in run[i].tasks
    ensures run[i].tasks[id].completed
  {
    RuledRunIsDisciplined(run);
    DisciplinedJoinerWaitsForAll(run, i, step, id);
  }

  /** That all tasks have completed and a join has ended does not make a scope fit
      for new tasks: the last one may still be about to look for a joiner. */
  lemma JoinedScopeMayCross(s: State, id: nat)
    requires Inv(s) && Crosses(s.tasks, id) && s.joiner == Outside
    ensures var joined := JoinerStep(JoinerStep(Apply(s, Join)));
            && joined.joiner == Outside && joined.wakes == s.wakes + 1 && Inv(joined) && Crosses(joined.tasks, id)
            && forall u :: u in joined.tasks ==> joined.tasks[u].completed
  {
    var only :| OnlyCrosses(s.tasks, only);
    assert s.count == 0;
    StepPreserves(s, Join);
    var s1 := Apply(s, Join);
    StepPreserves(s1, JoinerOn);
    var s2 := JoinerStep(s1);
    StepPreserves(s2, JoinerOn);
    EmptySet(Holders(s.tasks));
    forall u | u in s.tasks ensures s.tasks[u].completed { NoHolderIsComplete(s, u); }
  }

  /** A joiner sleeps only while a task is not done with the barrier. */
  lemma JoinerIsNotForgotten(run: seq<State>, i: nat)
    requires IsRun(run) && i < |run| && run[i].joiner == Suspended
    ensures exists id :: id in run[i].tasks && (Holding(run[i].tasks[id].frame) || run[i].tasks[id].frame == Cross)
  {
    RunKeepsInv(run, i);
    var s := run[i];
    if Holders(s.tasks) != {} {
      var id :| id in Holders(s.tasks);
      assert Holding(s.tasks[id].frame);
    } else {
      var id :| Crosses(s.tasks, id);
    }
  }

  /** The rule about adding is needed: a task that is added while a zero crossing is in
      flight can be overtaken by the joiner, who is then woken before the task has
      even finished its body. */
  lemma AddingInFlightWakesEarly(s: State, first: nat, second: nat)
    requires Inv(s) && Crosses(s.tasks, first) && s.joiner == Outside && second !in s.tasks
    ensures var added := AddTask(s, second);
            var joining := Apply(added, Join);
            && joining.joiner == Store
            && var suspended := JoinerStep(JoinerStep(joining));
               && suspended.joiner == Suspended && Enabled(suspended, FrameOn(first))
               && var woken := FrameStep(suspended, first);
                  woken.wakes == s.wakes + 1 && second in joining.joinedFor && woken.tasks[second].frame == Body
  {
    var only :| OnlyCrosses(s.tasks, only);
    assert s.count == 0;
  }

  /** A joiner that nobody disturbs goes on at once if no count is held, and sleeps
      with its handle stored otherwise; the count is the same as before. */
  lemma JoinAlone(s: State)
    requires Inv(s) && s.joiner == Outside
    ensures Enabled(Apply(s, Join), JoinerOn) && Enabled(JoinerStep(Apply(s, Join)), JoinerOn)
    ensures var end := JoinerStep(JoinerStep(Apply(s, Join)));
            && end.count == s.count && end.tasks == s.tasks
            && if s.count == 0 then end.joiner == Outside && end.wakes == s.wakes + 1 && !end.continuation
               else end.joiner == Suspended && end.wakes == s.wakes && end.continuation
  {
  }

  /** The last task to give back its count, undisturbed, wakes the sleeping joiner. */
  lemma LastTaskWakes(s: State, id: nat)
    requires Inv(s) && id in s.tasks && s.tasks[id].frame == Lower && s.joiner == Suspended && s.count == 1
    ensures var crossing := FrameStep(s, id);
            && Enabled(crossing, FrameOn(id))
            && var end := FrameStep(crossing, id);
               end.joiner == Outside && end.wakes == s.wakes + 1 && end.count == 0 && !end.continuation
  {
  }
}
