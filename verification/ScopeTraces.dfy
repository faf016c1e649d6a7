/** A scope seen from its steps: how a body ended, and what its owner did with the
    task, are what their own steps say. */
module ScopeTraces {
  import opened Lists
  import opened ScopeProtocol
  import opened ScopeResults

  /** Step `k` leads from `run[k]` to `run[k + 1]`. */
  ghost predicate TakesAt(run: seq<State>, steps: seq<Step>, k: int)
    requires |run| == |steps| + 1 && 0 <= k < |steps|
  {
    Enabled(run[k], steps[k]) && run[k + 1] == Apply(run[k], steps[k])
  }

  ghost predicate IsTrace(run: seq<State>, steps: seq<Step>) {
    && |run| == |steps| + 1 && Init(run[0])
    && forall k {:trigger TakesAt(run, steps, k)} :: 0 <= k < |steps| ==> TakesAt(run, steps, k)
  }

  lemma TraceIsRun(run: seq<State>, steps: seq<Step>)
    requires IsTrace(run, steps)
    ensures IsRun(run)
  {
    forall i | 0 < i < |run| ensures NextAt(run, i) {
      assert TakesAt(run, steps, i - 1);
    }
  }

  // ---------- what the first `i` steps say ----------

  function Added(steps: seq<Step>, i: nat): set<nat>
    requires i <= |steps|
  {
    if i == 0 then {} else Added(steps, i - 1) + if steps[i - 1].Add? then {steps[i - 1].id} else {}
  }

  /** How the body of task `id` ended, if it did: by throwing or not. */
  function Ended(steps: seq<Step>, i: nat, id: nat): Option<bool>
    requires i <= |steps|
  {
    if i == 0 then None
    else if steps[i - 1].Finish? && steps[i - 1].id == id then Some(steps[i - 1].throws)
    else Ended(steps, i - 1, id)
  }

  /** What the owner of task `id` does with it: awaits it, or drops it. */
  function Chosen(steps: seq<Step>, i: nat, id: nat): Option<bool>
    requires i <= |steps|
  {
    if i == 0 then None
    else if steps[i - 1].Begin? && steps[i - 1].id == id then Some(steps[i - 1].awaits)
    else Chosen(steps, i - 1, id)
  }

  function Joins(steps: seq<Step>, i: nat): nat
    requires i <= |steps|
  {
    if i == 0 then 0 else Joins(steps, i - 1) + if steps[i - 1].Join? then 1 else 0
  }

  /** The tasks that had been added when the last join began. */
  function ThereAtJoin(steps: seq<Step>, i: nat): set<nat>
    requires i <= |steps|
  {
    if i == 0 then {} else if steps[i - 1].Join? then Added(steps, i - 1) else ThereAtJoin(steps, i - 1)
  }

  // ---------- and what the states hold ----------

  predicate Told(tk: Task, ended: Option<bool>, chosen: Option<bool>) {
    && (tk.frame != Body <==> ended.Some?) && tk.threw == (ended == Some(true))
    && (tk.side != Held <==> chosen.Some?) && tk.awaited == (chosen == Some(true))
  }

  ghost predicate TaskTold(s: State, id: nat, ended: Option<bool>, chosen: Option<bool>) {
    if id in s.tasks then Told(s.tasks[id], ended, chosen) else ended == None && chosen == None
  }

  lemma ElectTold(tk: Task, ended: Option<bool>, chosen: Option<bool>)
    requires tk.frame == Or && Told(tk, ended, chosen)
    ensures Told(Elect(tk), ended, chosen)
  {
  }

  lemma LeaveTold(tk: Task, ended: Option<bool>, chosen: Option<bool>)
    requires tk.frame == End && Consistent(tk) && Told(tk, ended, chosen)
    ensures Told(Leave(tk), ended, chosen)
  {
  }

  lemma OwnedTold(tk: Task, ended: Option<bool>, chosen: Option<bool>)
    requires tk.side != Held && Told(tk, ended, chosen)
    ensures Told(Owned(tk), ended, chosen)
  {
  }

  lemma OwnTask(s: State, id: nat)
    requires Inv(s) && id in s.tasks
    ensures Consistent(s.tasks[id])
  {
    assert TaskAt(s.tasks, s.exceptions, id);
  }

  lemma FrameTold(s: State, id: nat, ended: Option<bool>, chosen: Option<bool>)
    requires Enabled(s, FrameOn(id)) && Consistent(s.tasks[id]) && Told(s.tasks[id], ended, chosen)
    ensures id in FrameStep(s, id).tasks && Told(FrameStep(s, id).tasks[id], ended, chosen)
  {
    var tk := s.tasks[id];
    if tk.frame == Or { ElectTold(tk, ended, chosen); }
    if tk.frame == End { LeaveTold(tk, ended, chosen); }
    hide Elect, Leave;
    match tk.frame
    case Or =>
    case Push =>
    case Lower =>
    case Cross =>
    case _ =>
  }

  /** A step of one task leaves the other tasks alone. */
  predicate Spares(s: State, s': State, id: nat) { s'.tasks - {id} == s.tasks - {id} }

  lemma FrameSpares(s: State, id: nat)
    requires Enabled(s, FrameOn(id))
    ensures Spares(s, FrameStep(s, id), id)
  {
    var tk := FrameMovesOne(s, id);
  }

  lemma SpareTold(s: State, s': State, other: nat, id: nat, ended: Option<bool>, chosen: Option<bool>)
    requires Spares(s, s', other) && id != other && TaskTold(s, id, ended, chosen)
    ensures TaskTold(s', id, ended, chosen)
  {
    assert id in s.tasks - {other} <==> id in s.tasks;
    assert id in s'.tasks - {other} <==> id in s'.tasks;
    if id in s.tasks { assert s'.tasks[id] == (s'.tasks - {other})[id] == (s.tasks - {other})[id]; }
  }

  lemma OwnStepTold(s: State, step: Step, id: nat, ended: Option<bool>, chosen: Option<bool>)
    requires Inv(s) && Enabled(s, step) && id in s.tasks && Told(s.tasks[id], ended, chosen)
    requires step == FrameOn(id) || step == SideOn(id)
    ensures TaskTold(Apply(s, step), id, ended, chosen)
  {
    OwnTask(s, id);
    hide Inv;
    if step.FrameOn? {
      FrameTold(s, id, ended, chosen);
    } else {
      OwnedTold(s.tasks[id], ended, chosen);
    }
  }

  lemma StepTold(s: State, step: Step, id: nat, ended: Option<bool>, chosen: Option<bool>)
    requires Inv(s) && Enabled(s, step) && TaskTold(s, id, ended, chosen)
    ensures TaskTold(Apply(s, step), id,
                     if step.Finish? && step.id == id then Some(step.throws) else ended,
                     if step.Begin? && step.id == id then Some(step.awaits) else chosen)
  {
    match step
    case FrameOn(u) =>
      if u == id { OwnStepTold(s, step, id, ended, chosen); }
      else { FrameSpares(s, u); SpareTold(s, Apply(s, step), u, id, ended, chosen); }
    case SideOn(u) =>
      if u == id { OwnStepTold(s, step, id, ended, chosen); } else { SpareTold(s, Apply(s, step), u, id, ended, chosen); }
    case JoinerOn => assert Apply(s, step).tasks == s.tasks;
    case Finish(u, _) => if u == id { OwnTask(s, id); }
    case Begin(u, _) => if u == id { OwnTask(s, id); }
    case _ =>
  }

  lemma {:induction false} TasksAreAsTold(run: seq<State>, steps: seq<Step>, i: nat, id: nat)
    requires IsTrace(run, steps) && i <= |steps|
    ensures TaskTold(run[i], id, Ended(steps, i, id), Chosen(steps, i, id))
  {
    if i > 0 {
      TasksAreAsTold(run, steps, i - 1, id);
      TraceIsRun(run, steps);
      RunKeepsInv(run, i - 1);
      assert TakesAt(run, steps, i - 1);
      StepTold(run[i - 1], steps[i - 1], id, Ended(steps, i - 1, id), Chosen(steps, i - 1, id));
    }
  }

  lemma StepCounts(s: State, step: Step)
    requires Enabled(s, step)
    ensures Apply(s, step).tasks.Keys == s.tasks.Keys + if step.Add? then {step.id} else {}
    ensures Apply(s, step).joins == s.joins + if step.Join? then 1 else 0
    ensures Apply(s, step).joinedFor == if step.Join? then s.tasks.Keys else s.joinedFor
  {
    match step
    case FrameOn(id) => var tk := FrameMovesOne(s, id);
    case _ =>
  }

  lemma {:induction false} StateFollowsSteps(run: seq<State>, steps: seq<Step>, i: nat)
    requires IsTrace(run, steps) && i <= |steps|
    ensures run[i].tasks.Keys == Added(steps, i) && run[i].joins == Joins(steps, i)
    ensures run[i].joinedFor == ThereAtJoin(steps, i)
  {
    if i > 0 {
      StateFollowsSteps(run, steps, i - 1);
      assert TakesAt(run, steps, i - 1);
      StepCounts(run[i - 1], steps[i - 1]);
    }
  }

  // ---------- results in terms of the steps ----------

  /** A task completes only after its body ended. */
  lemma CompletedHasEnded(run: seq<State>, steps: seq<Step>, i: nat, id: nat)
    requires IsTrace(run, steps) && i <= |steps| && id in run[i].tasks && run[i].tasks[id].completed
    ensures Ended(steps, i, id).Some?
  {
    TraceIsRun(run, steps);
    RunKeepsInv(run, i);
    TasksAreAsTold(run, steps, i, id);
    OwnTask(run[i], id);
  }

  /** When all is done, an exception that the body threw was rethrown to the awaiter,
      if the owner awaited the task, and is in the scope's list once, if it dropped
      the task; without an exception there is neither. */
  lemma ExceptionGoesWhereChosen(run: seq<State>, steps: seq<Step>, i: nat, id: nat)
    requires IsTrace(run, steps) && i <= |steps| && id in run[i].tasks && Settled(run[i].tasks[id])
    ensures Ended(steps, i, id).Some? && Chosen(steps, i, id).Some?
    ensures run[i].tasks[id].reported == if Ended(steps, i, id) == Some(true) && Chosen(steps, i, id) == Some(true) then 1 else 0
    ensures multiset(run[i].exceptions)[id]
              == if Ended(steps, i, id) == Some(true) && Chosen(steps, i, id) == Some(false) then 1 else 0
    ensures run[i].tasks[id].resumed == if Chosen(steps, i, id) == Some(true) then 1 else 0
  {
    TraceIsRun(run, steps);
    TasksAreAsTold(run, steps, i, id);
    ExceptionOnce(run, i, id);
    AwaiterResumedOnce(run, i, id);
    var tk := run[i].tasks[id];
    var chosen := Chosen(steps, i, id);
    var awaits := chosen.value;
    assert chosen == Some(awaits);
    if awaits { assert chosen == Some(true); } else { assert chosen == Some(false); }
  }

  /** A joiner goes on only after the bodies of all tasks ended that were there when it
      began, and unless it was overtaken, of all tasks of the scope. */
  lemma JoinerWaitsForBodies(run: seq<State>, steps: seq<Step>, i: nat, id: nat)
    requires IsTrace(run, steps) && i < |steps| && run[i + 1].wakes != run[i].wakes
    requires id in ThereAtJoin(steps, i) || (!Overtaken(run[i], steps[i]) && id in Added(steps, i))
    ensures Ended(steps, i, id).Some?
  {
    TraceIsRun(run, steps);
    StateFollowsSteps(run, steps, i);
    assert TakesAt(run, steps, i);
    WakesOnlyWhenComplete(run, i, steps[i]);
    CompletedHasEnded(run, steps, i, id);
  }
}
