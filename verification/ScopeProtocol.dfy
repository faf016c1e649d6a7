/** Scoped tasks and the barrier of their scope, as an interleaving of atomic
    accesses: any number of eagerly started tasks complete, while their owners drop
    or await them, and one joiner waits for all of them.

    A task may be added only while no decrement that reached zero is in flight. Who
    adds from inside a running task of the scope, or while a `when_all_scope` holds
    its own count, keeps that rule; a plain `async_scope` does not keep it by itself. */
module ScopeProtocol {

  /** A task's own progress: its body, then the steps of `final_awaitable`. */
  datatype Frame = Body | Or | Push | Lower | Cross | End | Done

  /** What the task's `fetch_or` elected it to do. */
  datatype Fate = NoFate | RunAwaiter | DestroySelf

  /** The progress of the task's owner: a `scoped_task` or its awaiter. */
  datatype Side = Held | Storing | Setting | Asleep | Woken | DropPush | DropDestroy | Gone

  /** `destroyed`, `resumed` and `reported` count the destructions of the frame,
      resumptions of the awaiter, and rethrown exceptions. */
  datatype Task = Task(
    frame: Frame, fate: Fate, side: Side, awaited: bool,
    threw: bool,
    completed: bool,          // completion word: has_completed
    claimed: bool,            // completion word: has_continuation_or_dropped
    continuation: bool,       // m_continuation is not null
    destroyed: nat, resumed: nat, reported: nat)

  /** The joiner in the barrier's `await_suspend`. */
  datatype Joiner = Outside | Store | Decrement(stored: bool) | Crossing(stored: bool) | Suspended

  datatype State = State(
    count: int,               // the barrier's m_count
    continuation: bool,       // the barrier's m_continuation is set
    tasks: map<nat, Task>,
    exceptions: seq<nat>,     // the tasks whose exceptions the scope keeps
    joiner: Joiner,
    joinedFor: set<nat>,      // the tasks that were there when the last join began
    joins: nat,
    wakes: nat)

  datatype Step =
    | Add(id: nat)
    | Finish(id: nat, throws: bool)
    | FrameOn(id: nat)
    | Begin(id: nat, awaits: bool)
    | SideOn(id: nat)
    | Join
    | JoinerOn

  ghost predicate NoCrossing(s: State) {
    !s.joiner.Crossing? && forall id :: id in s.tasks ==> s.tasks[id].frame != Cross
  }

  ghost predicate Enabled(s: State, step: Step) {
    match step
    case Add(id) => id !in s.tasks && NoCrossing(s)
    case Finish(id, _) => id in s.tasks && s.tasks[id].frame == Body
    case FrameOn(id) => id in s.tasks && s.tasks[id].frame != Body && s.tasks[id].frame != Done
    case Begin(id, _) => id in s.tasks && s.tasks[id].side == Held
    case SideOn(id) => id in s.tasks && s.tasks[id].side != Held && s.tasks[id].side != Asleep && s.tasks[id].side != Gone
    case Join => s.joiner == Outside
    case JoinerOn => s.joiner != Outside && s.joiner != Suspended
  }

  function Put(s: State, id: nat, tk: Task): State { s.(tasks := s.tasks[id := tk]) }

  function AddTask(s: State, id: nat): State {
    Put(s, id, Task(Body, NoFate, Held, false, false, false, false, false, 0, 0, 0)).(count := s.count + 1)
  }

  /** The joiner's coroutine goes on. */
  function Wake(s: State): State { s.(continuation := false, joiner := Outside, wakes := s.wakes + 1) }

  function Apply(s: State, step: Step): State
    requires Enabled(s, step)
  {
    match step
    case Add(id) => AddTask(s, id)
    case Finish(id, throws) => Put(s, id, s.tasks[id].(frame := Or, threw := throws))
    case FrameOn(id) => FrameStep(s, id)
    case Begin(id, awaits) => Put(s, id, s.tasks[id].(side := Storing, awaited := awaits))
    case SideOn(id) => SideStep(s, id)
    case Join =>
      s.(count := s.count + 1, joiner := if s.count + 1 > 1 then Store else Decrement(false),
         joinedFor := s.tasks.Keys, joins := s.joins + 1)
    case JoinerOn => JoinerStep(s)
  }

  /** What the task's `fetch_or` makes of the task. */
  function Elect(tk: Task): Task {
    if !tk.claimed then tk.(frame := Lower, completed := true)
    else if tk.continuation then tk.(frame := Lower, completed := true, fate := RunAwaiter)
    else tk.(frame := if tk.threw then Push else Lower, completed := true, fate := DestroySelf)
  }

  /** The end of the task: it destroys its frame or transfers to its awaiter. */
  function Leave(tk: Task): Task {
    match tk.fate
    case NoFate => tk.(frame := Done)
    case RunAwaiter => tk.(frame := Done, side := Woken, resumed := tk.resumed + 1)
    case DestroySelf => tk.(frame := Done, destroyed := tk.destroyed + 1)
  }

  /** Giving back the count of the barrier. */
  function Lowered(s: State, tk: Task): Task { tk.(frame := if s.count == 1 then Cross else End) }

  function FrameStep(s: State, id: nat): State
    requires Enabled(s, FrameOn(id))
  {
    var tk := s.tasks[id];
    match tk.frame
    case Or => Put(s, id, Elect(tk))
    case Push => Put(s, id, tk.(frame := Lower)).(exceptions := s.exceptions + [id])
    case Lower => Put(s, id, Lowered(s, tk)).(count := s.count - 1)
    case Cross => if s.continuation then Wake(Put(s, id, tk.(frame := End))) else Put(s, id, tk.(frame := End))
    case _ => Put(s, id, Leave(tk))
  }

  /** What the owner's accesses make of the task. */
  function Owned(tk: Task): Task {
    match tk.side
    case Storing => tk.(side := Setting, continuation := tk.awaited)
    case Setting =>
      if tk.awaited then
        if tk.completed then tk.(side := Woken, claimed := true, resumed := tk.resumed + 1)
        else tk.(side := Asleep, claimed := true)
      else tk.(side := if !tk.completed then Gone else if tk.threw then DropPush else DropDestroy, claimed := true)
    case DropPush => tk.(side := DropDestroy)
    case DropDestroy => tk.(side := Gone, destroyed := tk.destroyed + 1)
    case Woken => tk.(side := Gone, reported := tk.reported + (if tk.threw then 1 else 0), destroyed := tk.destroyed + 1)
    case _ => tk
  }

  function SideStep(s: State, id: nat): State
    requires Enabled(s, SideOn(id))
  {
    var tk := s.tasks[id];
    var s1 := Put(s, id, Owned(tk));
    if tk.side == DropPush then s1.(exceptions := s.exceptions + [id]) else s1
  }

  function JoinerStep(s: State): State
    requires Enabled(s, JoinerOn)
  {
    match s.joiner
    case Store => s.(continuation := true, joiner := Decrement(true))
    case Decrement(stored) =>
      var s1 := s.(count := s.count - 1);
      if s.count == 1 then s1.(joiner := Crossing(stored))
      else if stored then s1.(joiner := Suspended)
      else s1.(joiner := Outside, wakes := s.wakes + 1)
    case Crossing(stored) =>
      if s.continuation then Wake(s)
      else if stored then s.(joiner := Suspended)
      else s.(joiner := Outside, wakes := s.wakes + 1)
    case _ => s
  }

  // ---------- one task ----------

  function Destroyed(tk: Task): nat {
    if tk.awaited then (if tk.side == Gone then 1 else 0)
    else if tk.fate == DestroySelf then (if tk.frame == Done then 1 else 0)
    else if tk.side == Gone && tk.completed then 1 else 0
  }

  function Listed(tk: Task): nat {
    if !tk.threw || tk.awaited then 0
    else if tk.fate == DestroySelf then (if tk.frame == Push then 0 else 1)
    else if tk.side == DropDestroy || (tk.side == Gone && tk.completed) then 1 else 0
  }

  function Resumed(tk: Task): nat { if tk.side == Woken || (tk.side == Gone && tk.awaited) then 1 else 0 }

  function Reported(tk: Task): nat { if tk.side == Gone && tk.awaited && tk.threw then 1 else 0 }

  /** Of the two that set a bit of the completion word the second one acts. */
  predicate Consistent(tk: Task) {
    && (tk.completed <==> tk.frame != Body && tk.frame != Or)
    && (tk.claimed <==> tk.side != Held && tk.side != Storing && tk.side != Setting)
    && (tk.side == Held ==> !tk.awaited)
    && (tk.side != Held && tk.side != Storing ==> tk.continuation == tk.awaited)
    && (tk.side == Asleep || tk.side == Woken ==> tk.awaited)
    && (tk.side == DropPush || tk.side == DropDestroy ==> !tk.awaited && tk.completed && tk.fate == NoFate)
    && (tk.fate != NoFate ==> tk.completed && tk.claimed && (tk.fate == RunAwaiter <==> tk.awaited))
    && (tk.side == Asleep && tk.completed ==> tk.fate == RunAwaiter && tk.frame != Done)
    && (tk.side == Woken || (tk.side == Gone && tk.awaited) ==> tk.completed && (tk.fate == RunAwaiter ==> tk.frame == Done))
    && (tk.fate == DestroySelf ==> tk.side == Gone)
    && (tk.frame == Push ==> tk.threw && tk.fate == DestroySelf)
    && (tk.side == DropPush ==> tk.threw)
    && (tk.frame == Body ==> !tk.threw)
  }

  predicate TaskOk(tk: Task, listed: nat) {
    && Consistent(tk)
    && tk.destroyed == Destroyed(tk) && listed == Listed(tk)
    && tk.resumed == Resumed(tk) && tk.reported == Reported(tk)
  }

  // ---------- the barrier ----------

  predicate Holding(frame: Frame) { frame == Body || frame == Or || frame == Push || frame == Lower }

  /** The tasks that hold a count of the barrier. */
  function Holders(tasks: map<nat, Task>): set<nat> { set id | id in tasks && Holding(tasks[id].frame) }

  function JoinerHolds(joiner: Joiner): nat { if joiner == Store || joiner.Decrement? then 1 else 0 }

  ghost predicate BarrierOk(s: State) {
    && s.count == |Holders(s.tasks)| + JoinerHolds(s.joiner)
    && (s.continuation <==> s.joiner == Decrement(true) || s.joiner == Crossing(true) || s.joiner == Suspended)
    && s.joins == s.wakes + if s.joiner == Outside then 0 else 1
  }

  predicate Crosses(tasks: map<nat, Task>, id: nat) { id in tasks && tasks[id].frame == Cross }

  ghost predicate Quiet(tasks: map<nat, Task>) { forall id :: !Crosses(tasks, id) }

  ghost predicate OnlyCrosses(tasks: map<nat, Task>, id: nat) {
    Crosses(tasks, id) && forall other :: Crosses(tasks, other) ==> other == id
  }

  /** A joiner that stored its handle, and has not met a zero yet. */
  predicate Stored(joiner: Joiner) { joiner == Store || joiner == Decrement(true) || joiner == Crossing(true) }

  /** A zero crossing in flight is the only one of a task, and no task is left. */
  ghost predicate CrossingOk(tasks: map<nat, Task>, joiner: Joiner) {
    && (Quiet(tasks) || (Holders(tasks) == {} && !Stored(joiner) && exists id :: OnlyCrosses(tasks, id)))
    && (joiner.Crossing? ==> Holders(tasks) == {})
    && (joiner == Suspended ==> Holders(tasks) != {} || !Quiet(tasks))
  }

  /** Whoever waits without having stored its handle found nothing to wait for. */
  ghost predicate JoinedOk(tasks: map<nat, Task>, joiner: Joiner, joinedFor: set<nat>) {
    && joinedFor <= tasks.Keys
    && (joiner == Decrement(false) || joiner == Crossing(false) ==> joinedFor !! Holders(tasks))
  }

  ghost predicate Shared(s: State) {
    BarrierOk(s) && CrossingOk(s.tasks, s.joiner) && JoinedOk(s.tasks, s.joiner, s.joinedFor)
  }

  ghost predicate TaskAt(tasks: map<nat, Task>, exceptions: seq<nat>, id: nat) {
    id in tasks && TaskOk(tasks[id], multiset(exceptions)[id])
  }

  ghost predicate Tasks(tasks: map<nat, Task>, exceptions: seq<nat>) {
    && (forall id {:trigger TaskAt(tasks, exceptions, id)} :: id in tasks ==> TaskAt(tasks, exceptions, id))
    && (forall id :: id in exceptions ==> id in tasks)
  }

  ghost predicate Inv(s: State) { Tasks(s.tasks, s.exceptions) && Shared(s) }

  ghost predicate Init(s: State) {
    && s.count == 0 && !s.continuation && s.tasks == map[] && s.exceptions == [] && s.joiner == Outside
    && s.joinedFor == {} && s.joins == 0 && s.wakes == 0
  }

  lemma InitInv(s: State)
    requires Init(s)
    ensures Inv(s)
  {
    assert Holders(s.tasks) == {};
  }

  // ---------- preservation ----------

  /** A task changes; the list of exceptions grows by it, or not. */
  lemma PutKeepsTasks(s: State, id: nat, tk: Task, exceptions: seq<nat>)
    requires Tasks(s.tasks, s.exceptions) && (exceptions == s.exceptions || exceptions == s.exceptions + [id])
    requires TaskOk(tk, multiset(exceptions)[id])
    ensures Tasks(s.tasks[id := tk], exceptions)
  {
    var after := s.tasks[id := tk];
    forall u | u in after ensures TaskAt(after, exceptions, u) {
      if u != id {
        assert TaskAt(s.tasks, s.exceptions, u);
        assert multiset(exceptions)[u] == multiset(s.exceptions)[u];
      }
    }
  }

  lemma HoldersAfter(s: State, id: nat, tk: Task)
    ensures var was, now := id in s.tasks && Holding(s.tasks[id].frame), Holding(tk.frame);
            && Holders(s.tasks[id := tk]) == (if now then Holders(s.tasks) + {id} else Holders(s.tasks) - {id})
            && |Holders(s.tasks[id := tk])| == |Holders(s.tasks)| + (if now && !was then 1 else 0) - (if was && !now then 1 else 0)
  {
    HoldersMoved(s.tasks, id, tk);
    OneMore(Holders(s.tasks), id);
  }

  lemma HoldersMoved(tasks: map<nat, Task>, id: nat, tk: Task)
    ensures Holders(tasks[id := tk]) == if Holding(tk.frame) then Holders(tasks) + {id} else Holders(tasks) - {id}
  {
  }

  lemma OneMore(hs: set<nat>, id: nat)
    ensures |hs + {id}| == |hs| + (if id in hs then 0 else 1)
    ensures |hs - {id}| == |hs| - (if id in hs then 1 else 0)
  {
    if id in hs {
      assert hs == (hs - {id}) + {id} && hs + {id} == hs;
    } else {
      assert hs - {id} == hs;
    }
  }

  lemma CrossersAfter(s: State, id: nat, tk: Task)
    requires id in s.tasks && (tk.frame == Cross <==> s.tasks[id].frame == Cross)
    ensures Quiet(s.tasks[id := tk]) <==> Quiet(s.tasks)
    ensures forall u :: OnlyCrosses(s.tasks[id := tk], u) <==> OnlyCrosses(s.tasks, u)
  {
    var tasks := s.tasks[id := tk];
    forall u ensures Crosses(tasks, u) <==> Crosses(s.tasks, u) {
    }
  }

  /** A task moves without a bearing on the barrier. */
  lemma QuietKeepsBarrier(s: State, id: nat, tk: Task)
    requires Shared(s) && id in s.tasks
    requires Holding(tk.frame) == Holding(s.tasks[id].frame) && (tk.frame == Cross <==> s.tasks[id].frame == Cross)
    ensures Shared(Put(s, id, tk))
  {
    HoldersAfter(s, id, tk);
    CrossersAfter(s, id, tk);
    assert Holders(s.tasks[id := tk]) == Holders(s.tasks);
    assert s.tasks[id := tk].Keys == s.tasks.Keys;
    if u :| OnlyCrosses(s.tasks, u) { assert OnlyCrosses(s.tasks[id := tk], u); }
  }

  lemma QuietPreserves(s: State, id: nat, tk: Task, exceptions: seq<nat>)
    requires Inv(s) && id in s.tasks && (exceptions == s.exceptions || exceptions == s.exceptions + [id])
    requires TaskOk(tk, multiset(exceptions)[id])
    requires Holding(tk.frame) == Holding(s.tasks[id].frame) && (tk.frame == Cross <==> s.tasks[id].frame == Cross)
    ensures Inv(Put(s, id, tk).(exceptions := exceptions))
  {
    PutKeepsTasks(s, id, tk, exceptions);
    QuietKeepsBarrier(s, id, tk);
  }

  lemma AddPreserves(s: State, id: nat)
    requires Inv(s) && Enabled(s, Add(id))
    ensures Inv(Apply(s, Add(id)))
  {
    var tk := Task(Body, NoFate, Held, false, false, false, false, false, 0, 0, 0);
    assert id !in s.exceptions;
    PutKeepsTasks(s, id, tk, s.exceptions);
    AddKeepsBarrier(s, id, tk);
  }

  lemma AddKeepsBarrier(s: State, id: nat, tk: Task)
    requires Shared(s) && id !in s.tasks && NoCrossing(s) && tk.frame == Body
    ensures Shared(Put(s, id, tk).(count := s.count + 1))
  {
    HoldersAfter(s, id, tk);
    var tasks := s.tasks[id := tk];
    assert forall u :: !Crosses(tasks, u);
  }

  lemma ElectOk(tk: Task, n: nat)
    requires TaskOk(tk, n) && tk.frame == Or
    ensures TaskOk(Elect(tk), n)
  {
  }

  lemma LeaveOk(tk: Task, n: nat)
    requires TaskOk(tk, n) && tk.frame == End
    ensures TaskOk(Leave(tk), n)
  {
  }

  lemma OwnedOk(tk: Task, n: nat)
    requires TaskOk(tk, n) && tk.side != Held && tk.side != Asleep && tk.side != Gone
    ensures TaskOk(Owned(tk), if tk.side == DropPush then n + 1 else n)
    ensures Owned(tk).frame == tk.frame
  {
  }

  /** The task gives back its count; the last one to do so has to look for a
      joiner. */
  lemma LowerKeepsBarrier(s: State, id: nat)
    requires Shared(s) && id in s.tasks && s.tasks[id].frame == Lower
    ensures Shared(Put(s, id, Lowered(s, s.tasks[id])).(count := s.count - 1))
  {
    var tk := Lowered(s, s.tasks[id]);
    HoldersAfter(s, id, tk);
    assert id in Holders(s.tasks);
    assert s.tasks[id := tk].Keys == s.tasks.Keys;
    LowerCrossing(s, id, tk);
  }

  lemma LowerCrossing(s: State, id: nat, tk: Task)
    requires BarrierOk(s) && CrossingOk(s.tasks, s.joiner) && id in Holders(s.tasks)
    requires tk.frame == (if s.count == 1 then Cross else End)
    ensures CrossingOk(s.tasks[id := tk], s.joiner)
  {
    HoldersAfter(s, id, tk);
    EmptySet(Holders(s.tasks[id := tk]));
    LastIsAlone(s.tasks, id, tk);
  }

  lemma LastIsAlone(tasks: map<nat, Task>, id: nat, tk: Task)
    requires Quiet(tasks)
    ensures if tk.frame == Cross then OnlyCrosses(tasks[id := tk], id) else Quiet(tasks[id := tk])
  {
    var after := tasks[id := tk];
    forall u | u != id ensures !Crosses(after, u) {
      assert !Crosses(tasks, u);
    }
  }

  lemma LowerPreserves(s: State, id: nat)
    requires Inv(s) && id in s.tasks && s.tasks[id].frame == Lower
    ensures Inv(FrameStep(s, id))
  {
    assert TaskAt(s.tasks, s.exceptions, id);
    LowerKeepsBarrier(s, id);
    PutKeepsTasks(s, id, Lowered(s, s.tasks[id]), s.exceptions);
  }

  lemma EmptySet(hs: set<nat>)
    ensures |hs| == 0 <==> hs == {}
  {
  }

  /** Whoever brought the count to zero resumes the joiner, if there is one. */
  lemma CrossKeepsBarrier(s: State, id: nat)
    requires Shared(s) && id in s.tasks && s.tasks[id].frame == Cross
    ensures Shared(FrameStep(s, id))
  {
    var tk := s.tasks[id].(frame := End);
    HoldersAfter(s, id, tk);
    var tasks := s.tasks[id := tk];
    assert tasks.Keys == s.tasks.Keys;
    assert Crosses(s.tasks, id);
    var only :| OnlyCrosses(s.tasks, only);
    forall u ensures !Crosses(tasks, u) {
      if u != id { assert !Crosses(s.tasks, u); }
    }
  }

  lemma CrossPreserves(s: State, id: nat)
    requires Inv(s) && id in s.tasks && s.tasks[id].frame == Cross
    ensures Inv(FrameStep(s, id))
  {
    assert TaskAt(s.tasks, s.exceptions, id);
    CrossKeepsBarrier(s, id);
    PutKeepsTasks(s, id, s.tasks[id].(frame := End), s.exceptions);
  }

  lemma FramePreserves(s: State, id: nat)
    requires Inv(s) && Enabled(s, FrameOn(id))
    ensures Inv(FrameStep(s, id))
  {
    var tk := s.tasks[id];
    assert TaskAt(s.tasks, s.exceptions, id);
    hide Inv;
    match tk.frame
    case Lower => LowerPreserves(s, id);
    case Cross => CrossPreserves(s, id);
    case Or =>
      ElectOk(tk, multiset(s.exceptions)[id]);
      QuietPreserves(s, id, Elect(tk), s.exceptions);
    case Push => QuietPreserves(s, id, tk.(frame := Lower), s.exceptions + [id]);
    case End =>
      LeaveOk(tk, multiset(s.exceptions)[id]);
      QuietPreserves(s, id, Leave(tk), s.exceptions);
  }

  lemma SidePreserves(s: State, id: nat)
    requires Inv(s) && Enabled(s, SideOn(id))
    ensures Inv(SideStep(s, id))
  {
    var tk := s.tasks[id];
    assert TaskAt(s.tasks, s.exceptions, id);
    OwnedOk(tk, multiset(s.exceptions)[id]);
    QuietPreserves(s, id, Owned(tk), if tk.side == DropPush then s.exceptions + [id] else s.exceptions);
  }

  lemma JoinPreserves(s: State)
    requires Inv(s) && s.joiner == Outside
    ensures Inv(Apply(s, Join))
  {
    EmptySet(Holders(s.tasks));
  }

  lemma JoinerPreserves(s: State)
    requires Inv(s) && Enabled(s, JoinerOn)
    ensures Inv(JoinerStep(s))
  {
    EmptySet(Holders(s.tasks));
  }

  lemma StepPreserves(s: State, step: Step)
    requires Inv(s) && Enabled(s, step)
    ensures Inv(Apply(s, step))
  {
    match step
    case Add(id) => AddPreserves(s, id);
    case Finish(id, throws) =>
      assert TaskAt(s.tasks, s.exceptions, id);
      QuietPreserves(s, id, s.tasks[id].(frame := Or, threw := throws), s.exceptions);
    case FrameOn(id) => FramePreserves(s, id);
    case Begin(id, awaits) =>
      assert TaskAt(s.tasks, s.exceptions, id);
      QuietPreserves(s, id, s.tasks[id].(side := Storing, awaited := awaits), s.exceptions);
    case SideOn(id) => SidePreserves(s, id);
    case Join => JoinPreserves(s);
    case JoinerOn => JoinerPreserves(s);
  }
}
