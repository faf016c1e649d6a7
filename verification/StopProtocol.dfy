/** Registering, deregistering and running stop callbacks, as an interleaving of
    atomic accesses: any number of callbacks come and go on any threads while one
    `request_stop` sweeps the registration slots.

    Which slot `add_registration` finds is left open here: any free slot of any
    list, a new list, or a new chunk at the end of a list. */
module StopProtocol {
  import opened Lists

  datatype Loc = Loc(list: nat, chunk: nat, entry: nat)

  /** Where a callback object is: in its constructor, registered, or in its
      destructor, which runs on some thread. */
  datatype Pc =
    | Ctor | Ask | NeedState | Install | NeedSlot | Recheck | Undo | Inline | Inlining
    | Empty | InlineDone | Registered
    | Dereg(thread: nat) | Compare(thread: nat) | Waiting(thread: nat) | Gone(thread: nat)

  /** `taken` and `runs` are auxiliary: the sweep took the registration, and how
      often the callback was called. */
  datatype Callback = Callback(pc: Pc, loc: Loc, taken: bool, runs: nat)

  datatype Sweep =
    | NotStarted
    | LoadState(thread: nat)
    | SetThread(thread: nat)
    | AtList(list: nat)
    | AtEntry(at: Loc)
    | AtSwap(at: Loc)
    | Took(at: Loc, id: nat)
    | Calling(at: Loc, id: nat)
    | NextChunk(list: nat, chunk: nat)
    | Completing
    | Finished

  datatype State = State(
    requested: bool,
    complete: bool,
    sources: nat,              // live stop_source handles
    installed: bool,           // m_registrationState is not null
    shape: seq<seq<nat>>,      // entry counts of each list's chunks
    slots: map<Loc, nat>,      // occupied entries
    callbacks: map<nat, Callback>,
    notifier: Option<nat>,     // m_notificationThreadId
    sweep: Sweep)

  datatype Step =
    | CopySource
    | DropSource
    | Request(thread: nat)
    | Construct(id: nat)
    | Advance(id: nat)
    | ClaimFree(id: nat, loc: Loc)
    | ClaimList(id: nat, list: nat)
    | ClaimChunk(id: nat, list: nat)
    | Destroy(id: nat, thread: nat)
    | SweepOn

  const FIRST_CHUNK: nat := 16
  const LARGEST_CHUNK: nat := 1024

  function GrownCount(last: nat): nat { if last < LARGEST_CHUNK then last * 2 else LARGEST_CHUNK }

  predicate InShape(shape: seq<seq<nat>>, loc: Loc) {
    loc.list < |shape| && loc.chunk < |shape[loc.list]| && loc.entry < shape[loc.list][loc.chunk]
  }

  predicate AtPc(s: State, id: nat, pc: Pc) { id in s.callbacks && s.callbacks[id].pc == pc }

  predicate GoesOn(pc: Pc) {
    pc != Empty && pc != InlineDone && pc != Registered && !pc.Gone? && pc != NeedSlot
  }

  /** The thread is not sweeping, or is inside a callback that it called. */
  predicate Free(s: State, thread: nat) {
    match s.sweep
    case LoadState(t) => t != thread
    case SetThread(t) => t != thread
    case NotStarted => true
    case Calling(_, _) => true
    case Finished => true
    case _ => s.notifier != Some(thread)
  }

  /** A destructor goes on only while its thread does nothing else. */
  predicate Scheduled(s: State, pc: Pc) {
    match pc
    case Dereg(t) => Free(s, t)
    case Compare(t) => Free(s, t)
    case _ => true
  }

  predicate Enabled(s: State, step: Step) {
    match step
    case CopySource => s.sources > 0
    case DropSource => s.sources > 0
    case Request(_) => s.sources > 0
    case Construct(id) => id !in s.callbacks
    case Advance(id) => id in s.callbacks && GoesOn(s.callbacks[id].pc) && Scheduled(s, s.callbacks[id].pc)
    case ClaimFree(id, loc) => AtPc(s, id, NeedSlot) && InShape(s.shape, loc) && loc !in s.slots
    case ClaimList(id, l) => AtPc(s, id, NeedSlot) && l < |s.shape| && s.shape[l] == []
    case ClaimChunk(id, l) => AtPc(s, id, NeedSlot) && l < |s.shape| && s.shape[l] != []
    case Destroy(id, t) => AtPc(s, id, Registered) && Free(s, t)
    case SweepOn => s.sweep != NotStarted && s.sweep != Finished && SweepFits(s)
  }

  /** The sweep stands where there is something to look at. */
  predicate SweepFits(s: State) {
    match s.sweep
    case AtEntry(at) => at.list < |s.shape| && at.chunk < |s.shape[at.list]|
    case NextChunk(l, c) => l < |s.shape| && c < |s.shape[l]|
    case _ => true
  }

  function Put(s: State, id: nat, cb: Callback): State { s.(callbacks := s.callbacks[id := cb]) }

  function Goto(s: State, id: nat, pc: Pc): State
    requires id in s.callbacks
  {
    Put(s, id, s.callbacks[id].(pc := pc))
  }

  /** Storing the registration in a slot. */
  function Claim(s: State, id: nat, loc: Loc): State
    requires id in s.callbacks
  {
    Put(s, id, s.callbacks[id].(pc := Recheck, loc := loc)).(slots := s.slots[loc := id])
  }

  function Apply(s: State, step: Step): State
    requires Enabled(s, step)
  {
    match step
    case CopySource => s.(sources := s.sources + 1)
    case DropSource => s.(sources := s.sources - 1)
    case Request(t) => if s.requested then s else s.(requested := true, sweep := LoadState(t))
    case Construct(id) => Put(s, id, Callback(Ctor, Loc(0, 0, 0), false, 0))
    case Advance(id) => CallbackOn(s, id)
    case ClaimFree(id, loc) => Claim(s, id, loc)
    case ClaimList(id, l) => Claim(s.(shape := s.shape[l := [FIRST_CHUNK]]), id, Loc(l, 0, 0))
    case ClaimChunk(id, l) =>
      var chunks := s.shape[l];
      Claim(s.(shape := s.shape[l := chunks + [GrownCount(chunks[|chunks| - 1])]]), id, Loc(l, |chunks|, 0))
    case Destroy(id, t) => Goto(s, id, Dereg(t))
    case SweepOn => SweepStep(s)
  }

  predicate Armed(s: State, id: nat, cb: Callback) { cb.loc in s.slots && s.slots[cb.loc] == id }

  /** The accesses that change neither a slot nor the shared words. */
  function Moved(s: State, cb: Callback): Callback {
    match cb.pc
    case Ctor => cb.(pc := if s.requested || s.complete || s.sources > 0 then Ask else Empty)
    case Ask => cb.(pc := if s.requested then Inline else NeedState)
    case NeedState => cb.(pc := if s.installed then NeedSlot else Install)
    case Recheck => cb.(pc := if s.requested then Undo else Registered)
    case Inline => cb.(pc := Inlining, runs := cb.runs + 1)
    case Inlining => cb.(pc := InlineDone)
    case Compare(t) => cb.(pc := if s.notifier == Some(t) then Gone(t) else Waiting(t))
    case Waiting(t) => if s.complete then cb.(pc := Gone(t)) else cb
    case _ => cb
  }

  /** Emptying the callback's own slot, if it still sits there. */
  function Leave(s: State, id: nat, left: Pc, missed: Pc): State
    requires id in s.callbacks
  {
    if Armed(s, id, s.callbacks[id]) then Goto(s, id, left).(slots := s.slots - {s.callbacks[id].loc})
    else Goto(s, id, missed)
  }

  /** One access of a callback's constructor or destructor. */
  function CallbackOn(s: State, id: nat): State
    requires Enabled(s, Advance(id))
  {
    match s.callbacks[id].pc
    case Install => Goto(s, id, NeedSlot).(installed := true)
    case Undo => Leave(s, id, Inline, Registered)
    case Dereg(t) => Leave(s, id, Gone(t), Compare(t))
    case _ => Put(s, id, Moved(s, s.callbacks[id]))
  }

  function After(at: Loc): Loc { at.(entry := at.entry + 1) }

  /** One access of `request_stop` after the first one. */
  function SweepStep(s: State): State
    requires Enabled(s, SweepOn)
  {
    match s.sweep
    case LoadState(t) => s.(sweep := if s.installed then SetThread(t) else Finished)
    case SetThread(t) => s.(notifier := Some(t), sweep := AtList(0))
    case AtList(l) =>
      s.(sweep := if l >= |s.shape| then Completing
                  else if s.shape[l] == [] then AtList(l + 1) else AtEntry(Loc(l, 0, 0)))
    case AtEntry(at) =>
      s.(sweep := if at.entry >= s.shape[at.list][at.chunk] then NextChunk(at.list, at.chunk)
                  else if at in s.slots then AtSwap(at) else AtEntry(After(at)))
    case AtSwap(at) => if at in s.slots then Take(s, at) else s.(sweep := AtEntry(After(at)))
    case Took(at, id) => Call(s, at, id)
    case Calling(at, _) => s.(sweep := AtEntry(After(at)))
    case NextChunk(l, c) =>
      s.(sweep := if c + 1 < |s.shape[l]| then AtEntry(Loc(l, c + 1, 0)) else AtList(l + 1))
    case Completing => s.(complete := true, sweep := Finished)
    case _ => s
  }

  /** The exchange that takes a registration. */
  function Take(s: State, at: Loc): State
    requires at in s.slots
  {
    var id := s.slots[at];
    var s1 := s.(slots := s.slots - {at}, sweep := Took(at, id));
    if id !in s.callbacks then s1 else Put(s1, id, s.callbacks[id].(taken := true))
  }

  /** The call of what was taken begins. */
  function Call(s: State, at: Loc, id: nat): State {
    var s1 := s.(sweep := Calling(at, id));
    if id !in s.callbacks then s1 else Put(s1, id, s.callbacks[id].(runs := s.callbacks[id].runs + 1))
  }

  // ---------- the invariant ----------

  /** Program points at which the registration sits in its slot or was taken. */
  predicate Mid(pc: Pc) { pc == Recheck || pc == Undo || pc == Registered || pc.Dereg? }

  /** Program points reached only with the constructor's second look passed. */
  predicate Kept(pc: Pc) { pc == Registered || pc.Dereg? }

  predicate AtOrAfter(loc: Loc, at: Loc) {
    loc.list > at.list || (loc.list == at.list && (loc.chunk > at.chunk || (loc.chunk == at.chunk && loc.entry >= at.entry)))
  }

  /** The sweep has yet to look at a location. */
  predicate Ahead(sweep: Sweep, loc: Loc) {
    match sweep
    case AtList(l) => loc.list >= l
    case AtEntry(at) => AtOrAfter(loc, at)
    case AtSwap(at) => AtOrAfter(loc, at)
    case Took(at, _) => AtOrAfter(loc, After(at))
    case Calling(at, _) => AtOrAfter(loc, After(at))
    case NextChunk(l, c) => loc.list > l || (loc.list == l && loc.chunk > c)
    case Completing => false
    case Finished => false
    case _ => true
  }

  /** The notifying thread is known, and the sweep goes on or is complete. */
  predicate Sweeping(s: State) {
    && s.notifier.Some? && s.requested
    && s.sweep != NotStarted && !s.sweep.LoadState? && !s.sweep.SetThread?
    && (s.sweep == Finished ==> s.complete)
  }

  /** The callback was taken, and its call is still to begin. */
  predicate Pending(s: State, id: nat) { s.sweep.Took? && s.sweep.id == id }

  predicate CallbackOk(s: State, id: nat, cb: Callback) {
    && cb.runs == (if (cb.taken && !Pending(s, id)) || cb.pc == Inlining || cb.pc == InlineDone then 1 else 0)
    && (cb.pc.Gone? ==> !Pending(s, id))
    && (cb.taken ==> (Mid(cb.pc) || cb.pc.Compare? || cb.pc.Waiting? || cb.pc.Gone?) && Sweeping(s))
    && (Mid(cb.pc) ==> (Armed(s, id, cb) <==> !cb.taken))
    && (cb.pc.Compare? || cb.pc.Waiting? ==> cb.taken)
    && (cb.pc.Waiting? ==> s.notifier != Some(cb.pc.thread))
    && (cb.pc.Gone? && s.sweep.Calling? && s.sweep.id == id ==> s.notifier == Some(cb.pc.thread))
    && (Kept(cb.pc) && !cb.taken && s.requested ==> Ahead(s.sweep, cb.loc))
    && (cb.pc == Empty ==> !s.requested && s.sources == 0)
    && (cb.pc == NeedSlot ==> s.installed)
  }

  ghost predicate CallbackAt(s: State, id: nat) { id in s.callbacks && CallbackOk(s, id, s.callbacks[id]) }

  ghost predicate Callbacks(s: State) {
    forall id {:trigger CallbackAt(s, id)} :: id in s.callbacks ==> CallbackAt(s, id)
  }

  predicate SlotOk(s: State, loc: Loc) {
    && loc in s.slots && InShape(s.shape, loc) && s.slots[loc] in s.callbacks
    && var cb := s.callbacks[s.slots[loc]]; cb.loc == loc && Mid(cb.pc)
  }

  /** The entry count of a list's `c`-th chunk. */
  function ChunkSize(c: nat): (n: nat)
    ensures n >= FIRST_CHUNK
  {
    if c == 0 then FIRST_CHUNK else GrownCount(ChunkSize(c - 1))
  }

  ghost predicate Sized(chunks: seq<nat>) { forall c :: 0 <= c < |chunks| ==> chunks[c] == ChunkSize(c) }

  ghost predicate AllSized(shape: seq<seq<nat>>) { forall l :: 0 <= l < |shape| ==> Sized(shape[l]) }

  ghost predicate Slots(s: State) {
    && AllSized(s.shape)
    && (s.slots != map[] ==> s.installed)
    && forall loc {:trigger SlotOk(s, loc)} :: loc in s.slots ==> SlotOk(s, loc)
  }

  /** The sweep goes through the lists, or is about to be complete. */
  predicate Walking(sweep: Sweep) {
    sweep != NotStarted && !sweep.LoadState? && !sweep.SetThread? && sweep != Finished
  }

  ghost predicate SweepOk(s: State) {
    && (s.requested <==> s.sweep != NotStarted)
    && (s.complete ==> s.sweep == Finished)
    && (s.notifier.Some? ==> Sweeping(s))
    && (Walking(s.sweep) ==> s.notifier.Some?)
    && SweepFits(s)
    && (s.sweep.AtSwap? || s.sweep.Took? || s.sweep.Calling? ==> InShape(s.shape, s.sweep.at))
    && (s.sweep.Took? || s.sweep.Calling? ==> s.sweep.id in s.callbacks && s.callbacks[s.sweep.id].taken)
  }

  ghost predicate Inv(s: State) { SweepOk(s) && Slots(s) && Callbacks(s) }

  ghost predicate Init(s: State) {
    && !s.requested && !s.complete && s.sources == 1 && !s.installed && s.slots == map[] && s.callbacks == map[]
    && s.notifier == None && s.sweep == NotStarted
    && forall l :: 0 <= l < |s.shape| ==> s.shape[l] == []
  }

  lemma InitInv(s: State)
    requires Init(s)
    ensures Inv(s)
  {
  }

  // ---------- steps of callbacks ----------

  /** A callback moves without touching a slot. */
  lemma PutPreserves(s: State, id: nat, cb: Callback)
    requires Inv(s) && CallbackOk(s, id, cb)
    requires id in s.callbacks ==> cb.loc == s.callbacks[id].loc && cb.taken == s.callbacks[id].taken
    requires id in s.callbacks && Armed(s, id, cb) ==> Mid(cb.pc)
    ensures Inv(Put(s, id, cb))
  {
    var s' := Put(s, id, cb);
    forall u | u in s'.callbacks ensures CallbackAt(s', u) {
      if u != id { assert CallbackAt(s, u); }
    }
    forall loc | loc in s'.slots ensures SlotOk(s', loc) {
      assert SlotOk(s, loc);
    }
  }

  /** An early callback sits in no slot. */
  lemma OnlyMidArmed(s: State, id: nat)
    requires Slots(s) && id in s.callbacks && Armed(s, id, s.callbacks[id])
    ensures Mid(s.callbacks[id].pc)
  {
    assert SlotOk(s, s.callbacks[id].loc);
  }

  lemma InstallPreserves(s: State, id: nat)
    requires Inv(s) && AtPc(s, id, Install)
    ensures Inv(Goto(s, id, NeedSlot).(installed := true))
  {
    var s1 := s.(installed := true);
    assert Inv(s1) by {
      forall u | u in s1.callbacks ensures CallbackAt(s1, u) { assert CallbackAt(s, u); }
      forall loc | loc in s1.slots ensures SlotOk(s1, loc) { assert SlotOk(s, loc); }
    }
    assert CallbackAt(s1, id);
    OnlyMidArmedNot(s1, id);
    PutPreserves(s1, id, s.callbacks[id].(pc := NeedSlot));
  }

  lemma OnlyMidArmedNot(s: State, id: nat)
    requires Slots(s) && id in s.callbacks && !Mid(s.callbacks[id].pc)
    ensures !Armed(s, id, s.callbacks[id])
  {
    if Armed(s, id, s.callbacks[id]) { OnlyMidArmed(s, id); }
  }

  /** A callback gives up its own slot, which no other callback is in; or finds
      that the sweep took it. */
  lemma LeavePreserves(s: State, id: nat, left: Pc, missed: Pc)
    requires Inv(s) && id in s.callbacks
    requires (s.callbacks[id].pc == Undo && left == Inline && missed == Registered)
          || (s.callbacks[id].pc.Dereg? && left == Gone(s.callbacks[id].pc.thread) && missed == Compare(s.callbacks[id].pc.thread))
    ensures Inv(Leave(s, id, left, missed))
  {
    assert CallbackAt(s, id);
    if Armed(s, id, s.callbacks[id]) {
      VacatePreserves(s, id, left);
    } else {
      PutPreserves(s, id, s.callbacks[id].(pc := missed));
    }
  }

  lemma VacatePreserves(s: State, id: nat, left: Pc)
    requires Inv(s) && id in s.callbacks && Mid(s.callbacks[id].pc) && Armed(s, id, s.callbacks[id])
    requires left == Inline || left.Gone?
    ensures Inv(Goto(s, id, left).(slots := s.slots - {s.callbacks[id].loc}))
  {
    var s' := Goto(s, id, left).(slots := s.slots - {s.callbacks[id].loc});
    forall u | u in s'.callbacks ensures CallbackAt(s', u) {
      assert CallbackAt(s, u);
    }
    forall loc | loc in s'.slots ensures SlotOk(s', loc) {
      assert SlotOk(s, loc);
    }
  }

  lemma MovedOk(s: State, id: nat)
    requires Inv(s) && Enabled(s, Advance(id))
    requires s.callbacks[id].pc != Install && s.callbacks[id].pc != Undo && !s.callbacks[id].pc.Dereg?
    ensures CallbackOk(s, id, Moved(s, s.callbacks[id]))
  {
    assert CallbackAt(s, id);
  }

  lemma MovePreserves(s: State, id: nat)
    requires Inv(s) && Enabled(s, Advance(id))
    requires s.callbacks[id].pc != Install && s.callbacks[id].pc != Undo && !s.callbacks[id].pc.Dereg?
    ensures Inv(Put(s, id, Moved(s, s.callbacks[id])))
  {
    MovedOk(s, id);
    if !Mid(s.callbacks[id].pc) { OnlyMidArmedNot(s, id); }
    PutPreserves(s, id, Moved(s, s.callbacks[id]));
  }

  lemma CallbackPreserves(s: State, id: nat)
    requires Inv(s) && Enabled(s, Advance(id))
    ensures Inv(CallbackOn(s, id))
  {
    match s.callbacks[id].pc
    case Install => InstallPreserves(s, id);
    case Undo => LeavePreserves(s, id, Inline, Registered);
    case Dereg(t) => LeavePreserves(s, id, Gone(t), Compare(t));
    case _ => MovePreserves(s, id);
  }

  // ---------- claiming a slot ----------

  /** A list or a chunk appears; nothing else changes. */
  predicate Grows(shape: seq<seq<nat>>, shape': seq<seq<nat>>) {
    && |shape'| == |shape|
    && forall l :: 0 <= l < |shape| ==> shape[l] <= shape'[l]
  }

  lemma GrowthPreserves(s: State, shape: seq<seq<nat>>)
    requires Inv(s) && Grows(s.shape, shape) && AllSized(shape)
    ensures Inv(s.(shape := shape))
  {
    var s' := s.(shape := shape);
    forall u | u in s'.callbacks ensures CallbackAt(s', u) { assert CallbackAt(s, u); }
    forall loc | loc in s'.slots ensures SlotOk(s', loc) { assert SlotOk(s, loc); }
  }

  lemma ClaimPreserves(s: State, id: nat, loc: Loc)
    requires Inv(s) && AtPc(s, id, NeedSlot) && InShape(s.shape, loc) && loc !in s.slots
    ensures Inv(Claim(s, id, loc))
  {
    var s' := Claim(s, id, loc);
    assert CallbackAt(s, id);
    ClaimKeepsCallbacks(s, id, loc);
    forall l | l in s'.slots ensures SlotOk(s', l) {
      if l != loc { assert SlotOk(s, l); }
    }
  }

  lemma ClaimKeepsCallbacks(s: State, id: nat, loc: Loc)
    requires Callbacks(s) && Slots(s) && AtPc(s, id, NeedSlot) && loc !in s.slots
    ensures Callbacks(Claim(s, id, loc))
  {
    var s' := Claim(s, id, loc);
    OnlyMidArmedNot(s, id);
    forall u | u in s'.callbacks ensures CallbackAt(s', u) {
      assert CallbackAt(s, u);
      if u != id { assert Armed(s', u, s.callbacks[u]) <==> Armed(s, u, s.callbacks[u]); }
    }
  }

  lemma SlotInShape(s: State, loc: Loc)
    requires Slots(s) && loc in s.slots
    ensures InShape(s.shape, loc)
  {
    assert SlotOk(s, loc);
  }

  lemma ClaimNewPreserves(s: State, id: nat, shape: seq<seq<nat>>, loc: Loc)
    requires Inv(s) && AtPc(s, id, NeedSlot) && Grows(s.shape, shape) && AllSized(shape)
    requires !InShape(s.shape, loc) && InShape(shape, loc)
    ensures Inv(Claim(s.(shape := shape), id, loc))
  {
    if loc in s.slots { SlotInShape(s, loc); }
    GrowthPreserves(s, shape);
    ClaimPreserves(s.(shape := shape), id, loc);
  }

  lemma ClaimListPreserves(s: State, id: nat, l: nat)
    requires Inv(s) && Enabled(s, ClaimList(id, l))
    ensures Inv(Apply(s, ClaimList(id, l)))
  {
    ClaimNewPreserves(s, id, s.shape[l := [FIRST_CHUNK]], Loc(l, 0, 0));
  }

  lemma ClaimChunkPreserves(s: State, id: nat, l: nat)
    requires Inv(s) && Enabled(s, ClaimChunk(id, l))
    ensures Inv(Apply(s, ClaimChunk(id, l)))
  {
    var chunks := s.shape[l];
    assert Sized(chunks);
    var shape := s.shape[l := chunks + [GrownCount(chunks[|chunks| - 1])]];
    assert Sized(shape[l]);
    ClaimNewPreserves(s, id, shape, Loc(l, |chunks|, 0));
  }

  // ---------- the sweep ----------

  /** The sweep moves on past nothing that it had to look at. */
  lemma SweepMoves(s: State, sweep: Sweep)
    requires Inv(s) && s.sweep != NotStarted && SweepOk(s.(sweep := sweep))
    requires !s.sweep.Took? && !sweep.Took? && !sweep.Calling?
    requires Sweeping(s) ==> Sweeping(s.(sweep := sweep))
    requires forall loc {:trigger SlotOk(s, loc)} :: loc in s.slots && Ahead(s.sweep, loc) ==> Ahead(sweep, loc)
    ensures Inv(s.(sweep := sweep))
  {
    var s' := s.(sweep := sweep);
    forall u | u in s'.callbacks ensures CallbackAt(s', u) {
      assert CallbackAt(s, u);
      var cb := s.callbacks[u];
      if Armed(s, u, cb) { assert SlotOk(s, cb.loc); }
    }
    forall loc | loc in s'.slots ensures SlotOk(s', loc) { assert SlotOk(s, loc); }
  }

  lemma RequestPreserves(s: State, t: nat)
    requires Inv(s) && s.sources > 0
    ensures Inv(Apply(s, Request(t)))
  {
    if !s.requested {
      var s' := Apply(s, Request(t));
      forall u | u in s'.callbacks ensures CallbackAt(s', u) { assert CallbackAt(s, u); }
      forall loc | loc in s'.slots ensures SlotOk(s', loc) { assert SlotOk(s, loc); }
    }
  }

  lemma TakePreserves(s: State, at: Loc)
    requires Inv(s) && s.sweep == AtSwap(at) && at in s.slots
    ensures Inv(Take(s, at))
  {
    var s', id := Take(s, at), s.slots[at];
    assert SlotOk(s, at);
    assert CallbackAt(s, id);
    forall u | u in s'.callbacks ensures CallbackAt(s', u) {
      assert CallbackAt(s, u);
      if Armed(s, u, s.callbacks[u]) { assert SlotOk(s, s.callbacks[u].loc); }
    }
    forall loc | loc in s'.slots ensures SlotOk(s', loc) { assert SlotOk(s, loc); }
  }

  lemma CallPreserves(s: State, at: Loc, id: nat)
    requires Inv(s) && s.sweep == Took(at, id)
    ensures Inv(Call(s, at, id))
  {
    var s' := Call(s, at, id);
    forall u | u in s'.callbacks ensures CallbackAt(s', u) { assert CallbackAt(s, u); }
    forall loc | loc in s'.slots ensures SlotOk(s', loc) { assert SlotOk(s, loc); }
  }

  lemma SetThreadPreserves(s: State, t: nat)
    requires Inv(s) && s.sweep == SetThread(t)
    ensures Inv(SweepStep(s))
  {
    var s' := SweepStep(s);
    forall u | u in s'.callbacks ensures CallbackAt(s', u) { assert CallbackAt(s, u); }
    forall loc | loc in s'.slots ensures SlotOk(s', loc) { assert SlotOk(s, loc); }
  }

  lemma CompletePreserves(s: State)
    requires Inv(s) && s.sweep == Completing
    ensures Inv(SweepStep(s))
  {
    var s' := SweepStep(s);
    forall u | u in s'.callbacks ensures CallbackAt(s', u) { assert CallbackAt(s, u); }
    forall loc | loc in s'.slots ensures SlotOk(s', loc) { assert SlotOk(s, loc); }
  }

  /** Where the sweep looks next, at the points where that is all it does. */
  lemma WalkPreserves(s: State)
    requires Inv(s) && Enabled(s, SweepOn) && !s.sweep.SetThread? && !s.sweep.Took? && s.sweep != Completing
    requires s.sweep.AtSwap? ==> s.sweep.at !in s.slots
    ensures Inv(SweepStep(s))
  {
    var s' := SweepStep(s);
    forall loc | loc in s.slots && Ahead(s.sweep, loc) ensures Ahead(s'.sweep, loc) {
      assert SlotOk(s, loc);
    }
    SweepMoves(s, s'.sweep);
  }

  lemma SweepPreserves(s: State)
    requires Inv(s) && Enabled(s, SweepOn)
    ensures Inv(SweepStep(s))
  {
    hide Inv;
    match s.sweep
    case SetThread(t) => SetThreadPreserves(s, t);
    case Completing => CompletePreserves(s);
    case Took(at, id) => CallPreserves(s, at, id);
    case AtSwap(at) => if at in s.slots { TakePreserves(s, at); } else { WalkPreserves(s); }
    case _ => WalkPreserves(s);
  }

  lemma SourcesPreserve(s: State, n: nat)
    requires Inv(s) && s.sources > 0
    ensures Inv(s.(sources := n))
  {
    var s' := s.(sources := n);
    forall u | u in s'.callbacks ensures CallbackAt(s', u) { assert CallbackAt(s, u); }
    forall loc | loc in s'.slots ensures SlotOk(s', loc) { assert SlotOk(s, loc); }
  }

  lemma ConstructPreserves(s: State, id: nat)
    requires Inv(s) && id !in s.callbacks
    ensures Inv(Apply(s, Construct(id)))
  {
    var cb := Callback(Ctor, Loc(0, 0, 0), false, 0);
    if Armed(s, id, cb) { assert SlotOk(s, cb.loc); }
    PutPreserves(s, id, cb);
  }

  lemma DestroyPreserves(s: State, id: nat, t: nat)
    requires Inv(s) && AtPc(s, id, Registered)
    ensures Inv(Goto(s, id, Dereg(t)))
  {
    assert CallbackAt(s, id);
    PutPreserves(s, id, s.callbacks[id].(pc := Dereg(t)));
  }

  lemma StepPreserves(s: State, step: Step)
    requires Inv(s) && Enabled(s, step)
    ensures Inv(Apply(s, step))
  {
    hide Inv;
    match step
    case CopySource => SourcesPreserve(s, s.sources + 1);
    case DropSource => SourcesPreserve(s, s.sources - 1);
    case Request(t) => RequestPreserves(s, t);
    case Construct(id) => ConstructPreserves(s, id);
    case Advance(id) => CallbackPreserves(s, id);
    case ClaimFree(id, loc) => ClaimPreserves(s, id, loc);
    case ClaimList(id, l) => ClaimListPreserves(s, id, l);
    case ClaimChunk(id, l) => ClaimChunkPreserves(s, id, l);
    case Destroy(id, t) => DestroyPreserves(s, id, t);
    case SweepOn => SweepPreserves(s);
  }
}
