/** The manual reset event as an interleaving of atomic accesses: waiters push
    themselves onto a linked stack by compare-and-exchange, and any number of `set`
    and `reset` calls race with them. */
module ResetEvent {
  import opened Lists

  /** `m_state`: the event itself, or the head of the stack of waiters, if any. */
  datatype Word = IsSet | Head(top: Option<nat>)

  datatype Pc = Load | Exchange(seen: Word) | Passed | Suspended | Resumed

  /** Where a suspended waiter is: auxiliary. */
  datatype Place = Nowhere | OnStack | With(setter: nat)

  /** `next` is `m_next`; `epoch` counts the sets that took a stack before the
      waiter got onto one, and `setBy` is the number of the set that resumed it. */
  datatype Waiter = Waiter(pc: Pc, next: Option<nat>, place: Place, epoch: nat, resumes: nat, setBy: nat)

  /** A call of `set` that goes through the stack it took, the `number`-th. */
  datatype Setter = Setter(current: Option<nat>, rest: seq<nat>, number: nat)

  datatype State = State(
    word: Word,
    stack: seq<nat>,           // auxiliary: the waiters linked from the word
    waiters: map<nat, Waiter>,
    setters: map<nat, Setter>,
    sets: nat)                 // sets that found the event not set

  datatype Step =
    | Await(id: nat)
    | Advance(id: nat)
    | Set(t: nat)
    | ResumeNext(t: nat)
    | Reset

  predicate Enabled(s: State, step: Step) {
    match step
    case Await(id) => id !in s.waiters
    case Advance(id) => id in s.waiters && (s.waiters[id].pc == Load || s.waiters[id].pc.Exchange?)
    case Set(t) => t !in s.setters
    case ResumeNext(t) => t in s.setters && s.setters[t].current.Some? && s.setters[t].current.value in s.waiters
    case Reset => true
  }

  function Put(s: State, id: nat, w: Waiter): State { s.(waiters := s.waiters[id := w]) }

  /** Looking at the word: a set event lets the waiter pass, otherwise the waiter
      links itself to the head it saw. */
  function Look(s: State, w: Waiter): Waiter {
    match s.word
    case IsSet => w.(pc := Passed)
    case Head(top) => w.(pc := Exchange(s.word), next := top)
  }

  function Apply(s: State, step: Step): State
    requires Enabled(s, step)
  {
    match step
    case Await(id) => Put(s, id, Waiter(Load, None, Nowhere, 0, 0, 0))
    case Advance(id) =>
      var w := s.waiters[id];
      if w.pc != Exchange(s.word) then Put(s, id, Look(s, w))
      else Put(s, id, w.(pc := Suspended, place := OnStack, epoch := s.sets)).(word := Head(Some(id)), stack := [id] + s.stack)
    case Set(t) =>
      if s.word == IsSet then s
      else s.(word := IsSet, stack := [], waiters := Taken(s.waiters, s.stack, t),
              setters := s.setters[t := Setter(s.word.top, s.stack, s.sets + 1)], sets := s.sets + 1)
    case ResumeNext(t) =>
      var setter := s.setters[t];
      var id := setter.current.value;
      var w := s.waiters[id];
      Put(s, id, w.(pc := Resumed, place := Nowhere, resumes := w.resumes + 1, setBy := setter.number))
        .(setters := s.setters[t := Setter(w.next, if setter.rest == [] then [] else setter.rest[1..], setter.number)])
    case Reset => if s.word == IsSet then s.(word := Head(None)) else s
  }

  function Taken(waiters: map<nat, Waiter>, stack: seq<nat>, t: nat): map<nat, Waiter> {
    map id | id in waiters :: if id in stack then waiters[id].(place := With(t)) else waiters[id]
  }

  // ---------- the invariant ----------

  /** A chain of links that visits exactly the listed waiters, in order. */
  predicate LinkAt(waiters: map<nat, Waiter>, xs: seq<nat>, i: nat)
    requires i < |xs|
  {
    xs[i] in waiters && waiters[xs[i]].next == (if i + 1 < |xs| then Some(xs[i + 1]) else None)
  }

  ghost predicate Chain(waiters: map<nat, Waiter>, xs: seq<nat>, place: Place) {
    && (forall i {:trigger LinkAt(waiters, xs, i)} :: 0 <= i < |xs| ==> LinkAt(waiters, xs, i))
    && (forall i {:trigger xs[i]} :: 0 <= i < |xs| ==> xs[i] in waiters && waiters[xs[i]].place == place)
    && Distinct(xs)
  }

  function First(xs: seq<nat>): Option<nat> { if xs == [] then None else Some(xs[0]) }

  ghost predicate StackOk(s: State) {
    && Chain(s.waiters, s.stack, OnStack)
    && (s.word == IsSet ==> s.stack == []) && (s.word != IsSet ==> s.word.top == First(s.stack))
  }

  ghost predicate SetterOk(s: State, t: nat) {
    && t in s.setters && Chain(s.waiters, s.setters[t].rest, With(t))
    && s.setters[t].current == First(s.setters[t].rest) && s.setters[t].number <= s.sets
  }

  ghost predicate WaiterOk(s: State, id: nat) {
    && id in s.waiters
    && var w := s.waiters[id];
       && (w.pc == Suspended <==> w.place != Nowhere)
       && w.resumes == (if w.pc == Resumed then 1 else 0)
       && (w.pc == Resumed ==> w.setBy == w.epoch + 1)
       && (w.place == OnStack ==> id in s.stack && w.epoch == s.sets)
       && (w.place.With? ==> w.place.setter in s.setters && id in s.setters[w.place.setter].rest
                             && s.setters[w.place.setter].number == w.epoch + 1)
       && (w.pc.Exchange? && w.pc.seen.Head? ==> w.next == w.pc.seen.top)
       && (w.pc.Exchange? ==> w.pc.seen.Head?)
  }

  ghost predicate Inv(s: State) {
    && StackOk(s)
    && (forall t {:trigger SetterOk(s, t)} :: t in s.setters ==> SetterOk(s, t))
    && (forall id {:trigger WaiterOk(s, id)} :: id in s.waiters ==> WaiterOk(s, id))
  }

  ghost predicate Init(s: State) {
    && (s.word == IsSet || s.word == Head(None)) && s.stack == [] && s.waiters == map[] && s.setters == map[] && s.sets == 0
  }

  lemma InitInv(s: State)
    requires Init(s)
    ensures Inv(s)
  {
  }

  // ---------- preservation ----------

  /** A chain does not notice changes to waiters outside. */
  lemma ChainFrame(waiters: map<nat, Waiter>, xs: seq<nat>, place: Place, id: nat, w: Waiter)
    requires Chain(waiters, xs, place) && id !in xs
    ensures Chain(waiters[id := w], xs, place)
  {
    var after := waiters[id := w];
    forall i | 0 <= i < |xs| ensures LinkAt(after, xs, i) && after[xs[i]].place == place {
      assert LinkAt(waiters, xs, i);
      assert xs[i] in xs;
    }
  }

  lemma OnlyInOwnChain(s: State, id: nat, t: nat)
    requires Inv(s) && id in s.waiters
    ensures s.waiters[id].place != OnStack ==> id !in s.stack
    ensures t in s.setters && s.waiters[id].place != With(t) ==> id !in s.setters[t].rest
  {
    if t in s.setters { assert SetterOk(s, t); }
  }

  /** A waiter that is in no chain changes. */
  lemma LoosePreserves(s: State, id: nat, w: Waiter)
    requires Inv(s) && (id in s.waiters ==> s.waiters[id].place == Nowhere)
    requires w.place == Nowhere && WaiterOk(Put(s, id, w), id)
    ensures Inv(Put(s, id, w))
  {
    var s' := Put(s, id, w);
    LooseIsOutside(s, id);
    ChainFrame(s.waiters, s.stack, OnStack, id, w);
    forall t | t in s'.setters ensures SetterOk(s', t) {
      assert SetterOk(s, t);
      ChainFrame(s.waiters, s.setters[t].rest, With(t), id, w);
    }
    forall u | u in s'.waiters ensures WaiterOk(s', u) {
      if u != id { assert WaiterOk(s, u); }
    }
  }

  lemma LooseIsOutside(s: State, id: nat)
    requires Inv(s) && (id in s.waiters ==> s.waiters[id].place == Nowhere)
    ensures id !in s.stack && forall t :: t in s.setters ==> id !in s.setters[t].rest
  {
    forall t | t in s.setters ensures id !in s.setters[t].rest {
      assert SetterOk(s, t);
    }
  }

  lemma AdvancePreserves(s: State, id: nat)
    requires Inv(s) && Enabled(s, Advance(id))
    ensures Inv(Apply(s, Advance(id)))
  {
    assert WaiterOk(s, id);
    if s.waiters[id].pc == Exchange(s.word) {
      PushPreserves(s, id);
    } else {
      LoosePreserves(s, id, Look(s, s.waiters[id]));
    }
  }

  /** The exchange that succeeds puts the waiter on top of the stack it saw. */
  lemma PushPreserves(s: State, id: nat)
    requires Inv(s) && id in s.waiters && s.waiters[id].pc == Exchange(s.word)
    ensures Inv(Apply(s, Advance(id)))
  {
    assert WaiterOk(s, id);
    var w := s.waiters[id].(pc := Suspended, place := OnStack, epoch := s.sets);
    var s' := Put(s, id, w).(word := Head(Some(id)), stack := [id] + s.stack);
    LooseIsOutside(s, id);
    ChainFrame(s.waiters, s.stack, OnStack, id, w);
    PushedChain(s'.waiters, s.stack, id);
    forall t | t in s'.setters ensures SetterOk(s', t) {
      assert SetterOk(s, t);
      ChainFrame(s.waiters, s.setters[t].rest, With(t), id, w);
    }
    forall u | u in s'.waiters ensures WaiterOk(s', u) {
      assert WaiterOk(s, u);
    }
  }

  lemma PushedChain(waiters: map<nat, Waiter>, xs: seq<nat>, id: nat)
    requires Chain(waiters, xs, OnStack) && id in waiters && id !in xs
    requires waiters[id].next == First(xs) && waiters[id].place == OnStack
    ensures Chain(waiters, [id] + xs, OnStack)
  {
    var ys := [id] + xs;
    forall i | 0 <= i < |ys| ensures LinkAt(waiters, ys, i) && waiters[ys[i]].place == OnStack {
      if i > 0 { assert LinkAt(waiters, xs, i - 1); }
    }
  }

  /** `set` takes the whole stack. */
  lemma SetPreserves(s: State, t: nat)
    requires Inv(s) && t !in s.setters && s.word != IsSet
    ensures Inv(Apply(s, Set(t)))
  {
    var s' := Apply(s, Set(t));
    TakenChain(s, s.stack, OnStack, With(t), t);
    forall u | u in s'.setters ensures SetterOk(s', u) {
      if u != t {
        assert SetterOk(s, u);
        TakenApart(s, u);
        TakenChain(s, s.setters[u].rest, With(u), With(u), t);
      }
    }
    forall id | id in s'.waiters ensures WaiterOk(s', id) {
      assert WaiterOk(s, id);
      if id in s.stack { StackedPlace(s, id); }
    }
  }

  lemma StackedPlace(s: State, id: nat)
    requires StackOk(s) && id in s.stack
    ensures id in s.waiters && s.waiters[id].place == OnStack
  {
  }

  lemma TakenApart(s: State, u: nat)
    requires Inv(s) && u in s.setters
    ensures forall id :: id in s.setters[u].rest ==> id !in s.stack
  {
    assert SetterOk(s, u);
    forall id | id in s.setters[u].rest ensures id !in s.stack {
      if id in s.stack { StackedPlace(s, id); }
    }
  }

  lemma TakenChain(s: State, xs: seq<nat>, place: Place, now: Place, t: nat)
    requires Chain(s.waiters, xs, place)
    requires forall id :: id in xs ==> (if id in s.stack then now == With(t) else now == place)
    ensures Chain(Taken(s.waiters, s.stack, t), xs, now)
  {
    var after := Taken(s.waiters, s.stack, t);
    forall i | 0 <= i < |xs| ensures LinkAt(after, xs, i) && after[xs[i]].place == now {
      assert LinkAt(s.waiters, xs, i);
      assert xs[i] in xs;
    }
  }

  /** The setter resumes the next waiter in its chain, having read its link. */
  lemma ResumePreserves(s: State, t: nat)
    requires Inv(s) && Enabled(s, ResumeNext(t))
    ensures Inv(Apply(s, ResumeNext(t)))
  {
    var s', setter := Apply(s, ResumeNext(t)), s.setters[t];
    assert SetterOk(s, t);
    var id := setter.current.value;
    assert LinkAt(s.waiters, setter.rest, 0);
    assert WaiterOk(s, id);
    OnlyInOwnChain(s, id, t);
    ChainFrame(s.waiters, s.stack, OnStack, id, s'.waiters[id]);
    ShortChain(s.waiters, setter.rest, With(t));
    ChainFrame(s.waiters, setter.rest[1..], With(t), id, s'.waiters[id]);
    forall u | u in s'.setters ensures SetterOk(s', u) {
      if u != t {
        assert SetterOk(s, u);
        OnlyInOwnChain(s, id, u);
        ChainFrame(s.waiters, s.setters[u].rest, With(u), id, s'.waiters[id]);
      }
    }
    forall u | u in s'.waiters ensures WaiterOk(s', u) {
      assert WaiterOk(s, u);
    }
  }

  lemma ShortChain(waiters: map<nat, Waiter>, xs: seq<nat>, place: Place)
    requires Chain(waiters, xs, place) && xs != []
    ensures Chain(waiters, xs[1..], place) && xs[0] !in xs[1..] && waiters[xs[0]].next == First(xs[1..])
    ensures forall x :: x in xs[1..] <==> x in xs && x != xs[0]
  {
    var ys := xs[1..];
    assert LinkAt(waiters, xs, 0);
    forall i | 0 <= i < |ys| ensures LinkAt(waiters, ys, i) && waiters[ys[i]].place == place {
      assert LinkAt(waiters, xs, i + 1);
    }
  }

  lemma StepPreserves(s: State, step: Step)
    requires Inv(s) && Enabled(s, step)
    ensures Inv(Apply(s, step))
  {
    match step
    case Await(id) => LoosePreserves(s, id, Waiter(Load, None, Nowhere, 0, 0, 0));
    case Advance(id) => AdvancePreserves(s, id);
    case Set(t) => if s.word != IsSet { SetPreserves(s, t); }
    case ResumeNext(t) => ResumePreserves(s, t);
    case Reset => ResetPreserves(s);
  }

  lemma ResetPreserves(s: State)
    requires Inv(s)
    ensures Inv(Apply(s, Reset))
  {
    var s' := Apply(s, Reset);
    forall t | t in s'.setters ensures SetterOk(s', t) { assert SetterOk(s, t); }
    forall id | id in s'.waiters ensures WaiterOk(s', id) { assert WaiterOk(s, id); }
  }

  // ---------- every run ----------

  ghost predicate Next(s: State, s': State) { exists step :: Enabled(s, step) && s' == Apply(s, step) }

  ghost predicate NextAt(run: seq<State>, i: int)
    requires 0 < i < |run|
  {
    Next(run[i - 1], run[i])
  }

  ghost predicate IsRun(run: seq<State>) {
    && run != [] && Init(run[0])
    && forall i {:trigger NextAt(run, i)} :: 0 < i < |run| ==> NextAt(run, i)
  }

  lemma {:induction false} RunKeepsInv(run: seq<State>, i: nat)
    requires IsRun(run) && i < |run|
    ensures Inv(run[i])
  {
    hide Inv;
    if i == 0 {
      InitInv(run[0]);
    } else {
      RunKeepsInv(run, i - 1);
      assert NextAt(run, i);
      var step :| Enabled(run[i - 1], step) && run[i] == Apply(run[i - 1], step);
      StepPreserves(run[i - 1], step);
    }
  }

  /** No waiter is resumed twice, and by no other `set` than the one that came next
      after it suspended; one that is not resumed yet is on the stack, where the
      next `set` will take it, or in the hands of that very `set`. */
  lemma ResumedByTheNextSet(run: seq<State>, i: nat, id: nat)
    requires IsRun(run) && i < |run| && id in run[i].waiters
    ensures var s, w := run[i], run[i].waiters[id];
            && w.resumes <= 1 && (w.resumes == 1 <==> w.pc == Resumed)
            && (w.pc == Resumed ==> w.setBy == w.epoch + 1)
            && (w.pc == Suspended ==>
                  || (id in s.stack && s.word != IsSet && w.epoch == s.sets)
                  || (exists t :: t in s.setters && id in s.setters[t].rest && s.setters[t].number == w.epoch + 1))
  {
    RunKeepsInv(run, i);
    assert WaiterOk(run[i], id);
  }

  /** Once every `set` has gone through its chain, only an event that is not set
      has suspended waiters. */
  lemma SetLeavesNoneBehind(run: seq<State>, i: nat, id: nat)
    requires IsRun(run) && i < |run| && id in run[i].waiters && run[i].waiters[id].pc == Suspended
    requires forall t :: t in run[i].setters ==> run[i].setters[t].current == None
    ensures run[i].word != IsSet && id in run[i].stack
  {
    var s := run[i];
    RunKeepsInv(run, i);
    assert WaiterOk(s, id);
    forall t | t in s.setters ensures s.setters[t].rest == [] {
      assert SetterOk(s, t);
    }
  }

  /** A call of `set` that goes on can always take the next link; it resumes its
      chain from the newest waiter to the oldest and then ends. */
  lemma SetterGoesOn(run: seq<State>, i: nat, t: nat)
    requires IsRun(run) && i < |run| && t in run[i].setters && run[i].setters[t].rest != []
    ensures Enabled(run[i], ResumeNext(t))
    ensures var s' := Apply(run[i], ResumeNext(t));
            && t in s'.setters && s'.setters[t].rest == run[i].setters[t].rest[1..]
            && run[i].setters[t].rest[0] in s'.waiters && s'.waiters[run[i].setters[t].rest[0]].pc == Resumed
  {
    RunKeepsInv(run, i);
    assert SetterOk(run[i], t);
    assert LinkAt(run[i].waiters, run[i].setters[t].rest, 0);
  }
}
