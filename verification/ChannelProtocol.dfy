/** The channel on top of the ring-buffer protocol: data slots that senders fill
    and the one receiver empties, and positions that close the channel.

    Every claim is for one number. A claim made by `push` is published only once
    its slot was assigned; that is the rule for users of the channel. */
module ChannelProtocol {
  import opened Lists
  import opened Words
  import R = Ring
  import Rings = RingResults

  datatype Kind = Push | Close

  /** What the receiver's pop wrapper did so far: popped, read through (which may
      leave anything behind), or reset its slot just before publishing. */
  datatype Wrapper = NoWrapper | Fresh | Used | Cleared

  datatype State<V> = State(
    ring: R.State,
    data: seq<Option<V>>,     // mData
    front: int,               // mFrontIndex
    wrapper: Wrapper,
    kinds: map<nat, Kind>,    // what each claim is for
    written: map<int, V>,    // the last value its sender assigned to a number
    popped: seq<Option<V>>)   // what each pop found in its slot

  datatype Step<V> =
    | Claim(id: nat, kind: Kind)
    | Grant(id: nat)
    | Assign(id: nat, v: V)
    | Publish(id: nat)
    | Learn(last: int)
    | Pop
    | Read(left: V)
    | Reset
    | Release

  function Slot<V>(s: State<V>, x: int): (i: nat)
    requires s.ring.size > 0
    ensures i < s.ring.size
  {
    R.SlotOf(s.ring.size, x)
  }

  predicate WellFormed<V>(s: State<V>) {
    s.ring.size > 0 && |s.ring.slots| == s.ring.size && |s.data| == s.ring.size
  }

  predicate Enabled<V>(s: State<V>, step: Step<V>) {
    match step
    case Claim(p, _) => R.Enabled(s.ring, R.ClaimUpTo(p, 1))
    case Grant(p) => R.Enabled(s.ring, R.Grant(p))
    case Assign(p, _) =>
      && p in s.ring.claims && p in s.kinds && s.kinds[p] == Push
      && R.Enabled(s.ring, R.Store(p, s.ring.claims[p].first))
    case Publish(p) =>
      && p in s.ring.claims && p in s.kinds && R.Enabled(s.ring, R.Store(p, s.ring.claims[p].first))
      && (s.kinds[p] == Push ==> s.ring.claims[p].first in s.written)
    case Learn(v) => R.Enabled(s.ring, R.Learn(v))
    case Pop => s.wrapper == NoWrapper && s.front <= s.ring.known
    case Read(_) => s.wrapper == Fresh || s.wrapper == Used
    case Reset => s.wrapper == Fresh || s.wrapper == Used
    case Release => s.wrapper == Cleared && R.Enabled(s.ring, R.Consume(s.front))
  }

  function Apply<V>(s: State<V>, step: Step<V>): State<V>
    requires WellFormed(s) && Enabled(s, step)
  {
    match step
    case Claim(p, kind) => s.(ring := R.Apply(s.ring, R.ClaimUpTo(p, 1)), kinds := s.kinds[p := kind])
    case Grant(p) => s.(ring := R.Apply(s.ring, R.Grant(p)))
    case Assign(p, v) => Assigned(s, s.ring.claims[p].first, v)
    case Publish(p) => s.(ring := R.Apply(s.ring, R.Store(p, s.ring.claims[p].first)))
    case Learn(v) => s.(ring := R.Apply(s.ring, R.Learn(v)))
    case Pop => s.(wrapper := Fresh, popped := s.popped + [s.data[Slot(s, s.front)]])
    case Read(left) => s.(wrapper := Used, data := s.data[Slot(s, s.front) := Some(left)])
    case Reset => s.(wrapper := Cleared, data := s.data[Slot(s, s.front) := None])
    case Release => s.(wrapper := NoWrapper, front := s.front + 1, ring := R.Apply(s.ring, R.Consume(s.front)))
  }

  function Assigned<V>(s: State<V>, x: int, v: V): State<V>
    requires WellFormed(s)
  {
    s.(data := s.data[Slot(s, x) := Some(v)], written := s.written[x := v])
  }

  // ---------- the invariant ----------

  /** What a number's slot holds between its grant and its pop, and hence what its
      pop finds: the value, or nothing for a number that closes the channel. */
  function Content<V>(written: map<int, V>, x: int): Option<V> {
    if x in written then Some(written[x]) else None
  }

  ghost predicate KindOf(initial: int, order: seq<nat>, kinds: map<nat, Kind>, x: int, kind: Kind) {
    && R.Claimed(initial, order, x) && R.Owner(initial, order, x) in kinds
    && kinds[R.Owner(initial, order, x)] == kind
  }

  ghost predicate Single(claims: map<nat, R.Claim>, kinds: map<nat, Kind>) {
    forall p :: p in claims ==> claims[p].count == 1 && p in kinds
  }

  ghost predicate MayBeWritten(r: R.State, kinds: map<nat, Kind>, x: int) {
    Rings.Granted(r, x) && KindOf(r.initial, r.order, kinds, x, Push)
  }

  ghost predicate WrittenByPush<V>(r: R.State, kinds: map<nat, Kind>, written: map<int, V>) {
    forall x {:trigger MayBeWritten(r, kinds, x)} :: x in written ==> MayBeWritten(r, kinds, x)
  }

  /** A published number was claimed, and was written exactly if by a push. */
  ghost predicate Complete<V>(r: R.State, kinds: map<nat, Kind>, written: map<int, V>, x: int) {
    KindOf(r.initial, r.order, kinds, x, if x in written then Push else Close)
  }

  ghost predicate PublishedIsComplete<V>(r: R.State, kinds: map<nat, Kind>, written: map<int, V>) {
    forall x {:trigger Complete(r, kinds, written, x)} :: x in r.published ==> Complete(r, kinds, written, x)
  }

  predicate Open(front: int, wrapper: Wrapper, x: int) { x == front && (wrapper == Used || wrapper == Cleared) }

  ghost predicate Holds<V>(data: seq<Option<V>>, written: map<int, V>, x: int)
    requires |data| > 0
  {
    data[R.SlotOf(|data|, x)] == Content(written, x)
  }

  /** In the window ahead of the receiver slots hold what was written, except the
      one the receiver has its hands on. */
  ghost predicate SlotsHold<V>(consumed: int, data: seq<Option<V>>, front: int, wrapper: Wrapper, written: map<int, V>)
    requires |data| > 0
  {
    forall x {:trigger Holds(data, written, x)} :: consumed < x <= consumed + |data| && !Open(front, wrapper, x) ==>
      Holds(data, written, x)
  }

  ghost predicate FrontOk<V>(s: State<V>)
    requires WellFormed(s)
  {
    && s.front == s.ring.consumed + 1
    && (s.wrapper != NoWrapper ==> s.front <= s.ring.known)
    && (s.wrapper == Cleared ==> s.data[Slot(s, s.front)] == None)
    && |s.popped| == s.ring.consumed - s.ring.initial + if s.wrapper == NoWrapper then 0 else 1
  }

  /** First in, first out: the pops found the contents of the claimed numbers in
      claim order. */
  ghost predicate InOrder<V>(initial: int, popped: seq<Option<V>>, written: map<int, V>) {
    forall i :: 0 <= i < |popped| ==> popped[i] == Content(written, initial + 1 + i)
  }

  ghost predicate Inv<V>(s: State<V>) {
    && R.Inv(s.ring) && WellFormed(s) && Single(s.ring.claims, s.kinds)
    && WrittenByPush(s.ring, s.kinds, s.written) && PublishedIsComplete(s.ring, s.kinds, s.written)
    && SlotsHold(s.ring.consumed, s.data, s.front, s.wrapper, s.written)
    && FrontOk(s) && InOrder(s.ring.initial, s.popped, s.written)
  }

  ghost predicate Init<V>(s: State<V>) {
    && R.Init(s.ring) && WellFormed(s) && s.front == s.ring.initial + 1 && s.wrapper == NoWrapper
    && s.kinds == map[] && s.written == map[] && s.popped == []
    && forall i :: 0 <= i < |s.data| ==> s.data[i] == None
  }

  lemma InitInv<V>(s: State<V>)
    requires Init(s)
    ensures Inv(s)
  {
    R.InitInv(s.ring);
  }

  // ---------- preservation ----------

  /** A step of the ring that keeps the claimed numbers, the window and what is
      known to the receiver. */
  ghost predicate RingKeeps(r: R.State, r': R.State) {
    && r'.size == r.size && |r'.slots| == |r.slots| && r'.initial == r.initial && r'.order == r.order
    && r'.consumed == r.consumed && r.known <= r'.known
    && r.claims.Keys == r'.claims.Keys
    && forall p :: p in r.claims ==> r'.claims[p].count == r.claims[p].count && (r.claims[p].granted ==> r'.claims[p].granted)
  }

  lemma RingStepKeeps<V>(s: State<V>, r: R.State)
    requires Inv(s) && R.Inv(r) && RingKeeps(s.ring, r)
    requires forall x :: x in r.published && x !in s.ring.published ==> Complete(r, s.kinds, s.written, x)
    ensures Inv(s.(ring := r))
  {
    WrittenKeeps(s, r);
    PublishedKeeps(s, r);
  }

  lemma WrittenKeeps<V>(s: State<V>, r: R.State)
    requires WrittenByPush(s.ring, s.kinds, s.written) && RingKeeps(s.ring, r)
    ensures WrittenByPush(r, s.kinds, s.written)
  {
    forall x | x in s.written ensures MayBeWritten(r, s.kinds, x) {
      assert MayBeWritten(s.ring, s.kinds, x);
    }
  }

  lemma PublishedKeeps<V>(s: State<V>, r: R.State)
    requires PublishedIsComplete(s.ring, s.kinds, s.written) && RingKeeps(s.ring, r)
    requires forall x :: x in r.published && x !in s.ring.published ==> Complete(r, s.kinds, s.written, x)
    ensures PublishedIsComplete(r, s.kinds, s.written)
  {
    forall x | x in r.published ensures Complete(r, s.kinds, s.written, x) {
      if x in s.ring.published { assert Complete(s.ring, s.kinds, s.written, x); }
    }
  }

  lemma ClaimPreserves<V>(s: State<V>, p: nat, kind: Kind)
    requires Inv(s) && p !in s.ring.claims
    ensures Inv(Apply(s, Claim(p, kind)))
  {
    var s' := Apply(s, Claim(p, kind));
    R.ClaimPreserves(s.ring, p, 1);
    forall x | x in s.written ensures MayBeWritten(s'.ring, s'.kinds, x) {
      assert MayBeWritten(s.ring, s.kinds, x);
      OwnerIsOld(s.ring, p, x);
    }
    forall x | x in s.ring.published ensures Complete(s'.ring, s'.kinds, s.written, x) {
      assert Complete(s.ring, s.kinds, s.written, x);
      OwnerIsOld(s.ring, p, x);
    }
  }

  lemma OwnerIsOld(r: R.State, p: nat, x: int)
    requires R.Inv(r) && p !in r.claims && R.Claimed(r.initial, r.order, x)
    ensures R.Owner(r.initial, r.order, x) != p
  {
  }

  lemma PublishPreserves<V>(s: State<V>, p: nat)
    requires Inv(s) && Enabled(s, Publish(p))
    ensures Inv(Apply(s, Publish(p)))
  {
    var x := s.ring.claims[p].first;
    var r := R.Apply(s.ring, R.Store(p, x));
    R.StorePreserves(s.ring, p, x);
    ClaimOwns(s.ring, p, x);
    if x in s.written { assert MayBeWritten(s.ring, s.kinds, x); }
    RingStepKeeps(s, r);
  }

  lemma ClaimOwns(r: R.State, p: nat, x: int)
    requires R.Inv(r) && p in r.claims && r.claims[p].Has(x)
    ensures R.Claimed(r.initial, r.order, x) && R.Owner(r.initial, r.order, x) == p
  {
  }

  /** Writing a granted number's slot disturbs no other slot in the window, and no
      number that was popped. */
  lemma AssignPreserves<V>(s: State<V>, p: nat, v: V)
    requires Inv(s) && Enabled(s, Assign(p, v))
    ensures Inv(Apply(s, Assign(p, v)))
  {
    var x := s.ring.claims[p].first;
    var s' := Assigned(s, x, v);
    ClaimOwns(s.ring, p, x);
    AssignKeepsWritten(s, p, v);
    AssignKeepsPublished(s, p, v);
    NotKnown(s.ring, x);
    R.GrantedInWindow(s.ring, p, x);
    AssignKeepsSlots(s, x, v);
    assert InOrder(s.ring.initial, s.popped, s'.written);
  }

  lemma NotKnown(r: R.State, x: int)
    requires R.Inv(r) && x !in r.published && x > r.initial
    ensures r.consumed <= r.known < x
  {
  }

  lemma AssignKeepsWritten<V>(s: State<V>, p: nat, v: V)
    requires Inv(s) && Enabled(s, Assign(p, v))
    ensures WrittenByPush(s.ring, s.kinds, s.written[s.ring.claims[p].first := v])
  {
    var x := s.ring.claims[p].first;
    ClaimOwns(s.ring, p, x);
    forall y | y in s.written || y == x ensures MayBeWritten(s.ring, s.kinds, y) {
      if y != x { assert MayBeWritten(s.ring, s.kinds, y); }
    }
  }

  lemma AssignKeepsPublished<V>(s: State<V>, p: nat, v: V)
    requires PublishedIsComplete(s.ring, s.kinds, s.written) && Enabled(s, Assign(p, v))
    ensures PublishedIsComplete(s.ring, s.kinds, s.written[s.ring.claims[p].first := v])
  {
    var x := s.ring.claims[p].first;
    forall y | y in s.ring.published ensures Complete(s.ring, s.kinds, s.written[x := v], y) {
      assert Complete(s.ring, s.kinds, s.written, y);
    }
  }

  lemma AssignKeepsSlots<V>(s: State<V>, x: int, v: V)
    requires WellFormed(s) && SlotsHold(s.ring.consumed, s.data, s.front, s.wrapper, s.written)
    requires s.ring.consumed < x <= s.ring.consumed + s.ring.size
    ensures var s' := Assigned(s, x, v); SlotsHold(s.ring.consumed, s'.data, s.front, s.wrapper, s'.written)
  {
    var s' := Assigned(s, x, v);
    forall y | s.ring.consumed < y <= s.ring.consumed + |s.data| && !Open(s.front, s.wrapper, y)
      ensures Holds(s'.data, s'.written, y)
    {
      assert Holds(s.data, s.written, y);
      WindowSlotsDistinct(|s.data|, x, y);
    }
  }

  lemma PopPreserves<V>(s: State<V>)
    requires Inv(s) && Enabled(s, Pop)
    ensures Inv(Apply(s, Pop))
  {
    assert Holds(s.data, s.written, s.front);
  }

  /** The receiver's own slot is nobody else's. */
  lemma TouchKeepsSlots<V>(s: State<V>, d: Option<V>, wrapper: Wrapper)
    requires WellFormed(s) && SlotsHold(s.ring.consumed, s.data, s.front, s.wrapper, s.written)
    requires s.front == s.ring.consumed + 1 && (wrapper == Used || wrapper == Cleared)
    ensures SlotsHold(s.ring.consumed, s.data[Slot(s, s.front) := d], s.front, wrapper, s.written)
  {
    var data := s.data[Slot(s, s.front) := d];
    forall y | s.ring.consumed < y <= s.ring.consumed + |s.data| && !Open(s.front, wrapper, y)
      ensures Holds(data, s.written, y)
    {
      assert Holds(s.data, s.written, y);
      WindowSlotsDistinct(|s.data|, s.front, y);
    }
  }

  /** The released slot comes back empty for the number one buffer ahead. */
  lemma ReleaseKeepsSlots<V>(s: State<V>)
    requires Inv(s) && Enabled(s, Release)
    ensures SlotsHold(s.front, s.data, s.front + 1, NoWrapper, s.written)
  {
    var ahead := s.front + |s.data|;
    forall y | s.front < y <= ahead ensures Holds(s.data, s.written, y) {
      if y < ahead {
        assert Holds(s.data, s.written, y);
      } else {
        SlotPeriod(|s.data|, y, -1);
        assert R.SlotOf(|s.data|, y - |s.data|) == R.SlotOf(|s.data|, y);
        NotWritten(s, y);
      }
    }
  }

  lemma NotWritten<V>(s: State<V>, y: int)
    requires Inv(s) && y > s.ring.consumed + s.ring.size
    ensures y !in s.written
  {
    if y in s.written {
      assert MayBeWritten(s.ring, s.kinds, y);
      R.GrantedInWindow(s.ring, R.Owner(s.ring.initial, s.ring.order, y), y);
    }
  }

  lemma ReleasePreserves<V>(s: State<V>)
    requires Inv(s) && Enabled(s, Release)
    ensures Inv(Apply(s, Release))
  {
    var s' := Apply(s, Release);
    R.ConsumePreserves(s.ring, s.front);
    ReleaseKeepsSlots(s);
    forall x | x in s.written ensures MayBeWritten(s'.ring, s.kinds, x) {
      assert MayBeWritten(s.ring, s.kinds, x);
    }
    forall x | x in s.ring.published ensures Complete(s'.ring, s.kinds, s.written, x) {
      assert Complete(s.ring, s.kinds, s.written, x);
    }
  }

  lemma StepPreserves<V>(s: State<V>, step: Step<V>)
    requires Inv(s) && Enabled(s, step)
    ensures Inv(Apply(s, step))
  {
    match step
    case Claim(p, kind) => ClaimPreserves(s, p, kind);
    case Grant(p) =>
      R.StepPreserves(s.ring, R.Grant(p));
      RingStepKeeps(s, R.Apply(s.ring, R.Grant(p)));
    case Assign(p, v) => AssignPreserves(s, p, v);
    case Publish(p) => PublishPreserves(s, p);
    case Learn(last) =>
      R.LearnPreserves(s.ring, last);
      RingStepKeeps(s, R.Apply(s.ring, R.Learn(last)));
    case Pop => PopPreserves(s);
    case Read(left) => TouchKeepsSlots(s, Some(left), Used);
    case Reset => TouchKeepsSlots(s, None, Cleared);
    case Release => ReleasePreserves(s);
  }
}
