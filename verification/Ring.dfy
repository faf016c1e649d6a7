/** The ring-buffer protocol of the multi-producer sequencer: claiming, waiting
    for room, storing into `m_published` in any order, and consuming.

    A state keeps the abstract set of published numbers next to the slot array;
    the invariant says that the array represents the set. */
module Ring {
  import opened Words

  /** The numbers `first .. first + count` that one `claim_one` or `claim_up_to`
      took; granted once the consumer has released the slots. */
  datatype Claim = Claim(first: int, count: nat, granted: bool) {
    predicate Has(x: int) { first <= x < first + count }
  }

  datatype State = State(
    size: nat,              // buffer size
    initial: int,           // the sequencer's initial number
    next: int,              // m_nextToClaim
    consumed: int,          // what the consumer's barrier has published
    known: int,             // the consumer's last known published number
    slots: seq<int>,        // m_published
    claims: map<nat, Claim>,
    order: seq<nat>,        // which claim took each number, from the first on
    published: set<int>)

  datatype Step =
    | ClaimUpTo(id: nat, count: nat)
    | Grant(id: nat)
    | Store(id: nat, x: int)
    | Learn(v: int)
    | Consume(v: int)

  function Min(a: nat, b: nat): nat { if a < b then a else b }

  predicate Enabled(s: State, step: Step) {
    match step
    case ClaimUpTo(p, _) => p !in s.claims
    case Grant(p) => p in s.claims && s.claims[p].first + s.claims[p].count - 1 - s.size <= s.consumed
    case Store(p, x) => p in s.claims && s.claims[p].granted && s.claims[p].Has(x) && x !in s.published
    case Learn(v) => s.known < v && forall x :: s.known < x <= v ==> x in s.published
    case Consume(v) => s.consumed < v <= s.known
  }

  function SlotOf(size: nat, x: int): (i: nat)
    requires size > 0
    ensures i < size
  {
    x % size
  }

  function Apply(s: State, step: Step): State
    requires s.size > 0 && |s.slots| == s.size && Enabled(s, step)
  {
    match step
    case ClaimUpTo(p, count) =>
      var taken := Min(count, s.size);
      s.(next := s.next + taken,
         claims := s.claims[p := Claim(s.next, taken, false)],
         order := s.order + seq(taken, _ => p))
    case Grant(p) => s.(claims := s.claims[p := s.claims[p].(granted := true)])
    case Store(_, x) => s.(slots := s.slots[SlotOf(s.size, x) := x], published := s.published + {x})
    case Learn(v) => s.(known := v)
    case Consume(v) => s.(consumed := v)
  }

  // ---------- the invariant ----------

  predicate Claimed(initial: int, order: seq<nat>, x: int) { initial < x <= initial + |order| }

  function Owner(initial: int, order: seq<nat>, x: int): nat
    requires Claimed(initial, order, x)
  {
    order[x - initial - 1]
  }

  /** Claims tile the numbers after the initial one, without overlap. */
  ghost predicate Tiled(initial: int, order: seq<nat>, claims: map<nat, Claim>) {
    && (forall x :: Claimed(initial, order, x) ==>
          Owner(initial, order, x) in claims && claims[Owner(initial, order, x)].Has(x))
    && (forall p, x :: p in claims && claims[p].Has(x) ==>
          Claimed(initial, order, x) && Owner(initial, order, x) == p)
    && (forall p :: p in claims ==> initial < claims[p].first <= initial + 1 + |order|)
  }

  /** A granted claim lies within one buffer of what is consumed. */
  ghost predicate Roomy(s: State) {
    forall p :: p in s.claims && s.claims[p].granted ==>
      s.claims[p].first + s.claims[p].count - 1 - s.size <= s.consumed
  }

  predicate GrantedTo(initial: int, order: seq<nat>, claims: map<nat, Claim>, x: int) {
    && Claimed(initial, order, x)
    && Owner(initial, order, x) in claims && claims[Owner(initial, order, x)].granted
  }

  ghost predicate PublishedWasGranted(s: State) {
    forall x :: x in s.published ==> GrantedTo(s.initial, s.order, s.claims, x)
  }

  /** The consumer knows, and has consumed, only a contiguous published run. */
  ghost predicate Contiguous(s: State) {
    && s.initial <= s.consumed <= s.known < s.next
    && forall x :: s.initial < x <= s.known ==> x in s.published
  }

  /** Ahead of the consumer a slot holds its number, or the previous occupant. */
  ghost predicate Represents(s: State)
    requires s.size > 0 && |s.slots| == s.size
  {
    forall x {:trigger SlotOf(s.size, x)} :: s.consumed < x <= s.consumed + s.size ==>
      s.slots[SlotOf(s.size, x)] == if x in s.published then x else x - s.size
  }

  ghost predicate Inv(s: State) {
    && s.size > 0 && |s.slots| == s.size
    && s.next == s.initial + 1 + |s.order| && Tiled(s.initial, s.order, s.claims)
    && Roomy(s) && PublishedWasGranted(s) && Contiguous(s) && Represents(s)
  }

  ghost predicate Init(s: State) {
    && s.size > 0 && |s.slots| == s.size
    && s.next == s.initial + 1 && s.consumed == s.initial && s.known == s.initial
    && s.claims == map[] && s.order == [] && s.published == {}
    && forall x :: s.initial - s.size < x <= s.initial ==> s.slots[SlotOf(s.size, x)] == x
  }

  lemma InitInv(s: State)
    requires Init(s)
    ensures Inv(s)
  {
    forall x | s.consumed < x <= s.consumed + s.size ensures s.slots[SlotOf(s.size, x)] == x - s.size {
      SlotPeriod(s.size, x, -1);
      assert SlotOf(s.size, x - s.size) == SlotOf(s.size, x);
    }
  }

  lemma StepPreserves(s: State, step: Step)
    requires Inv(s) && Enabled(s, step)
    ensures Inv(Apply(s, step))
  {
    match step
    case ClaimUpTo(p, count) => ClaimPreserves(s, p, count);
    case Grant(p) =>
    case Store(p, x) => StorePreserves(s, p, x);
    case Learn(v) => LearnPreserves(s, v);
    case Consume(v) => ConsumePreserves(s, v);
  }

  lemma ClaimPreserves(s: State, p: nat, count: nat)
    requires Inv(s) && p !in s.claims
    ensures Inv(Apply(s, ClaimUpTo(p, count)))
  {
    var s' := Apply(s, ClaimUpTo(p, count));
    var i0 := s.initial;
    forall x | Claimed(i0, s'.order, x)
      ensures Owner(i0, s'.order, x) == (if x < s.next then Owner(i0, s.order, x) else p)
      ensures Owner(i0, s'.order, x) in s'.claims && s'.claims[Owner(i0, s'.order, x)].Has(x)
    {
      if x < s.next { assert Claimed(i0, s.order, x); }
    }
    forall q, x | q in s'.claims && s'.claims[q].Has(x)
      ensures Claimed(i0, s'.order, x) && Owner(i0, s'.order, x) == q
    {
      if q != p { assert Claimed(i0, s.order, x); }
    }
    forall x | x in s.published ensures GrantedTo(i0, s'.order, s'.claims, x) {
      assert GrantedTo(i0, s.order, s.claims, x);
    }
  }

  lemma LearnPreserves(s: State, v: int)
    requires Inv(s) && Enabled(s, Learn(v))
    ensures Inv(Apply(s, Learn(v)))
  {
    assert v in s.published;
  }

  /** A granted number lies in the window of one buffer ahead of the consumer, or
      is consumed already. */
  lemma GrantedInWindow(s: State, p: nat, x: int)
    requires Inv(s) && p in s.claims && s.claims[p].granted && s.claims[p].Has(x)
    ensures x <= s.consumed + s.size && s.initial < x < s.next
  {
    assert Claimed(s.initial, s.order, x);
  }

  lemma StorePreserves(s: State, p: nat, x: int)
    requires Inv(s) && Enabled(s, Store(p, x))
    ensures Inv(Apply(s, Store(p, x)))
  {
    GrantedInWindow(s, p, x);
    var s' := Apply(s, Store(p, x));
    forall y | s'.consumed < y <= s'.consumed + s'.size
      ensures s'.slots[SlotOf(s'.size, y)] == if y in s'.published then y else y - s'.size
    {
      WindowSlotsDistinct(s.size, x, y);
    }
  }

  lemma ConsumePreserves(s: State, v: int)
    requires Inv(s) && Enabled(s, Consume(v))
    ensures Inv(Apply(s, Consume(v)))
  {
    var s' := Apply(s, Consume(v));
    forall y | s'.consumed < y <= s'.consumed + s'.size
      ensures s'.slots[SlotOf(s'.size, y)] == if y in s'.published then y else y - s'.size
    {
      if y > s.consumed + s.size {
        FreedSlot(s, v, y);
      }
    }
  }

  /** A slot freed by consuming still holds the consumed number, and the next
      number for that slot is not published yet. */
  lemma FreedSlot(s: State, v: int, y: int)
    requires Inv(s) && Enabled(s, Consume(v)) && s.consumed + s.size < y <= v + s.size
    ensures s.slots[SlotOf(s.size, y)] == y - s.size && y !in s.published
  {
    SlotPeriod(s.size, y, -1);
    assert y - s.size in s.published;
    assert SlotOf(s.size, y - s.size) == SlotOf(s.size, y);
    if y in s.published {
      PublishedInWindow(s, y);
    }
  }

  lemma PublishedInWindow(s: State, y: int)
    requires Inv(s) && y in s.published
    ensures y <= s.consumed + s.size && s.initial < y < s.next
  {
    assert GrantedTo(s.initial, s.order, s.claims, y);
    GrantedInWindow(s, Owner(s.initial, s.order, y), y);
  }
}
