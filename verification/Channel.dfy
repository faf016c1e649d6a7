/** The channel's own fields: the data slots, the front index and the last known
    number, in 64-bit words next to the sequencer. Each method runs on one thread
    without interruption and takes one or more steps of ChannelProtocol. */
module Channels {
  import opened Lists
  import opened Words
  import R = Ring
  import opened ChannelProtocol
  import opened SequenceMpscs

  /** `front` yields a value or throws `channel_closed_exception`. */
  datatype Outcome<V> = Value(value: V) | Closed

  class Channel<V> {
    const sequence: SequenceMpsc
    const data: array<Option<V>>
    var frontIndex: word
    var lastKnown: word
    ghost var state: State<V>

    ghost predicate Valid()
      reads this, sequence, sequence.published, data
    {
      && sequence.Valid() && state.ring == sequence.ring && Inv(state)
      && data.Length == sequence.bufferSize && data[..] == state.data
      && frontIndex == Wrap(state.front) && lastKnown == Wrap(state.ring.known)
    }

    constructor (capacity: nat, ghost bits: nat)
      requires bits <= 62 && capacity == Pow2(bits) && capacity < TWO63
      ensures Valid() && Init(state) && state.ring.initial == -1 && |state.data| == capacity
      ensures fresh(sequence) && fresh(sequence.published) && fresh(data)
    {
      InitialSequenceIsMinusOne();
      var s := new SequenceMpsc(capacity, INITIAL_SEQUENCE, bits, -1);
      sequence := s;
      data := new Option<V>[capacity](_ => None);
      frontIndex, lastKnown := 0, INITIAL_SEQUENCE;
      new;
      state := State(sequence.ring, data[..], 0, NoWrapper, map[], map[], []);
      InitInv(state);
    }

    /** `claim_one` for a push or a close: the number, and the one to wait for. */
    method ClaimOne(ghost kind: Kind, ghost id: nat) returns (index: word, target: word)
      requires Valid() && id !in state.ring.claims
      modifies this`state, sequence`nextToClaim, sequence`ring
      ensures Valid() && state == Apply(old(state), Claim(id, kind))
      ensures index == Wrap(old(state.ring.next)) && target == Wrap(old(state.ring.next) - |state.data|)
      ensures id in state.ring.claims && state.ring.claims[id] == R.Claim(old(state.ring.next), 1, false)
      ensures state.kinds == old(state.kinds)[id := kind] && state.ring.next == old(state.ring.next) + 1
    {
      ClaimPreserves(state, id, kind);
      var range;
      range, target := sequence.ClaimUpTo(1, id);
      index := range.Front();
      state := Apply(state, Claim(id, kind));
    }

    /** The wait of a claim is over. */
    ghost method Granted(id: nat)
      requires Valid() && Enabled(state, Grant(id))
      modifies this`state, sequence`ring
      ensures Valid() && state == Apply(old(state), Grant(id))
    {
      StepPreserves(state, Grant(id));
      state := Apply(state, Grant(id));
      sequence.ring := state.ring;
    }

    /** Assigning through a push wrapper, or the emplacement of `push(T&&)`: the
        given value goes into the number's slot, and into no other. */
    method Assign(index: word, v: V, ghost id: nat)
      requires Valid() && Enabled(state, ChannelProtocol.Assign(id, v)) && index == Wrap(state.ring.claims[id].first)
      modifies this`state, data
      ensures Valid() && state == Apply(old(state), ChannelProtocol.Assign(id, v))
      ensures sequence.Index(index) < data.Length && data[..] == old(data[..])[sequence.Index(index) := Some(v)]
      ensures state.written == old(state.written)[old(state.ring.claims[id].first) := v]
    {
      AssignPreserves(state, id, v);
      sequence.IndexIsSlot(state.ring.claims[id].first);
      data[sequence.Index(index)] := Some(v);
      state := Apply(state, ChannelProtocol.Assign(id, v));
    }

    /** Publishing a number: of a push that was assigned, or of a close. */
    method Publish(index: word, ghost id: nat)
      requires Valid() && Enabled(state, ChannelProtocol.Publish(id)) && index == Wrap(state.ring.claims[id].first)
      modifies this`state, sequence`ring, sequence.published
      ensures Valid() && state == Apply(old(state), ChannelProtocol.Publish(id))
      ensures state.ring.published == old(state.ring.published) + {old(state.ring.claims[id].first)}
    {
      PublishPreserves(state, id);
      sequence.PublishOne(index, id, state.ring.claims[id].first);
      state := Apply(state, ChannelProtocol.Publish(id));
    }

    /** `push(T&&)` once its wait is over: the slot was empty, now it is filled and
        published. */
    method Push(index: word, v: V, ghost id: nat)
      requires Valid() && Enabled(state, ChannelProtocol.Assign(id, v)) && index == Wrap(state.ring.claims[id].first)
      modifies this`state, data, sequence`ring, sequence.published
      ensures Valid()
      ensures var mid := Apply(old(state), ChannelProtocol.Assign(id, v));
              Inv(mid) && Enabled(mid, ChannelProtocol.Publish(id)) && state == Apply(mid, ChannelProtocol.Publish(id))
      ensures sequence.Index(index) < data.Length && data[..] == old(data[..])[sequence.Index(index) := Some(v)]
      ensures state.written == old(state.written)[old(state.ring.claims[id].first) := v]
      ensures state.ring.published == old(state.ring.published) + {old(state.ring.claims[id].first)}
    {
      Assign(index, v, id);
      Publish(index, id);
    }

    /** What a wait for the front number returned, kept as last known. */
    method Learned(observed: word, ghost l: int)
      requires Valid() && observed == Wrap(l) && (l == state.ring.known || Enabled(state, Learn(l)))
      modifies this`state, this`lastKnown, sequence`ring
      ensures Valid() && state == if l == old(state.ring.known) then old(state) else Apply(old(state), Learn(l))
    {
      lastKnown := observed;
      if l != state.ring.known {
        StepPreserves(state, Learn(l));
        state := Apply(state, Learn(l));
        sequence.ring := state.ring;
      }
    }

    /** `front` once its wait is over: it reports closure exactly at a number that
        was claimed to close, and otherwise yields the value pushed there. */
    method Front(observed: word, ghost l: int) returns (outcome: Outcome<V>)
      requires Valid() && observed == Wrap(l) && (l == state.ring.known || Enabled(state, Learn(l)))
      requires state.wrapper == NoWrapper && state.front <= l
      modifies this`state, this`lastKnown, sequence`ring
      ensures Valid() && state == if l == old(state.ring.known) then old(state) else Apply(old(state), Learn(l))
      ensures outcome == if state.front in state.written then Value(state.written[state.front]) else Closed
      ensures KindOf(state.ring.initial, state.ring.order, state.kinds, state.front,
                     if outcome == Closed then Close else ChannelProtocol.Push)
    {
      Learned(observed, l);
      sequence.IndexIsSlot(state.front);
      FrontHolds(state);
      var slot := data[sequence.Index(frontIndex)];
      outcome := match slot case None => Closed case Some(v) => Value(v);
    }

    /** `pop` once its wait is over: it hands out a wrapper, also at a number that
        closes the channel. */
    method Pop(observed: word, ghost l: int) returns (index: word)
      requires Valid() && observed == Wrap(l) && (l == state.ring.known || Enabled(state, Learn(l)))
      requires state.wrapper == NoWrapper && state.front <= l
      modifies this`state, this`lastKnown, sequence`ring
      ensures Valid() && index == Wrap(state.front)
      ensures state == var learned := if l == old(state.ring.known) then old(state) else Apply(old(state), Learn(l));
                       Apply(learned, ChannelProtocol.Pop)
      ensures state.wrapper == Fresh && state.popped == old(state.popped) + [Content(state.written, state.front)]
    {
      Learned(observed, l);
      PopPreserves(state);
      state := Apply(state, ChannelProtocol.Pop);
      index := frontIndex;
    }

    /** Reading through a pop wrapper: a number that closes the channel yields a
        default value; the reader may leave anything behind. */
    method Read(index: word, default: V, left: V) returns (v: V)
      requires Valid() && index == Wrap(state.front) && Enabled(state, ChannelProtocol.Read(left))
      modifies this`state, data
      ensures Valid() && state == Apply(old(state), ChannelProtocol.Read(left))
      ensures old(state.wrapper) == Fresh ==>
        v == if state.front in state.written then state.written[state.front] else default
      ensures sequence.Index(index) < data.Length && data[..] == old(data[..])[sequence.Index(index) := Some(left)]
      ensures v == match old(data[sequence.Index(index)]) case None => default case Some(u) => u
    {
      sequence.IndexIsSlot(state.front);
      if state.wrapper == Fresh { FrontHolds(state); }
      TouchKeepsSlots(state, Some(left), Used);
      var slot := data[sequence.Index(index)];
      v := match slot case None => default case Some(u) => u;
      data[sequence.Index(index)] := Some(left);
      state := Apply(state, ChannelProtocol.Read(left));
    }

    /** Emptying the popped slot. */
    method ResetFront()
      requires Valid() && (state.wrapper == Fresh || state.wrapper == Used)
      modifies this`state, data
      ensures Valid() && state == Apply(old(state), Reset) && state.wrapper == Cleared
      ensures sequence.Index(frontIndex) < data.Length && data[..] == old(data[..])[sequence.Index(frontIndex) := None]
    {
      sequence.IndexIsSlot(state.front);
      TouchKeepsSlots(state, None, Cleared);
      data[sequence.Index(frontIndex)] := None;
      state := Apply(state, Reset);
    }

    /** Letting the consumer's barrier publish the front number. */
    method PublishFront()
      requires Valid() && Enabled(state, ChannelProtocol.Release)
      modifies this`state, this`frontIndex, sequence`ring
      ensures Valid() && state == Apply(old(state), ChannelProtocol.Release)
      ensures state.front == old(state.front) + 1 && state.ring.consumed == old(state.front) && state.wrapper == NoWrapper
    {
      ReleasePreserves(state);
      NextWord(state.front);
      state := Apply(state, ChannelProtocol.Release);
      sequence.ring := state.ring;
      frontIndex := AddWords(frontIndex, 1);
    }

    /** Publishing a pop wrapper: the slot is emptied before the consumer's barrier
        lets the next sender have it. */
    method Release()
      requires Valid() && (state.wrapper == Fresh || state.wrapper == Used)
      modifies this`state, this`frontIndex, data, sequence`ring
      ensures Valid()
      ensures var cleared := Apply(old(state), Reset);
              Inv(cleared) && Enabled(cleared, ChannelProtocol.Release) && state == Apply(cleared, ChannelProtocol.Release)
      ensures sequence.Index(old(frontIndex)) < data.Length
      ensures data[..] == old(data[..])[sequence.Index(old(frontIndex)) := None]
      ensures state.front == old(state.front) + 1 && state.ring.consumed == old(state.front) && state.wrapper == NoWrapper
    {
      ResetFront();
      PublishFront();
    }
  }

  /** Until somebody reads through it, the front slot holds what was claimed for. */
  lemma FrontHolds<V>(s: State<V>)
    requires Inv(s) && s.front <= s.ring.known && (s.wrapper == NoWrapper || s.wrapper == Fresh)
    ensures Holds(s.data, s.written, s.front)
    ensures Complete(s.ring, s.kinds, s.written, s.front)
  {
  }

  // ---------- the capacity check ----------

  ghost predicate IsPowerOfTwo(n: int) { exists k: nat :: n == Pow2(k) }

  lemma PowerHalves(n: nat)
    requires n > 1
    ensures IsPowerOfTwo(n) <==> n % 2 == 0 && IsPowerOfTwo(n / 2)
  {
    if k: nat :| n == Pow2(k) { assert n / 2 == Pow2(k - 1); }
    if n % 2 == 0 {
      if k: nat :| n / 2 == Pow2(k) { assert n == Pow2(k + 1); }
    }
  }

  lemma AndWithPredecessor(n: nat)
    requires n > 1
    ensures BitAnd(n, n - 1) == if n % 2 == 0 then 2 * BitAnd(n / 2, n / 2 - 1) else 2 * BitAnd(n / 2, n / 2)
  {
    if n % 2 == 0 { HalfMask(n / 2); } else { assert (n - 1) / 2 == n / 2; }
  }

  /** The constructor's test for a power of two accepts exactly those. */
  lemma {:induction false} PowerOfTwoTest(n: nat)
    ensures (n > 0 && BitAnd(n, n - 1) == 0) <==> IsPowerOfTwo(n)
  {
    if n > 1 {
      PowerHalves(n);
      AndWithPredecessor(n);
      if n % 2 == 0 { PowerOfTwoTest(n / 2); } else { AndWithItself(n / 2); }
    } else if n == 1 {
      assert n == Pow2(0);
    }
  }

  lemma {:induction false} AndWithItself(n: nat)
    ensures BitAnd(n, n) == n
  {
    if n > 0 { AndWithItself(n / 2); }
  }

  // ---------- making a channel ----------

  /** How making a channel ends: with a channel; with the exception for a bad
      capacity; aborted by the sequencer's assertion; or astray, because the
      sequencer's constructor writes outside its array. */
  datatype Made<V> = Made(channel: Channel<V>) | Thrown | Aborted | Astray

  lemma {:induction false} AndIsBelow(x: nat, mask: nat)
    ensures BitAnd(x, mask) <= mask
    decreases x
  {
    if x > 0 { AndIsBelow(x / 2, mask / 2); }
  }

  /** The sequencer's fill loop without the assertion before it: for any capacity
      but zero it stays inside the array and ends, after one turn for each slot. */
  method FillUnchecked(bufferSize: nat, initialSequence: word) returns (published: array<word>)
    requires 0 < bufferSize < TWO63
    ensures fresh(published) && published.Length == bufferSize
  {
    published := new word[bufferSize](_ => 0);
    var sequence := SubWords(initialSequence, bufferSize - 1);
    ghost var x, initial := initialSequence - (bufferSize - 1), initialSequence;
    var done := false;
    while !done
      invariant initial - bufferSize < x <= initial + 1 && (done <==> x == initial + 1)
      invariant sequence == Wrap(x)
      decreases initial + 1 - x
    {
      AndIsBelow(sequence, bufferSize - 1);
      published[BitAnd(sequence, bufferSize - 1)] := sequence;
      SameWord(x, initial);
      WrapSmall(initialSequence);
      done := sequence == initialSequence;
      NextWord(x);
      sequence, x := AddWords(sequence, 1), x + 1;
    }
  }

  /** With capacity zero the fill loop starts one past the number it stops at, so
      it goes through all numbers, and the mask keeps every bit: each store has an
      index of its own, in an array that has none. */
  lemma EmptyRingGoesAstray(initialSequence: word)
    ensures SubWords(initialSequence, SubWords(0, 1)) == AddWords(initialSequence, 1)
    ensures forall sequence: word :: BitAnd(sequence, SubWords(0, 1)) == sequence
  {
    Pow2Of64();
    WrapShift(initialSequence + 1, -1);
    forall sequence: word ensures BitAnd(sequence, SubWords(0, 1)) == sequence {
      MaskIsModulo(sequence, 64);
      WrapSmall(sequence);
    }
  }

  /** The sequencer is built before the channel's own test of the capacity. A bad
      capacity is therefore reported by the exception only if assertions are off
      and it is not zero. */
  method MakeChannel<V>(capacity: nat, assertions: bool) returns (r: Made<V>)
    requires capacity < TWO63
    ensures r.Made? <==> IsPowerOfTwo(capacity)
    ensures r.Thrown? <==> !IsPowerOfTwo(capacity) && !assertions && capacity > 0
    ensures r.Aborted? <==> !IsPowerOfTwo(capacity) && assertions
    ensures r.Astray? <==> capacity == 0 && !assertions
    ensures r.Made? ==> fresh(r.channel) && r.channel.Valid() && Init(r.channel.state) && |r.channel.state.data| == capacity
  {
    PowerOfTwoTest(capacity);
    var powOf2 := capacity > 0 && BitAnd(capacity, capacity - 1) == 0;
    if assertions && !powOf2 { return Aborted; }
    if capacity == 0 { return Astray; }
    if powOf2 {
      ghost var bits: nat :| capacity == Pow2(bits);
      Pow2Below(bits);
      var channel := new Channel<V>(capacity, bits);
      r := Made(channel);
    } else {
      var published := FillUnchecked(capacity, INITIAL_SEQUENCE);
      r := Thrown;
    }
  }

  lemma {:induction false} Pow2Below(k: nat)
    ensures Pow2(k) < TWO63 ==> k <= 62
  {
    if k >= 63 {
      Pow2Sum(k - 63, 63);
      Pow2Sum(63, 1);
      Pow2Of64();
      assert Pow2(k - 63) >= 1;
      MultipleIsFar(Pow2(63), Pow2(k - 63));
    }
  }
}
