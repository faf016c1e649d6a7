/** The single-producer sequencer: claims of as many numbers as are available, over
    every run, and the producer's word arithmetic. */
module SequenceSpscs {
  import opened Words
  import opened Ranges
  import opened SequenceMpscs

  /** The numbers `first .. end` that one claim took, `end` excluded. */
  datatype Piece = Piece(first: int, end: int)

  datatype State = State(
    size: nat,          // buffer size
    initial: int,
    next: int,          // m_nextToClaim
    published: int,     // what the producer's barrier has published
    released: int,      // what the consumer's barrier has published
    claims: seq<Piece>) // every claim so far, in order

  /** A claim carries what its wait on the consumer's barrier returned. */
  datatype Step =
    | Claim(count: nat, observed: int)
    | Publish(last: int)
    | Release(last: int)

  predicate Enabled(s: State, step: Step) {
    match step
    case Claim(_, observed) => s.next - s.size <= observed <= s.released
    case Publish(last) => s.published <= last < s.next
    case Release(last) => s.released <= last <= s.published
  }

  function Apply(s: State, step: Step): State {
    match step
    case Claim(count, observed) =>
      var available := observed + s.size - s.next + 1;
      var end := s.next + if count < available then count else available;
      s.(next := end, claims := s.claims + [Piece(s.next, end)])
    case Publish(last) => s.(published := last)
    case Release(last) => s.(released := last)
  }

  /** The claims lie end to end from the first number on, none longer than the
      buffer. */
  predicate Follows(s: State, i: nat)
    requires i < |s.claims|
  {
    && s.claims[i].first <= s.claims[i].end <= s.claims[i].first + s.size
    && s.claims[i].first == if i == 0 then s.initial + 1 else s.claims[i - 1].end
  }

  ghost predicate Tiles(s: State) {
    && (forall i {:trigger Follows(s, i)} :: 0 <= i < |s.claims| ==> Follows(s, i))
    && s.next == if s.claims == [] then s.initial + 1 else s.claims[|s.claims| - 1].end
  }

  /** What is claimed is within one buffer of what the consumer released. */
  ghost predicate Inv(s: State) {
    && s.size > 0 && s.initial <= s.released <= s.published < s.next <= s.released + s.size + 1
    && Tiles(s)
  }

  ghost predicate Init(s: State) {
    && s.size > 0 && s.initial == s.published == s.released && s.next == s.initial + 1 && s.claims == []
  }

  lemma StepPreserves(s: State, step: Step)
    requires Inv(s) && Enabled(s, step)
    ensures Inv(Apply(s, step))
  {
    var s' := Apply(s, step);
    forall i | 0 <= i < |s'.claims| ensures Follows(s', i) {
      if i < |s.claims| { assert Follows(s, i); }
    }
  }

  ghost predicate Next(s: State, s': State) { exists step :: Enabled(s, step) && s' == Apply(s, step) }

  ghost predicate NextAt(run: seq<State>, i: int)
    requires 0 < i < |run|
  {
    Next(run[i - 1], run[i])
  }

  ghost predicate IsRun(run: seq<State>) {
    && run != [] && Init(run[0])
    && forall i {:trigger NextAt(run, i)} :: 0 < i < |run| ==> NextAt(run, i)
  }

  lemma {:induction false} RunKeepsInv(run: seq<State>, i: nat)
    requires IsRun(run) && i < |run|
    ensures Inv(run[i])
  {
    if i > 0 {
      RunKeepsInv(run, i - 1);
      assert NextAt(run, i);
      var step :| Enabled(run[i - 1], step) && run[i] == Apply(run[i - 1], step);
      StepPreserves(run[i - 1], step);
    }
  }

  /** In every run a claim of at least one gets at least one number and at most
      what it asked for and what the buffer holds, the next ones after all earlier
      claims, all within one buffer of what is released. */
  lemma ClaimIsWithinBuffer(run: seq<State>, i: nat, count: nat, observed: int)
    requires IsRun(run) && i < |run| && Enabled(run[i], Claim(count, observed))
    ensures var s, s' := run[i], Apply(run[i], Claim(count, observed));
            && (count >= 1 ==> s'.next - s.next >= 1) && s'.next - s.next <= count && s'.next - s.next <= s.size
            && s'.next - 1 <= s.released + s.size
            && s'.claims == s.claims + [Piece(s.next, s'.next)] && Tiles(s')
            && (s'.next - s.next < count ==> s'.next == observed + s.size + 1)
  {
    RunKeepsInv(run, i);
    StepPreserves(run[i], Claim(count, observed));
  }

  /** A claimed number belongs to one claim only, and its slot to no other number
      that is claimed and not released. */
  lemma {:induction false} ClaimsAreExclusive(run: seq<State>, i: nat, x: int, y: int)
    requires IsRun(run) && i < |run|
    requires run[i].released < x < run[i].next && run[i].released < y < run[i].next
    ensures run[i].size > 0 && (x % run[i].size == y % run[i].size <==> x == y)
    ensures forall a, b :: 0 <= a < b < |run[i].claims| ==> run[i].claims[a].end <= run[i].claims[b].first
  {
    var s := run[i];
    RunKeepsInv(run, i);
    WindowSlotsDistinct(s.size, x, y);
    forall a, b | 0 <= a < b < |s.claims| ensures s.claims[a].end <= s.claims[b].first {
      LaterClaimsFollow(s, a, b);
    }
  }

  lemma {:induction false} LaterClaimsFollow(s: State, a: nat, b: nat)
    requires Tiles(s) && a < b < |s.claims|
    ensures s.claims[a].end <= s.claims[b].first
    decreases b
  {
    assert Follows(s, b - 1) && Follows(s, b);
    if a + 1 < b { LaterClaimsFollow(s, a, b - 1); }
  }

  class SequenceSpsc {
    const bufferSize: word
    var nextToClaim: word
    var lastPublished: word
    ghost var state: State

    ghost predicate Valid()
      reads this
    {
      && Inv(state) && bufferSize == state.size < TWO63
      && nextToClaim == Wrap(state.next) && lastPublished == Wrap(state.published)
    }

    constructor (bufferSize: word, initialSequence: word, ghost initial: int)
      requires 0 < bufferSize < TWO63 && initialSequence == Wrap(initial)
      ensures Valid() && Init(state) && state.initial == initial && state.size == bufferSize
    {
      NextWord(initial);
      this.bufferSize := bufferSize;
      nextToClaim, lastPublished := AddWords(initialSequence, 1), initialSequence;
      state := State(bufferSize, initial, initial + 1, initial, initial, []);
    }

    /** What every claim waits for on the consumer's barrier. */
    method Target() returns (target: word)
      requires Valid()
      ensures target == Wrap(state.next - state.size)
    {
      BackTarget(state.next, bufferSize);
      target := SubWords(nextToClaim, bufferSize);
    }

    /** `claim_one` once its wait is over. */
    method ClaimOne(ghost observed: int) returns (claimed: word)
      requires Valid() && Enabled(state, Claim(1, observed))
      modifies this`nextToClaim, this`state
      ensures Valid() && state == Apply(old(state), Claim(1, observed))
      ensures claimed == Wrap(old(state.next)) && state.next == old(state.next) + 1
    {
      claimed := nextToClaim;
      NextWord(state.next);
      nextToClaim := AddWords(nextToClaim, 1);
      StepPreserves(state, Claim(1, observed));
      state := Apply(state, Claim(1, observed));
    }

    /** `claim_up_to` once its wait is over, told that everything up to `observed`
        is released. */
    method ClaimUpTo(count: word, awaited: word, ghost observed: int) returns (claimed: Range)
      requires Valid() && Enabled(state, Claim(count, observed)) && awaited == Wrap(observed)
      modifies this`nextToClaim, this`state
      ensures Valid() && state == Apply(old(state), Claim(count, observed))
      ensures claimed.Denotes(old(state.next), state.next)
      ensures var available := observed + bufferSize - old(state.next) + 1;
              state.next == old(state.next) + if count < available then count else available
    {
      var lastAvailable := AddWords(awaited, bufferSize);
      var begin := nextToClaim;
      ghost var b := state.next;
      AvailableRefines(observed, b, bufferSize);
      var availableCount := AddWords(SubWords(lastAvailable, begin), 1);
      var countToClaim := if availableCount < count then availableCount else count;
      AddSmall(b, countToClaim);
      var end := AddWords(begin, countToClaim);
      nextToClaim := end;
      claimed := Range(begin, end);
      StepPreserves(state, Claim(count, observed));
      state := Apply(state, Claim(count, observed));
    }

    /** Publishing a range publishes its last number, hence everything before. */
    method PublishRange(r: Range, ghost first: int, ghost end: int)
      requires Valid() && r.Denotes(first, end) && state.published == first - 1 && end <= state.next
      modifies this`lastPublished, this`state
      ensures Valid() && state == Apply(old(state), Publish(end - 1))
      ensures state.published == end - 1 && lastPublished == Wrap(end - 1) && nextToClaim == old(nextToClaim)
    {
      ElementsRefine(r, first, end);
      lastPublished := r.Back();
      StepPreserves(state, Publish(end - 1));
      state := Apply(state, Publish(end - 1));
    }
  }

  /** How many numbers are available, computed in words: at least one, when the
      wait is over, and no more than the buffer holds. */
  lemma AvailableRefines(observed: int, begin: int, size: word)
    requires 0 < size < TWO63 && begin - size <= observed < begin
    ensures AddWords(SubWords(AddWords(Wrap(observed), size), Wrap(begin)), 1) == observed + size - begin + 1
  {
    AddSmall(observed, size);
    WrapIsHomomorphic(observed + size, begin);
    WrapSmall(observed + size - begin);
    WrapSmall(observed + size - begin + 1);
  }
}
