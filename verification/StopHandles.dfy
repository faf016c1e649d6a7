/** Stop sources, tokens and callbacks as owners of references to a shared stop
    state, which deletes itself when the last reference goes.

    The sets of handles are ghost: they are what the counts in the word count. */
module StopHandles {
  import opened Words
  import opened StopWord

  class StopState {
    var bits: word                 // m_state
    ghost var fields: Fields
    ghost var sources: set<StopSource>
    ghost var tokens: set<StopToken>
    ghost var callbacks: set<StopCallback>
    ghost var deletions: nat

    ghost predicate Unowned()
      reads this
    {
      sources == {} && tokens == {} && callbacks == {}
    }

    /** The word counts the handles, and the state is deleted, once, exactly when
        there are none. */
    ghost predicate Counts()
      reads this
    {
      && bits == Pack(fields) && fields.Fits()
      && fields.sources == |sources| && fields.tokens == |tokens| + |callbacks|
      && (fields.complete ==> fields.requested)
      && deletions == (if Unowned() then 1 else 0)
    }

    /** A callback registered now is kept for a stop request to come. */
    ghost predicate Keeps()
      reads this
    {
      !fields.requested && sources != {}
    }

    /** The counted handles are the ones that point here. */
    ghost predicate Valid()
      reads this, sources, tokens, callbacks
    {
      && Counts()
      && (forall h :: h in sources ==> h.state == this)
      && (forall h :: h in tokens ==> h.state == this)
      && (forall h :: h in callbacks ==> h.state == this)
    }

    constructor (ghost first: StopSource)
      ensures Counts() && sources == {first} && tokens == {} && callbacks == {}
      ensures !fields.requested && !fields.complete
    {
      bits := SOURCE_REF;
      fields := Fields(false, false, 1, 0);
      sources, tokens, callbacks, deletions := {first}, {}, {}, 0;
      new;
      PackDetermines(fields);
    }

    method AddTokenRef(ghost t: StopToken)
      requires Counts() && !Unowned() && t !in tokens && fields.tokens + 1 < COUNT_LIMIT
      modifies this
      ensures Counts() && tokens == old(tokens) + {t} && sources == old(sources) && callbacks == old(callbacks)
      ensures fields == old(fields).(tokens := old(fields).tokens + 1) && deletions == 0
    {
      AddTokenRefines(fields);
      bits := AddWords(bits, TOKEN_REF);
      tokens, fields := tokens + {t}, fields.(tokens := fields.tokens + 1);
    }

    method AddSourceRef(ghost h: StopSource)
      requires Counts() && !Unowned() && h !in sources && fields.sources + 1 < COUNT_LIMIT
      modifies this
      ensures Counts() && sources == old(sources) + {h} && tokens == old(tokens) && callbacks == old(callbacks)
      ensures fields == old(fields).(sources := old(fields).sources + 1) && deletions == 0
    {
      AddSourceRefines(fields);
      bits := AddWords(bits, SOURCE_REF);
      sources, fields := sources + {h}, fields.(sources := fields.sources + 1);
    }

    /** Releasing the reference of a token, or of a callback: the release that
        leaves no handle, and no other, deletes the state. */
    method ReleaseTokenRef(ghost t: set<StopToken>, ghost c: set<StopCallback>) returns (deleted: bool)
      requires Counts() && t <= tokens && c <= callbacks && |t| + |c| == 1
      modifies this
      ensures Counts() && tokens == old(tokens) - t && callbacks == old(callbacks) - c && sources == old(sources)
      ensures fields == old(fields).(tokens := old(fields).tokens - 1)
      ensures deleted <==> Unowned()
      ensures deletions == old(deletions) + if deleted then 1 else 0
    {
      FewerOwners(tokens, t);
      FewerOwners(callbacks, c);
      SubRefines(fields);
      LastReleaseRefines(fields);
      var oldState := bits;
      bits := SubWords(bits, TOKEN_REF);
      tokens, callbacks, fields := tokens - t, callbacks - c, fields.(tokens := fields.tokens - 1);
      deleted := BitAnd(oldState, REF_COUNT_MASK) == TOKEN_REF;
      if deleted { deletions := deletions + 1; }
    }

    method ReleaseSourceRef(ghost h: StopSource) returns (deleted: bool)
      requires Counts() && h in sources
      modifies this
      ensures Counts() && sources == old(sources) - {h} && tokens == old(tokens) && callbacks == old(callbacks)
      ensures fields == old(fields).(sources := old(fields).sources - 1)
      ensures deleted <==> Unowned()
      ensures deletions == old(deletions) + if deleted then 1 else 0
    {
      FewerOwners(sources, {h});
      SubRefines(fields);
      LastReleaseRefines(fields);
      var oldState := bits;
      bits := SubWords(bits, SOURCE_REF);
      sources, fields := sources - {h}, fields.(sources := fields.sources - 1);
      deleted := BitAnd(oldState, REF_COUNT_MASK) == SOURCE_REF;
      if deleted { deletions := deletions + 1; }
    }

    /** The first access of `request_stop`: only the first caller goes on. */
    method SetRequested() returns (first: bool)
      requires Counts()
      modifies this`bits, this`fields
      ensures Counts() && fields == old(fields).(requested := true) && first == !old(fields).requested
    {
      OrRequestedRefines(fields);
      FlagsRefine(fields);
      var oldState := bits;
      bits := BitOr(bits, REQUESTED);
      fields := fields.(requested := true);
      first := BitAnd(oldState, REQUESTED) == 0;
    }

    /** The last access of `request_stop`, made by its one first caller. */
    method SetComplete()
      requires Counts() && fields.requested && !fields.complete
      modifies this`bits, this`fields
      ensures Counts() && fields == old(fields).(complete := true)
    {
      AddCompleteRefines(fields);
      bits := AddWords(bits, COMPLETE);
      fields := fields.(complete := true);
    }

    method StopPossible() returns (possible: bool)
      requires Counts()
      ensures possible <==> sources != {} || fields.requested
    {
      StopPossibleRefines(fields);
      possible := BitAnd(bits, STOP_POSSIBLE_MASK) != 0;
    }

    method StopRequested() returns (requested: bool)
      requires Counts()
      ensures requested == fields.requested
    {
      FlagsRefine(fields);
      requested := BitAnd(bits, REQUESTED) != 0;
    }
  }

  lemma FewerOwners<T>(owners: set<T>, gone: set<T>)
    requires gone <= owners
    ensures |owners - gone| == |owners| - |gone|
    ensures |owners - gone| == 0 <==> owners - gone == {}
  {
    assert owners == (owners - gone) + gone;
  }

  ghost function Target(s: StopState?): set<object> { if s == null then {} else {s} }

  // ---------- tokens ----------

  class StopToken {
    var state: StopState?

    /** A token that points to a state is one of those counted there. */
    ghost predicate Owns()
      reads this, Target(state)
    {
      state != null ==> this in state.tokens
    }

    constructor Null()
      ensures state == null
    {
      state := null;
    }

    /** `get_token`, and copying: one more token of the same state. */
    constructor FromState(s: StopState?)
      requires s != null ==> s.Valid() && !s.Unowned() && s.fields.tokens + 1 < COUNT_LIMIT
      modifies s
      ensures state == s && Owns()
      ensures s != null ==> s.Valid() && s.tokens == old(s.tokens) + {this} && s.sources == old(s.sources)
                            && s.callbacks == old(s.callbacks) && s.deletions == 0
    {
      state := s;
      new;
      if s != null { s.AddTokenRef(this); }
    }

    /** Moving takes over the reference; the word is not touched. */
    constructor Move(other: StopToken)
      requires other.Owns() && (other.state != null ==> other.state.Valid())
      modifies other, Target(other.state)
      ensures state == old(other.state) && other.state == null && Owns()
      ensures state != null ==> state.Valid() && state.tokens == old(other.state.tokens) - {other} + {this}
                                && state.bits == old(other.state.bits)
    {
      state := null;
      new;
      TakeOver(other);
    }

    method Destroy()
      requires Owns() && (state != null ==> state.Valid())
      modifies this, Target(state)
      ensures state == null
      ensures var s := old(state);
              s != null ==> s.Valid() && s.tokens == old(state.tokens) - {this} && s.sources == old(state.sources)
                            && s.callbacks == old(state.callbacks)
                            && s.deletions == old(state.deletions) + if s.Unowned() then 1 else 0
    {
      if state != null {
        var s := state;
        var deleted := s.ReleaseTokenRef({this}, {});
        state := null;
      }
    }

    /** Copy assignment: between handles of one state nothing happens; otherwise
        the old reference is released before the new one is taken. */
    method AssignCopy(other: StopToken)
      requires Owns() && (state != null ==> state.Valid())
      requires other.Owns() && (other.state != null ==> other.state.Valid() && other.state.fields.tokens + 1 < COUNT_LIMIT)
      modifies this, Target(state), Target(other.state)
      ensures state == other.state == old(other.state) && Owns() && other.Owns()
      ensures state != null ==> state.Valid() && state.tokens == old(other.state.tokens) + {this} && state.deletions == 0
      ensures var s := old(state);
              s != null && s != other.state ==>
                s.Valid() && s.tokens == old(state.tokens) - {this}
                && s.deletions == old(state.deletions) + if s.Unowned() then 1 else 0
    {
      if other.state != state {
        Destroy();
        state := other.state;
        if state != null { state.AddTokenRef(this); }
      }
    }

    method AssignMove(other: StopToken)
      requires Owns() && (state != null ==> state.Valid())
      requires other.Owns() && (other.state != null ==> other.state.Valid())
      modifies this, other, Target(state), Target(other.state)
      ensures this == other ==> state == old(state) && Owns() && (state != null ==> state.Valid() && state.bits == old(state.bits))
      ensures this != other ==> other.state == null && state == old(other.state) && Owns()
      ensures this != other && state != null ==> state.Valid() && state.tokens == old(other.state.tokens) - {other} + {this}
      ensures this != other && old(state) != null && old(state) != old(other.state) ==>
                var s := old(state);
                s.Valid() && s.tokens == old(state.tokens) - {this}
                && s.deletions == old(state.deletions) + if s.Unowned() then 1 else 0
    {
      if this != other {
        Destroy();
        TakeOver(other);
      }
    }

    /** Taking the reference of another handle, having none. */
    method TakeOver(other: StopToken)
      requires this != other && state == null && other.Owns()
      requires other.state != null ==> other.state.Valid()
      modifies this, other, Target(other.state)
      ensures state == old(other.state) && other.state == null && Owns()
      ensures state != null ==> state.Valid() && state.tokens == old(other.state.tokens) - {other} + {this}
                                && state.bits == old(other.state.bits) && state.deletions == old(other.state.deletions)
    {
      state := other.state;
      other.state := null;
      if state != null { PassToken(state, other, this); }
    }

    method Swap(other: StopToken)
      requires Owns() && (state != null ==> state.Valid())
      requires other.Owns() && (other.state != null ==> other.state.Valid())
      modifies this, other, Target(state), Target(other.state)
      ensures state == old(other.state) && other.state == old(state) && Owns() && other.Owns()
      ensures state != null ==> state.Valid() && state.bits == old(other.state.bits)
      ensures other.state != null ==> other.state.Valid() && other.state.bits == old(state.bits)
    {
      if state != other.state {
        state, other.state := other.state, state;
        Received(other);
        other.Received(this);
      }
    }

    /** This token now points to a state that counted another one. */
    ghost method Received(from: StopToken)
      requires state != null ==>
        && state.Counts() && from in state.tokens && this !in state.tokens && from.state != state
        && (forall h :: h in state.tokens && h != from ==> h.state == state)
        && (forall h :: h in state.sources ==> h.state == state) && (forall h :: h in state.callbacks ==> h.state == state)
      modifies Target(state)
      ensures Owns() && (state != null ==> state.Valid() && state.bits == old(state.bits))
    {
      if state != null { PassToken(state, from, this); }
    }
  }

  /** The reference of one token goes to another; the counts stay. */
  ghost method PassToken(s: StopState, from: StopToken, to: StopToken)
    requires s.Counts() && from in s.tokens && to !in s.tokens
    modifies s`tokens
    ensures s.Counts() && s.tokens == old(s.tokens) - {from} + {to}
  {
    FewerOwners(s.tokens, {from});
    s.tokens := s.tokens - {from} + {to};
  }

  // ---------- sources ----------

  class StopSource {
    var state: StopState?

    ghost predicate Owns()
      reads this, Target(state)
    {
      state != null ==> this in state.sources
    }

    constructor ()
      ensures state != null && fresh(state) && state.Valid() && state.sources == {this} && Owns()
      ensures state.tokens == {} && state.callbacks == {} && state.deletions == 0
    {
      new;
      state := new StopState(this);
    }

    constructor Copy(other: StopSource)
      requires other.Owns() && (other.state != null ==> other.state.Valid() && other.state.fields.sources + 1 < COUNT_LIMIT)
      modifies Target(other.state)
      ensures state == other.state && Owns() && other.Owns()
      ensures state != null ==> state.Valid() && state.sources == old(other.state.sources) + {this} && state.deletions == 0
    {
      state := other.state;
      new;
      if state != null { state.AddSourceRef(this); }
    }

    constructor Move(other: StopSource)
      requires other.Owns() && (other.state != null ==> other.state.Valid())
      modifies other, Target(other.state)
      ensures state == old(other.state) && other.state == null && Owns()
      ensures state != null ==> state.Valid() && state.sources == old(other.state.sources) - {other} + {this}
                                && state.bits == old(other.state.bits)
    {
      state := null;
      new;
      TakeOver(other);
    }

    method Destroy()
      requires Owns() && (state != null ==> state.Valid())
      modifies this, Target(state)
      ensures state == null
      ensures var s := old(state);
              s != null ==> s.Valid() && s.sources == old(state.sources) - {this} && s.tokens == old(state.tokens)
                            && s.callbacks == old(state.callbacks)
                            && s.deletions == old(state.deletions) + if s.Unowned() then 1 else 0
    {
      if state != null {
        var s := state;
        var deleted := s.ReleaseSourceRef(this);
        state := null;
      }
    }

    method AssignCopy(other: StopSource)
      requires Owns() && (state != null ==> state.Valid())
      requires other.Owns() && (other.state != null ==> other.state.Valid() && other.state.fields.sources + 1 < COUNT_LIMIT)
      modifies this, Target(state), Target(other.state)
      ensures state == other.state == old(other.state) && Owns() && other.Owns()
      ensures state != null ==> state.Valid() && state.sources == old(other.state.sources) + {this} && state.deletions == 0
      ensures var s := old(state);
              s != null && s != other.state ==>
                s.Valid() && s.sources == old(state.sources) - {this}
                && s.deletions == old(state.deletions) + if s.Unowned() then 1 else 0
    {
      if state != other.state {
        Destroy();
        state := other.state;
        if state != null { state.AddSourceRef(this); }
      }
    }

    method AssignMove(other: StopSource)
      requires Owns() && (state != null ==> state.Valid())
      requires other.Owns() && (other.state != null ==> other.state.Valid())
      modifies this, other, Target(state), Target(other.state)
      ensures this == other ==> state == old(state) && Owns() && (state != null ==> state.Valid() && state.bits == old(state.bits))
      ensures this != other ==> other.state == null && state == old(other.state) && Owns()
      ensures this != other && state != null ==> state.Valid() && state.sources == old(other.state.sources) - {other} + {this}
      ensures this != other && old(state) != null && old(state) != old(other.state) ==>
                var s := old(state);
                s.Valid() && s.sources == old(state.sources) - {this}
                && s.deletions == old(state.deletions) + if s.Unowned() then 1 else 0
    {
      if this != other {
        Destroy();
        TakeOver(other);
      }
    }

    /** Taking the reference of another handle, having none. */
    method TakeOver(other: StopSource)
      requires this != other && state == null && other.Owns()
      requires other.state != null ==> other.state.Valid()
      modifies this, other, Target(other.state)
      ensures state == old(other.state) && other.state == null && Owns()
      ensures state != null ==> state.Valid() && state.sources == old(other.state.sources) - {other} + {this}
                                && state.bits == old(other.state.bits) && state.deletions == old(other.state.deletions)
    {
      state := other.state;
      other.state := null;
      if state != null { PassSource(state, other, this); }
    }

    /** A token of this source's state, or of none. */
    method GetToken() returns (token: StopToken)
      requires Owns() && (state != null ==> state.Valid() && state.fields.tokens + 1 < COUNT_LIMIT)
      modifies Target(state)
      ensures fresh(token) && token.state == state && token.Owns() && Owns()
      ensures state != null ==> state.Valid() && state.tokens == old(state.tokens) + {token} && state.sources == old(state.sources)
    {
      token := new StopToken.FromState(state);
    }
  }

  ghost method PassSource(s: StopState, from: StopSource, to: StopSource)
    requires s.Counts() && from in s.sources && to !in s.sources
    modifies s`sources
    ensures s.Counts() && s.sources == old(s.sources) - {from} + {to}
  {
    FewerOwners(s.sources, {from});
    s.sources := s.sources - {from} + {to};
  }

  // ---------- callbacks ----------

  class StopCallback {
    var state: StopState?
    var calls: nat

    ghost predicate Owns()
      reads this, Target(state)
    {
      state != null ==> this in state.callbacks
    }

    /** The constructor, which takes its token by value and lets it go in the end.
        With a stop possible and not requested the callback is registered and keeps
        the token's reference; otherwise the token's own destructor releases it,
        after the callback was called if stop was requested. */
    constructor (token: StopToken)
      requires token.Owns() && (token.state != null ==> token.state.Valid())
      modifies token, Target(token.state)
      ensures token.state == null && Owns()
      ensures old(token.state) == null ==> state == null && calls == 0
      ensures old(token.state) != null ==>
        var s, kept := old(token.state), old(token.state.Keeps());
        && state == (if kept then s else null) && calls == (if old(token.state.fields).requested then 1 else 0)
        && s.Valid() && s.tokens == old(token.state.tokens) - {token} && s.sources == old(token.state.sources)
        && s.callbacks == old(token.state.callbacks) + (if kept then {this} else {})
        && s.deletions == (if s.Unowned() then 1 else 0)
    {
      state, calls := null, 0;
      new;
      if token.state != null { Register(token); }
      token.Destroy();
    }

    /** `register_callback`, where `try_register_callback` runs uninterrupted and so
        fails exactly if stop was requested before. */
    method Register(token: StopToken)
      requires state == null && calls == 0 && token.state != null && token.Owns() && token.state.Valid()
      modifies this, token, token.state
      ensures var s := old(token.state);
              && s.Valid() && s.sources == old(token.state.sources) && s.fields == old(token.state.fields)
              && calls == (if s.fields.requested then 1 else 0)
              && if old(token.state.Keeps()) then
                   token.state == null && state == s && s.tokens == old(token.state.tokens) - {token}
                   && s.callbacks == old(token.state.callbacks) + {this}
                 else
                   token.state == s && state == null && s.tokens == old(token.state.tokens)
                   && s.callbacks == old(token.state.callbacks)
    {
      var s := token.state;
      var possible := s.StopPossible();
      if possible {
        var requested := s.StopRequested();
        if !requested {
          state := s;
          token.state := null;
          TokenToCallback(s, token, this);
        } else {
          calls := 1;
        }
      }
    }

    /** The destructor's release, after deregistration. */
    method Release()
      requires Owns() && (state != null ==> state.Valid())
      modifies this, Target(state)
      ensures state == null && calls == old(calls)
      ensures var s := old(state);
              s != null ==> s.Valid() && s.callbacks == old(state.callbacks) - {this} && s.tokens == old(state.tokens)
                            && s.deletions == old(state.deletions) + if s.Unowned() then 1 else 0
    {
      if state != null {
        var s := state;
        var deleted := s.ReleaseTokenRef({}, {this});
        state := null;
      }
    }
  }

  /** The reference of a token becomes that of a callback. */
  ghost method TokenToCallback(s: StopState, token: StopToken, callback: StopCallback)
    requires s.Counts() && token in s.tokens && callback !in s.callbacks
    modifies s`tokens, s`callbacks
    ensures s.Counts() && s.fields == old(s.fields) && s.tokens == old(s.tokens) - {token} && s.callbacks == old(s.callbacks) + {callback}
  {
    FewerOwners(s.tokens, {token});
    s.tokens, s.callbacks := s.tokens - {token}, s.callbacks + {callback};
  }
}
