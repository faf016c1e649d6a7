/** The manual reset event on linked operations, each method executed without
    interruption. Module ResetEvent treats their interleaving. */
module ManualResetEvents {

  class Operation {
    var next: Operation?
    var resumptions: nat

    constructor ()
      ensures next == null && resumptions == 0
    {
      next, resumptions := null, 0;
    }
  }

  /** `m_state`: the event itself, or the head of the stack of waiters. */
  datatype Word = IsSet | Waiters(head: Operation?)

  /** A null-terminated list of different operations. */
  ghost predicate IsStack(head: Operation?, ops: seq<Operation>)
    reads ops
  {
    && (forall i :: 0 <= i < |ops| - 1 ==> ops[i].next == ops[i + 1])
    && (forall i, j :: 0 <= i < j < |ops| ==> ops[i] != ops[j])
    && (if ops == [] then head == null else head == ops[0] && ops[|ops| - 1].next == null)
  }

  /** Every listed operation is resumed once; its link is read before that. */
  method ResumeAll(head: Operation?, ghost ops: seq<Operation>)
    requires IsStack(head, ops)
    modifies ops`resumptions
    ensures forall op :: op in ops ==> op.resumptions == old(op.resumptions) + 1
  {
    var current := head;
    ghost var i := 0;
    while current != null
      invariant i <= |ops| && IsStack(head, ops) && current == (if i < |ops| then ops[i] else null)
      invariant forall k :: 0 <= k < |ops| ==> ops[k].resumptions == old(ops[k].resumptions) + if k < i then 1 else 0
      decreases |ops| - i
    {
      assert current in ops;
      var next := current.next;
      current.resumptions := current.resumptions + 1;
      current := next;
      i := i + 1;
    }
  }

  class ManualResetEvent {
    var state: Word
    ghost var stack: seq<Operation>

    ghost predicate Valid()
      reads this, stack
    {
      if state == IsSet then stack == [] else IsStack(state.head, stack)
    }

    constructor (initiallySet: bool)
      ensures Valid() && stack == [] && (state == IsSet <==> initiallySet)
    {
      state := if initiallySet then IsSet else Waiters(null);
      stack := [];
    }

    /** Setting resumes every waiter on the stack once, and leaves none. */
    method Set()
      requires Valid()
      modifies this, stack
      ensures Valid() && state == IsSet && stack == []
      ensures forall op :: op in old(stack) ==> op.resumptions == old(op.resumptions) + 1
    {
      var oldState := state;
      ghost var ops := stack;
      state, stack := IsSet, [];
      if oldState != IsSet { ResumeAll(oldState.head, ops); }
    }

    /** Resetting an event that is set; on any other it does nothing. */
    method Reset()
      requires Valid()
      modifies this`state
      ensures Valid() && stack == old(stack) && state != IsSet && (old(state) != IsSet ==> state == old(state))
    {
      if state == IsSet { state := Waiters(null); }
    }

    /** A waiter passes an event that is set, and goes on top of the stack
        otherwise. */
    method AwaitSuspend(op: Operation) returns (suspended: bool)
      requires Valid() && op !in stack
      modifies this, op`next
      ensures Valid() && (suspended <==> old(state) != IsSet)
      ensures if suspended then stack == [op] + old(stack) else stack == [] && state == IsSet
    {
      if state == IsSet { return false; }
      op.next := state.head;
      state, stack := Waiters(op), [op] + stack;
      suspended := true;
    }
  }
}
