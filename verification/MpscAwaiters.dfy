/** The multi-producer sequencer's operations on its list of wait operations, on
    linked nodes and 64-bit words, each executed without interruption. Module
    MpscProtocol treats their interleaving; `ProducerAlone` of module MpscResults
    says the same of a producer's uninterrupted run as the contracts here. */
module MpscAwaiters {
  import opened Lists
  import opened Words
  import R = Ring
  import opened RingResults
  import opened AwaiterNodes
  import opened SequenceMpscs

  /** The split in `resume_ready_awaiters`: every node learns what is known, and
      the least distance to a requeued target is computed on the way. */
  method SplitForResume(head: Node, known: word, ghost nodes: seq<Node>, ghost v: int)
    returns (toResume: Node?, resumeTail: Node?, toRequeue: Node?, requeueTail: Node?, minDiff: int)
    requires IsList(head, nodes) && Distinct(nodes) && known == Wrap(v) && InWindow(nodes, v)
    modifies nodes`next, nodes`lastKnown
    ensures IsOpen(toResume, resumeTail, Keep(nodes, Reached(nodes, v))) && (toResume == null <==> resumeTail == null)
    ensures IsList(toRequeue, Keep(nodes, Later(nodes, v)))
    ensures IsOpen(toRequeue, requeueTail, Keep(nodes, Later(nodes, v)))
    ensures minDiff == LeastDiff(nodes, v, |nodes|)
    ensures forall n :: n in nodes ==> n.lastKnown == known
  {
    ghost var resumed, requeued;
    toResume, resumeTail, resumed, toRequeue, requeueTail, requeued, minDiff := ResumeLoop(head, known, nodes, v);
    EndSplit([], nodes, v, toResume, resumeTail, resumed, toRequeue, requeueTail, requeued);
  }

  method ResumeLoop(head: Node, known: word, ghost nodes: seq<Node>, ghost v: int)
    returns (toResume: Node?, resumeTail: Node?, ghost resumed: seq<Node>,
             toRequeue: Node?, requeueTail: Node?, ghost requeued: seq<Node>, minDiff: int)
    requires IsList(head, nodes) && Distinct(nodes) && known == Wrap(v) && InWindow(nodes, v)
    modifies nodes`next, nodes`lastKnown
    ensures Splitting([], nodes, |nodes|, v, null, toResume, resumeTail, resumed, toRequeue, requeueTail, requeued)
    ensures minDiff == LeastDiff(nodes, v, |nodes|) && forall n :: n in nodes ==> n.lastKnown == known
  {
    hide Splitting;
    toResume, resumeTail, toRequeue, requeueTail := null, null, null, null;
    minDiff := TWO63 - 1;
    var cur: Node? := head;
    ghost var i := 0;
    resumed, requeued := [], [];
    StartSplit(head, nodes, v, null, null, []);
    SplitIndex([], nodes, i, v, cur, toResume, resumeTail, resumed, toRequeue, requeueTail, requeued);
    while cur != null
      invariant Splitting([], nodes, i, v, cur, toResume, resumeTail, resumed, toRequeue, requeueTail, requeued)
      invariant i <= |nodes| && (cur == null <==> i == |nodes|) && (cur != null ==> cur == nodes[i])
      invariant minDiff == LeastDiff(nodes, v, i)
      invariant forall k :: 0 <= k < i ==> nodes[k].lastKnown == known
      decreases |nodes| - i
    {
      var diff := Difference(cur.target, known);
      WindowDecides(nodes, v, cur);
      NoteKnown(cur, known, nodes, i, v, toResume, resumeTail, resumed, toRequeue, requeueTail, requeued);
      toResume, resumeTail, resumed, toRequeue, requeueTail, requeued, cur :=
        Turn(diff > 0, cur, [], nodes, i, v, toResume, resumeTail, resumed, toRequeue, requeueTail, requeued);
      if diff > 0 { minDiff := if diff < minDiff then diff else minDiff; }
      i := i + 1;
      SplitIndex([], nodes, i, v, cur, toResume, resumeTail, resumed, toRequeue, requeueTail, requeued);
    }
  }

  /** Noting what is known changes no link. */
  method NoteKnown(cur: Node, known: word, ghost nodes: seq<Node>, ghost i: nat, ghost v: int,
                   ghost h0: Node?, ghost t0: Node?, ghost resumed: seq<Node>,
                   ghost h1: Node?, ghost t1: Node?, ghost requeued: seq<Node>)
    requires Splitting([], nodes, i, v, cur, h0, t0, resumed, h1, t1, requeued)
    modifies cur`lastKnown
    ensures Splitting([], nodes, i, v, cur, h0, t0, resumed, h1, t1, requeued) && cur.lastKnown == known
  {
    cur.lastKnown := known;
  }

  class MpscAwaiters {
    const sequencer: SequenceMpsc
    var awaiters: Node?
    ghost var queue: seq<Node>   // the nodes linked from `awaiters`

    ghost predicate Linked()
      reads this, queue
    {
      IsList(awaiters, queue) && Distinct(queue)
    }

    constructor (sequencer: SequenceMpsc)
      ensures this.sequencer == sequencer && Linked() && queue == []
    {
      this.sequencer, awaiters, queue := sequencer, null, [];
    }

    /** Looking again after the waiters were put back: whether everything up to the
        earliest target is published by now. */
    method CheckAgain(known: word, earliest: word, ghost v: int, ghost e: int) returns (satisfied: bool)
      requires sequencer.Valid() && known == Wrap(v) && earliest == Wrap(e)
      requires sequencer.ring.consumed <= v <= sequencer.ring.consumed + sequencer.bufferSize && v < e < v + TWO63
      ensures satisfied <==> e <= End(sequencer.ring, v)
    {
      hide R.Inv;
      ghost var ring, x := sequencer.ring, v;
      sequencer.ReadNext(x);
      var number := AddWords(known, 1);
      while sequencer.published[sequencer.Index(number)] == number
        invariant v <= x < e && x <= ring.consumed + sequencer.bufferSize && number == Wrap(x + 1)
        invariant sequencer.Index(number) < sequencer.bufferSize
        invariant sequencer.published[sequencer.Index(number)] == number <==> x + 1 in ring.published
        invariant End(ring, v) == End(ring, x)
        decreases e - x
      {
        R.PublishedInWindow(ring, x + 1);
        SameWord(x + 1, e);
        if number == earliest { return true; }
        x := x + 1;
        NextWord(x);
        sequencer.ReadNext(x);
        number := AddWords(number, 1);
      }
      satisfied := false;
    }

    /** Putting back the waiters that are not ready, and looking again: it succeeds
        exactly if the earliest of them became ready meanwhile. */
    method PutBack(toRequeue: Node?, ghost requeueTail: Node?, known: word, minDiff: int, ghost nodes: seq<Node>, ghost v: int,
                   ghost h: Node?, ghost t: Node?, ghost due: seq<Node>)
      returns (again: bool)
      requires IsOpen(h, t, due) && IsOpen(toRequeue, requeueTail, Keep(nodes, Later(nodes, v)))
      requires sequencer.Valid() && awaiters == null && queue == [] && known == Wrap(v)
      requires InWindow(nodes, v) && minDiff == LeastDiff(nodes, v, |nodes|)
      requires IsList(toRequeue, Keep(nodes, Later(nodes, v))) && Distinct(nodes)
      requires sequencer.ring.consumed <= v <= sequencer.ring.consumed + sequencer.bufferSize
      modifies this`awaiters, this`queue
      ensures again <==> exists n :: Earliest(n, Keep(nodes, Later(nodes, v))) && n.number <= End(sequencer.ring, v)
      ensures Linked() && queue == Keep(nodes, Later(nodes, v)) && awaiters == toRequeue
      ensures IsOpen(h, t, due) && IsOpen(awaiters, requeueTail, queue)
    {
      ghost var pending := Keep(nodes, Later(nodes, v));
      assert forall k :: 0 <= k < |due| ==> due[k] in due;
      assert forall k :: 0 <= k < |pending| ==> pending[k] in pending;
      KeepDistinct(nodes, Later(nodes, v));
      again := false;
      if toRequeue != null {
        awaiters, queue := toRequeue, Keep(nodes, Later(nodes, v));
        var n := EarliestLater(nodes, v, minDiff);
        again := CheckAgain(known, AddWords(known, Wrap(minDiff)), v, v + minDiff);
      }
    }

    /** What a taken list becomes: the waiters whose targets are reached are due,
        the others are put back. */
    method Settle(captured: Node, known: word, ghost nodes: seq<Node>, ghost v: int)
      requires sequencer.Valid() && Linked() && queue == [] && awaiters == null
      requires IsList(captured, nodes) && Distinct(nodes) && known == Wrap(v) && InWindow(nodes, v)
      requires sequencer.ring.consumed <= v <= sequencer.ring.consumed + sequencer.bufferSize && End(sequencer.ring, v) == v
      modifies this`awaiters, this`queue, nodes
      ensures Linked() && queue == Keep(nodes, Later(nodes, v))
      ensures forall n :: n in nodes ==>
        if n.number <= v then Woken(n, known)
        else n.lastKnown == known && n.ready == old(n.ready) && n.continued == old(n.continued)
    {
      var toResume, resumeTail, toRequeue, requeueTail, minDiff := SplitForResume(captured, known, nodes, v);
      ghost var due := Keep(nodes, Reached(nodes, v));
      var again := PutBack(toRequeue, requeueTail, known, minDiff, nodes, v, toResume, resumeTail, due);
      assert !again;
      Finish(toResume, resumeTail, requeueTail, known, nodes, v);
    }

    /** Terminating the resume list and going through it. */
    method Finish(toResume: Node?, resumeTail: Node?, ghost requeueTail: Node?, known: word, ghost nodes: seq<Node>, ghost v: int)
      requires Linked() && queue == Keep(nodes, Later(nodes, v)) && Distinct(nodes)
      requires IsOpen(toResume, resumeTail, Keep(nodes, Reached(nodes, v))) && (toResume == null <==> resumeTail == null)
      requires IsOpen(awaiters, requeueTail, queue)
      modifies nodes
      ensures Linked()
      ensures forall n :: n in nodes ==> if n.number <= v then Woken(n, known) else Untouched(n)
    {
      ghost var due := Keep(nodes, Reached(nodes, v));
      KeepDistinct(nodes, Reached(nodes, v));
      assert resumeTail != null ==> resumeTail in due;
      assert Disjoint(queue, due);
      Terminate(toResume, resumeTail, due, awaiters, requeueTail, queue);
      WakeAll(toResume, known, due, nodes);
    }

    /** `resume_ready_awaiters`: it resumes exactly the listed waiters for which
        everything up to their target is published, each with the end of the
        published run, and tells the others how far it goes. `l` is what the first
        listed waiter knew. */
    method ResumeReadyAwaiters(ghost l: int)
      requires sequencer.Valid() && Linked() && (queue != [] ==> queue[0].lastKnown == Wrap(l))
      requires sequencer.ring.consumed <= l <= sequencer.ring.consumed + sequencer.bufferSize
      requires InWindow(queue, End(sequencer.ring, l))
      modifies this`awaiters, this`queue, queue
      ensures var v := End(sequencer.ring, l);
              && Linked() && queue == Keep(old(queue), Later(old(queue), v))
              && forall n :: n in old(queue) ==>
                   if n.number <= v then Woken(n, Wrap(v))
                   else n.lastKnown == Wrap(v) && n.ready == old(n.ready) && n.continued == old(n.continued)
    {
      if awaiters == null { return; }
      var captured := awaiters;
      ghost var nodes, v := queue, End(sequencer.ring, l);
      awaiters, queue := null, [];
      var known := sequencer.LastPublishedAfter(captured.lastKnown, l);
      EndIsLongest(sequencer.ring, l);
      EndIsUnique(sequencer.ring, v, v);
      Settle(captured, known, nodes, v);
    }

    /** `add_awaiter` of the one consumer: a waiter whose numbers are all published
        is resumed at once, any other is listed. `l` is what it knows. */
    method AddAwaiter(node: Node, ghost l: int)
      requires sequencer.Valid() && Linked() && queue == [] && node.lastKnown == Wrap(l)
      requires sequencer.ring.consumed <= l <= sequencer.ring.consumed + sequencer.bufferSize
      requires Comparable(node, End(sequencer.ring, l))
      modifies this`awaiters, this`queue, node
      ensures var v := End(sequencer.ring, l);
              && Linked() && queue == (if node.number > v then [node] else [])
              && if node.number > v then Untouched(node) else Woken(node, Wrap(v))
    {
      var known := Enqueue(node, l);
      ghost var v := End(sequencer.ring, l);
      assert InWindow([node], v);
      WindowDecides([node], v, node);
      if !Precedes(known, node.target) { TakeOwn(node, known, v); }
    }

    /** Listing the waiter, and scanning from what it knows. */
    method Enqueue(node: Node, ghost l: int) returns (known: word)
      requires sequencer.Valid() && Linked() && queue == [] && node.lastKnown == Wrap(l)
      requires sequencer.ring.consumed <= l <= sequencer.ring.consumed + sequencer.bufferSize
      modifies this`awaiters, this`queue, node`next
      ensures Linked() && queue == [node] && known == Wrap(End(sequencer.ring, l))
    {
      node.next := awaiters;
      awaiters, queue := node, [node];
      known := sequencer.LastPublishedAfter(node.lastKnown, l);
    }

    /** Taking the list with the satisfied waiter on it. */
    method TakeOwn(node: Node, known: word, ghost v: int)
      requires Linked() && queue == [node] && known == Wrap(v) && InWindow([node], v) && node.number <= v
      modifies this`awaiters, this`queue, node
      ensures Linked() && queue == [] && Woken(node, known)
    {
      var captured := awaiters;
      awaiters, queue := null, [];
      Single(node, v);
      var toResume, resumeTail, toRequeue, requeueTail, minDiff := SplitForAdd(captured, known, null, null, [], [node], v);
      assert [] + [node] == [node];
      Terminate(toResume, resumeTail, [node], toRequeue, requeueTail, []);
      WakeAll(toResume, known, [node], [node]);
      assert node in [node];
    }

    /** `await_suspend`: the coroutine stays suspended exactly when a number up to
        its target is not published. */
    method AwaitSuspend(node: Node, ghost l: int) returns (suspended: bool)
      requires sequencer.Valid() && Linked() && queue == [] && node.lastKnown == Wrap(l) && !node.ready
      requires sequencer.ring.consumed <= l <= sequencer.ring.consumed + sequencer.bufferSize
      requires Comparable(node, End(sequencer.ring, l))
      modifies this`awaiters, this`queue, node
      ensures var v := End(sequencer.ring, l);
              && Linked() && (suspended <==> node.number > v) && queue == (if suspended then [node] else [])
              && node.ready && node.continued == old(node.continued) && (!suspended ==> node.lastKnown == Wrap(v))
    {
      AddAwaiter(node, l);
      suspended := !node.ready;
      node.ready := true;
    }
  }

  lemma Single(node: Node, v: int)
    requires node.number <= v
    ensures Keep([node], Reached([node], v)) == [node] && Keep([node], Later([node], v)) == []
  {
    KeepEverything([node], Reached([node], v));
    KeepEverything([node], Later([node], v));
  }
}
