/** The sequence barrier's operations on linked nodes and 64-bit words, each
    executed without interruption. Module BarrierProtocol treats their
    interleaving; `PublishMatches` and `AddMatches` of module BarrierLink say that
    its uninterrupted runs leave and resume the very nodes that the contracts of
    `Publish` and `AddAwaiter` name. */
module SequenceBarriers {
  import opened Words
  import opened Lists
  import opened AwaiterNodes

  class SequenceBarrier {
    var lastPublished: word
    var awaiters: Node?
    ghost var last: int          // the number `lastPublished` stands for
    ghost var queue: seq<Node>   // the nodes linked from `awaiters`

    ghost predicate Linked()
      reads this, queue
    {
      lastPublished == Wrap(last) && IsList(awaiters, queue) && Distinct(queue)
    }

    /** At rest, everybody queued waits for a number not yet published. */
    ghost predicate Valid()
      reads this, queue
    {
      Linked() && forall n :: n in queue ==> n.number > last
    }

    constructor (initialSequence: word, ghost initial: int)
      requires initialSequence == Wrap(initial)
      ensures Valid() && last == initial && queue == []
    {
      lastPublished, awaiters, last, queue := initialSequence, null, initial, [];
    }

    static lemma JoinLists(head: Node, tail: Node, nodes: seq<Node>, rest: Node?, others: seq<Node>)
      requires IsOpen(head, tail, nodes) && nodes != [] && tail.next == rest && IsList(rest, others)
      ensures IsList(head, nodes + others)
    {
    }

    /** The compare-exchange loop that links `head..tail` in front of the list,
        starting from the expected head `oldHead`, to which `tail` is linked. */
    method PushFront(head: Node, tail: Node, expected: Node?, ghost nodes: seq<Node>,
                     ghost h: Node?, ghost t: Node?, ghost others: seq<Node>)
      requires Disjoint(others, nodes) && IsOpen(h, t, others)
      requires Linked() && IsOpen(head, tail, nodes) && nodes != [] && tail.next == expected
      requires Distinct(nodes) && Disjoint(nodes, queue) && Disjoint(queue, nodes)
      modifies this`awaiters, this`queue, tail`next
      ensures Linked() && queue == nodes + old(queue)
      ensures IsOpen(h, t, others) && (old(IsList(h, others)) ==> IsList(h, others))
    {
      var oldHead := expected;
      assert forall k :: 0 <= k < |queue| ==> queue[k] in queue;
      assert forall k :: 0 <= k < |others| ==> others[k] in others;
      while awaiters != oldHead
        invariant tail.next == oldHead && IsOpen(head, tail, nodes) && IsList(awaiters, queue)
        invariant awaiters == old(awaiters) && queue == old(queue)
        invariant IsOpen(h, t, others) && (old(IsList(h, others)) ==> IsList(h, others))
        decreases awaiters != oldHead
      {
        oldHead := awaiters;
        tail.next := oldHead;
      }
      DistinctAppend(nodes, queue);
      JoinLists(head, tail, nodes, awaiters, queue);
      awaiters, queue := head, nodes + queue;
    }

    /** Puts the pending waiters back, if there are any, expecting no others. */
    method Requeue(toRequeue: Node?, requeueTail: Node?, ghost pending: seq<Node>,
                   ghost h: Node?, ghost t: Node?, ghost due: seq<Node>)
      requires Linked() && queue == [] && Distinct(pending) && Disjoint(due, pending)
      requires IsList(toRequeue, pending) && IsOpen(toRequeue, requeueTail, pending)
      requires IsList(h, due) && IsOpen(h, t, due)
      modifies this`awaiters, this`queue, if requeueTail == null then {} else {requeueTail}`next
      ensures Linked() && queue == pending && IsList(h, due)
    {
      if toRequeue != null {
        PushFront(toRequeue, requeueTail, null, pending, h, t, due);
        assert pending + [] == pending;
      }
    }

    /** Splits a captured list and puts the later part back. */
    method SplitAndRequeue(captured: Node, sequence: word, ghost nodes: seq<Node>, ghost v: int)
      returns (toResume: Node?)
      requires Linked() && queue == [] && sequence == Wrap(v)
      requires IsList(captured, nodes) && Distinct(nodes) && InWindow(nodes, v)
      modifies this`awaiters, this`queue, nodes`next
      ensures Linked() && queue == Keep(nodes, Later(nodes, v))
      ensures IsList(toResume, Keep(nodes, Reached(nodes, v)))
    {
      var resumeTail, toRequeue, requeueTail;
      toResume, resumeTail, toRequeue, requeueTail := SplitForPublish(captured, sequence, nodes, v);
      ghost var due, pending := Keep(nodes, Reached(nodes, v)), Keep(nodes, Later(nodes, v));
      KeepDistinct(nodes, Later(nodes, v));
      assert requeueTail != null ==> requeueTail in pending;
      Requeue(toRequeue, requeueTail, pending, toResume, resumeTail, due);
    }

    /** What `publish` does with a captured list. */
    method Settle(captured: Node, sequence: word, ghost nodes: seq<Node>, ghost v: int)
      requires Linked() && queue == [] && v == last && sequence == lastPublished
      requires IsList(captured, nodes) && Distinct(nodes) && InWindow(nodes, v)
      modifies this`awaiters, this`queue, nodes
      ensures Linked() && queue == Keep(nodes, Later(nodes, v))
      ensures forall n :: n in nodes ==> if n.number <= v then Woken(n, sequence) else Untouched(n)
    {
      KeepDistinct(nodes, Reached(nodes, v));
      ReachedMembers(nodes, v);
      hide Keep, Reached, Later, InWindow;
      var toResume := SplitAndRequeue(captured, sequence, nodes, v);
      WakeAll(toResume, sequence, Keep(nodes, Reached(nodes, v)), nodes);
    }

    /** Publishing resumes exactly the waiters whose target is reached, now or
        before, each with the published number, and leaves the others queued in
        their order. */
    method Publish(sequence: word, ghost v: int)
      requires Linked() && sequence == Wrap(v) && last <= v && InWindow(queue, v)
      modifies this, queue
      ensures Valid() && last == v && lastPublished == sequence
      ensures queue == Keep(old(queue), Later(old(queue), v))
      ensures forall n :: n in old(queue) ==> if n.number <= v then Woken(n, sequence) else Untouched(n)
    {
      lastPublished, last := sequence, v;
      var captured := awaiters;
      if captured == null { return; }
      ghost var nodes := queue;
      awaiters, queue := null, [];
      Settle(captured, sequence, nodes, v);
    }

    /** Load the head, link the tail to it, compare and exchange. */
    method Enqueue(head: Node, tail: Node, ghost nodes: seq<Node>,
                   ghost h: Node?, ghost t: Node?, ghost others: seq<Node>)
      requires Disjoint(others, nodes) && IsOpen(h, t, others)
      requires Linked() && IsOpen(head, tail, nodes) && nodes != []
      requires Distinct(nodes) && Disjoint(nodes, queue) && Disjoint(queue, nodes)
      modifies this`awaiters, this`queue, tail`next
      ensures Linked() && queue == nodes + old(queue) && IsOpen(h, t, others)
    {
      assert forall k :: 0 <= k < |queue| ==> queue[k] in queue;
      assert forall k :: 0 <= k < |others| ==> others[k] in others;
      tail.next := awaiters;
      PushFront(head, tail, awaiters, nodes, h, t, others);
    }

    static lemma AheadFollows(v: int, d: int)
      requires 0 < d < TWO63
      ensures Precedes(Wrap(v), AddWords(Wrap(v), Wrap(d)))
    {
      WrapIsHomomorphic(v, d);
      PrecedesRefines(v, v + d);
    }

    /** The second half of a round: exchange the list, whoever pushed to it, and
        split it. The next round's target is the earliest one that stays. */
    method TakeBack(known: word)
      returns (toResume: Node?, resumeTail: Node?, toRequeue: Node?, tail: Node?, targetSequence: word)
      requires Linked() && known == lastPublished && InWindow(queue, last)
      modifies this`awaiters, this`queue, queue`next
      ensures Linked() && queue == []
      ensures IsOpen(toResume, resumeTail, Keep(old(queue), Reached(old(queue), last)))
      ensures toResume == null <==> resumeTail == null
      ensures var pending := Keep(old(queue), Later(old(queue), last));
              && IsList(toRequeue, pending) && IsOpen(toRequeue, tail, pending)
              && (pending != [] ==> Precedes(lastPublished, targetSequence)
                                    && exists n :: Earliest(n, pending) && targetSequence == n.target)
    {
      hide Keep, Reached, Later, InWindow;
      var captured := awaiters;
      ghost var nodes := queue;
      awaiters, queue := null, [];
      var minDiff;
      toResume, resumeTail, toRequeue, tail, minDiff := SplitForAdd(captured, known, null, null, [], nodes, last);
      targetSequence := AddWords(known, Wrap(minDiff));
      if Keep(nodes, Later(nodes, last)) != [] {
        var n := EarliestLater(nodes, last, minDiff);
        AheadFollows(last, minDiff);
      }
      assert [] + Keep(nodes, Reached(nodes, last)) == Keep(nodes, Reached(nodes, last));
    }

    /** Null-terminates the resume list and resumes everything on it. */
    method Conclude(toResume: Node?, resumeTail: Node?, known: word, ghost resumed: seq<Node>, ghost all: seq<Node>)
      requires IsOpen(toResume, resumeTail, resumed) && (toResume == null <==> resumeTail == null)
      requires Linked() && Distinct(resumed) && Disjoint(queue, resumed) && forall n :: n in resumed ==> n in all
      modifies all
      ensures Linked()
      ensures forall n :: n in all ==> if n in resumed then Woken(n, known) else Untouched(n)
    {
      ghost var t: Node? := if queue == [] then null else queue[|queue| - 1];
      assert resumeTail != null ==> resumeTail in resumed && resumeTail in all;
      Terminate(toResume, resumeTail, resumed, awaiters, t, queue);
      WakeAll(toResume, known, resumed, all);
    }

    /** Where a round leaves off: only the new waiter to push; or, its number being
        published, what was split off the list it found. */
    ghost predicate Round(node: Node, before: seq<Node>, batch: seq<Node>, resumed: seq<Node>, targetSequence: word)
      reads this`last, this`queue, this`lastPublished
    {
      var all := [node] + before;
      || (batch == [node] && queue == before && resumed == [] && targetSequence == node.target)
      || (batch == Keep(all, Later(all, last)) && queue == [] && resumed == Keep(all, Reached(all, last))
          && node.number <= last && (batch != [] ==> Precedes(lastPublished, targetSequence)))
    }

    /** What the split makes of the new waiter and of those it found. */
    lemma SplitApart(all: seq<Node>, v: int)
      requires Distinct(all)
      ensures Distinct(Keep(all, Later(all, v))) && Distinct(Keep(all, Reached(all, v)))
      ensures Disjoint(Keep(all, Later(all, v)), Keep(all, Reached(all, v)))
      ensures Disjoint(Keep(all, Reached(all, v)), Keep(all, Later(all, v)))
    {
      KeepDistinct(all, Later(all, v));
      KeepDistinct(all, Reached(all, v));
    }

    /** The rounds of `add_awaiter`, up to the resume loop. */
    method PushAndSplit(node: Node, known: word)
      returns (toResume: Node?, resumeTail: Node?, ghost resumed: seq<Node>)
      requires Linked() && node !in queue && InWindow([node] + queue, last) && known == lastPublished
      modifies this`awaiters, this`queue, node`next, queue`next
      ensures Linked() && IsOpen(toResume, resumeTail, resumed) && (toResume == null <==> resumeTail == null)
      ensures Distinct(resumed) && Disjoint(queue, resumed)
      ensures var all := [node] + old(queue);
              if node.number > last then queue == all && resumed == []
              else queue == Keep(all, Later(all, last)) && resumed == Keep(all, Reached(all, last))
    {
      ghost var before, all := queue, [node] + queue;
      var targetSequence: word, toRequeue: Node?, tail: Node? := node.target, node, node;
      toResume, resumeTail := null, null;
      ghost var batch: seq<Node> := [node];
      resumed := [];
      WindowDecides(all, last, node);
      DistinctAppend([node], before);
      SplitApart(all, last);
      while toRequeue != null
        invariant Linked() && Round(node, before, batch, resumed, targetSequence)
        invariant IsOpen(toRequeue, tail, batch) && (toRequeue == null <==> batch == [])
        invariant IsOpen(toResume, resumeTail, resumed) && (toResume == null <==> resumeTail == null)
        modifies this`awaiters, this`queue, all`next
        decreases queue == before && resumed == [], |batch|
      {
        assert tail in batch && tail in all;
        Enqueue(toRequeue, tail, batch, toResume, resumeTail, resumed);
        if Precedes(known, targetSequence) { break; }
        toResume, resumeTail, toRequeue, tail, targetSequence := TakeBack(known);
        batch, resumed := Keep(all, Later(all, last)), Keep(all, Reached(all, last));
      }
    }

    /** A waiter whose number is not published joins the queue in front, and nobody
        is disturbed. Any other takes the queue it joined: everything that is
        reached is resumed, whoever pushed it, and the rest stays queued in order. */
    method AddAwaiter(node: Node)
      requires Linked() && node !in queue && InWindow([node] + queue, last)
      modifies this`awaiters, this`queue, node, queue
      ensures Linked()
      ensures var all := [node] + old(queue);
              if node.number > last then queue == all && forall n :: n in all ==> Untouched(n)
              else
                && queue == Keep(all, Later(all, last))
                && forall n :: n in all ==> if n.number <= last then Woken(n, lastPublished) else Untouched(n)
    {
      ghost var all := [node] + queue;
      var known := lastPublished;
      var toResume, resumeTail;
      ghost var resumed;
      toResume, resumeTail, resumed := PushAndSplit(node, known);
      ReachedMembers(all, last);
      label Split:
      Conclude(toResume, resumeTail, known, resumed, all);
      forall n | n in all ensures if n in resumed then Woken(n, known) else Untouched(n) {
        assert old@Split(n.lastKnown) == old(n.lastKnown) && old@Split(n.ready) == old(n.ready);
      }
    }

    lemma ReachedMembers(all: seq<Node>, v: int)
      ensures forall n :: n in Keep(all, Reached(all, v)) <==> n in all && n.number <= v
    {
    }

    /** `await_suspend`: the coroutine stays suspended exactly when its number is
        not published, and is then in the queue, still to be resumed. */
    method AwaitSuspend(node: Node) returns (suspended: bool)
      requires Linked() && node !in queue && InWindow([node] + queue, last) && !node.ready
      modifies this`awaiters, this`queue, node, queue
      ensures Linked() && (suspended <==> node.number > last)
      ensures node.ready && node.continued == old(node.continued)
      ensures var all := [node] + old(queue);
              if suspended then queue == all && forall n :: n in old(queue) ==> Untouched(n)
              else
                && queue == Keep(all, Later(all, last)) && node.lastKnown == lastPublished
                && forall n :: n in old(queue) ==> if n.number <= last then Woken(n, lastPublished) else Untouched(n)
    {
      AddAwaiter(node);
      assert node in [node] + old(queue);
      assert forall n :: n in old(queue) ==> n in [node] + old(queue) && n != node;
      suspended := !node.ready;
      node.ready := true;
    }
  }
}
