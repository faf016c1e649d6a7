/** Linked wait operations, and the loops that split a captured list in place
    through tail pointers. */
module AwaiterNodes {
  import opened Words
  import opened Lists

  /** A wait operation on the barrier. `number` is the unbounded target that the
      word `target` stands for; `continued` counts continuations of the
      awaiting coroutine. */
  class Node {
    const target: word
    ghost const number: int
    var lastKnown: word
    var next: Node?
    var ready: bool
    var continued: nat

    constructor (targetSequence: word, known: word, ghost number: int)
      ensures target == targetSequence && lastKnown == known && this.number == number
      ensures !ready && continued == 0 && next == null
    {
      target, lastKnown, this.number := targetSequence, known, number;
      ready, continued, next := false, 0, null;
    }

    /** Of the two exchanges on `m_readyToResume` the second continues. */
    method Resume()
      modifies this`ready, this`continued
      ensures ready && continued == old(continued) + if old(ready) then 1 else 0
    {
      var was := ready;
      ready := true;
      if was { continued := continued + 1; }
    }
  }

  ghost predicate Chained(nodes: seq<Node>)
    reads nodes
  {
    forall i :: 0 <= i < |nodes| - 1 ==> nodes[i].next == nodes[i + 1]
  }

  /** A null-terminated list whose nodes are `nodes`. */
  ghost predicate IsList(head: Node?, nodes: seq<Node>)
    reads nodes
  {
    && Chained(nodes)
    && (if nodes == [] then head == null
        else head == nodes[0] && nodes[|nodes| - 1].next == null)
  }

  /** A list under construction: `tail` is the node whose link is next written,
      or null when that is the head variable itself. */
  ghost predicate IsOpen(head: Node?, tail: Node?, nodes: seq<Node>)
    reads nodes
  {
    && Chained(nodes)
    && (if nodes == [] then tail == null
        else head == nodes[0] && tail == nodes[|nodes| - 1])
  }

  /** The rest of a captured list, from position `i`. */
  ghost predicate IsRest(cur: Node?, nodes: seq<Node>, i: nat)
    reads nodes
    requires i <= |nodes|
  {
    && (forall j :: i <= j < |nodes| - 1 ==> nodes[j].next == nodes[j + 1])
    && (if i == |nodes| then cur == null
        else cur == nodes[i] && nodes[|nodes| - 1].next == null)
  }

  ghost function Later(nodes: seq<Node>, v: int): set<Node> { set n | n in nodes && n.number > v }

  ghost function Reached(nodes: seq<Node>, v: int): set<Node> { set n | n in nodes && n.number <= v }

  /** The node's word can be compared with the word of `v`. */
  ghost predicate Comparable(n: Node, v: int) {
    n.target == Wrap(n.number) && -TWO63 < n.number - v < TWO63
  }

  ghost predicate InWindow(nodes: seq<Node>, v: int) {
    forall n {:trigger Comparable(n, v)} :: n in nodes ==> Comparable(n, v)
  }

  lemma WindowDecides(nodes: seq<Node>, v: int, n: Node)
    requires InWindow(nodes, v) && n in nodes
    ensures Precedes(Wrap(v), n.target) <==> n in Later(nodes, v)
    ensures !Precedes(Wrap(v), n.target) <==> n in Reached(nodes, v)
    ensures Difference(n.target, Wrap(v)) == n.number - v
  {
    assert Comparable(n, v);
    PrecedesRefines(v, n.number);
    DifferenceRefines(n.number, v);
  }

  lemma KeepNext<T>(xs: seq<T>, i: nat, s: set<T>)
    requires i < |xs|
    ensures Keep(xs[..i + 1], s) == Keep(xs[..i], s) + if xs[i] in s then [xs[i]] else []
  {
    assert xs[..i + 1][..i] == xs[..i];
  }

  lemma KeepAll<T>(xs: seq<T>, s: set<T>)
    ensures Keep(xs[..|xs|], s) == Keep(xs, s)
  {
    assert xs[..|xs|] == xs;
  }

  /** `*tail = node; tail = &node->m_next`. */
  method Append(head: Node?, tail: Node?, node: Node, ghost xs: seq<Node>)
    returns (head': Node, tail': Node)
    requires IsOpen(head, tail, xs) && Distinct(xs) && node !in xs && (xs != [] ==> head != null)
    modifies if tail == null then {} else {tail}`next
    ensures IsOpen(head', tail', xs + [node]) && tail' == node
  {
    if tail == null { head' := node; } else { tail.next := node; head' := head; }
    tail' := node;
  }

  ghost predicate Disjoint(xs: seq<Node>, ys: seq<Node>) {
    forall n :: n in xs ==> n !in ys
  }

  /** One turn of a splitting loop: the current node goes to the end of one open
      list; the other open list and the rest of the captured one stay. */
  method Route(cur: Node, ghost nodes: seq<Node>, ghost i: nat,
               h0: Node?, t0: Node?, ghost mine: seq<Node>,
               ghost h1: Node?, ghost t1: Node?, ghost other: seq<Node>)
    returns (h0': Node, t0': Node, cur': Node?)
    requires i < |nodes| && IsRest(cur, nodes, i) && Disjoint(nodes[i..], mine)
    requires IsOpen(h0, t0, mine) && Distinct(mine) && (mine != [] ==> h0 != null)
    requires IsOpen(h1, t1, other) && Disjoint(other, mine)
    modifies if t0 == null then {} else {t0}`next
    ensures IsOpen(h0', t0', mine + [cur]) && IsOpen(h1, t1, other)
    ensures IsRest(cur', nodes, i + 1) && t0' == cur
  {
    assert forall k :: 0 <= k < |other| ==> other[k] in other;
    assert forall j :: i <= j < |nodes| ==> nodes[j] in nodes[i..] by {
      assert forall j :: i <= j < |nodes| ==> nodes[j] == nodes[i..][j - i];
    }
    h0', t0' := Append(h0, t0, cur, mine);
    cur' := cur.next;
  }

  /** After `i` nodes: `resumed` extends what an earlier round left in `xs`. */
  ghost predicate Partial(xs: seq<Node>, nodes: seq<Node>, i: nat, v: int, resumed: seq<Node>, requeued: seq<Node>) {
    && i <= |nodes|
    && resumed == xs + Keep(nodes[..i], Reached(nodes, v))
    && requeued == Keep(nodes[..i], Later(nodes, v))
  }

  lemma PartialApart(xs: seq<Node>, nodes: seq<Node>, i: nat, v: int, resumed: seq<Node>, requeued: seq<Node>)
    requires Partial(xs, nodes, i, v, resumed, requeued)
    requires Distinct(nodes) && Distinct(xs) && Disjoint(xs, nodes)
    ensures Distinct(resumed) && Distinct(requeued)
    ensures Disjoint(resumed, requeued) && Disjoint(requeued, resumed)
    ensures Disjoint(nodes[i..], resumed) && Disjoint(nodes[i..], requeued)
    ensures forall n :: n in resumed || n in requeued ==> n in xs + nodes
  {
    KeepDistinct(nodes[..i], Reached(nodes, v));
    KeepDistinct(nodes[..i], Later(nodes, v));
    DistinctAppend(xs, Keep(nodes[..i], Reached(nodes, v)));
    Prefix(nodes, i);
  }

  lemma Prefix(nodes: seq<Node>, i: nat)
    requires i <= |nodes| && Distinct(nodes)
    ensures forall n :: n in nodes[..i] || n in nodes[i..] ==> n in nodes
    ensures Disjoint(nodes[..i], nodes[i..]) && Disjoint(nodes[i..], nodes[..i])
  {
  }

  lemma PartialNext(xs: seq<Node>, nodes: seq<Node>, i: nat, v: int, resumed: seq<Node>, requeued: seq<Node>)
    requires Partial(xs, nodes, i, v, resumed, requeued) && i < |nodes|
    ensures nodes[i].number > v ==> Partial(xs, nodes, i + 1, v, resumed, requeued + [nodes[i]])
    ensures nodes[i].number <= v ==> Partial(xs, nodes, i + 1, v, resumed + [nodes[i]], requeued)
  {
    KeepNext(nodes, i, Reached(nodes, v));
    KeepNext(nodes, i, Later(nodes, v));
    assert xs + (Keep(nodes[..i], Reached(nodes, v)) + [nodes[i]]) == resumed + [nodes[i]];
  }

  /** `*tail = nullptr`, leaving another list alone. */
  method Terminate(ghost head: Node?, tail: Node?, ghost xs: seq<Node>,
                   ghost otherHead: Node?, ghost otherTail: Node?, ghost ys: seq<Node>)
    requires IsOpen(head, tail, xs) && (tail == null ==> head == null) && Distinct(xs)
    requires IsOpen(otherHead, otherTail, ys) && Disjoint(ys, xs)
    modifies if tail == null then {} else {tail}`next
    ensures IsList(head, xs) && IsOpen(head, tail, xs)
    ensures IsOpen(otherHead, otherTail, ys)
    ensures old(IsList(otherHead, ys)) ==> IsList(otherHead, ys)
  {
    assert forall k :: 0 <= k < |ys| ==> ys[k] in ys;
    if tail != null { tail.next := null; }
  }

  /** The state of a splitting loop before its `i`-th turn. */
  ghost predicate Splitting(xs: seq<Node>, nodes: seq<Node>, i: nat, v: int, cur: Node?,
                            h0: Node?, t0: Node?, resumed: seq<Node>, h1: Node?, t1: Node?, requeued: seq<Node>)
    reads nodes, resumed, requeued
  {
    && Partial(xs, nodes, i, v, resumed, requeued) && IsRest(cur, nodes, i)
    && IsOpen(h0, t0, resumed) && (h0 == null <==> t0 == null)
    && IsOpen(h1, t1, requeued) && (h1 == null <==> t1 == null)
  }

  /** Before the first turn both lists are as an earlier round left them. */
  lemma StartSplit(head: Node?, nodes: seq<Node>, v: int, h0: Node?, t0: Node?, xs: seq<Node>)
    requires IsList(head, nodes) && IsOpen(h0, t0, xs) && (h0 == null <==> t0 == null)
    ensures Splitting(xs, nodes, 0, v, head, h0, t0, xs, null, null, [])
  {
    assert xs + [] == xs;
  }

  lemma SplitIndex(xs: seq<Node>, nodes: seq<Node>, i: nat, v: int, cur: Node?,
                   h0: Node?, t0: Node?, resumed: seq<Node>, h1: Node?, t1: Node?, requeued: seq<Node>)
    requires Splitting(xs, nodes, i, v, cur, h0, t0, resumed, h1, t1, requeued)
    ensures i <= |nodes| && (cur == null <==> i == |nodes|) && (cur != null ==> cur == nodes[i])
  {
  }

  /** After the last turn the requeue list is null-terminated. */
  method EndSplit(ghost xs: seq<Node>, ghost nodes: seq<Node>, ghost v: int,
                  ghost h0: Node?, ghost t0: Node?, ghost resumed: seq<Node>,
                  h1: Node?, t1: Node?, ghost requeued: seq<Node>)
    requires Splitting(xs, nodes, |nodes|, v, null, h0, t0, resumed, h1, t1, requeued)
    requires Distinct(nodes) && Distinct(xs) && Disjoint(xs, nodes)
    modifies (xs + nodes)`next
    ensures IsOpen(h0, t0, xs + Keep(nodes, Reached(nodes, v))) && (h0 == null <==> t0 == null)
    ensures xs == [] ==> IsOpen(h0, t0, Keep(nodes, Reached(nodes, v)))
    ensures IsList(h1, Keep(nodes, Later(nodes, v))) && IsOpen(h1, t1, Keep(nodes, Later(nodes, v)))
  {
    PartialApart(xs, nodes, |nodes|, v, resumed, requeued);
    Completed(xs, nodes, v, resumed, requeued);
    assert t1 != null ==> t1 in requeued && t1 in nodes;
    Terminate(h1, t1, requeued, h0, t0, resumed);
  }

  /** One turn of either splitting loop: the current node is requeued if its
      target is later, and to be resumed otherwise. */
  method Turn(later: bool, cur: Node, ghost xs: seq<Node>, ghost nodes: seq<Node>, ghost i: nat, ghost v: int,
              h0: Node?, t0: Node?, ghost resumed: seq<Node>, h1: Node?, t1: Node?, ghost requeued: seq<Node>)
    returns (toResume: Node?, resumeTail: Node?, ghost resumed': seq<Node>,
             toRequeue: Node?, requeueTail: Node?, ghost requeued': seq<Node>, next: Node?)
    requires Splitting(xs, nodes, i, v, cur, h0, t0, resumed, h1, t1, requeued) && i < |nodes|
    requires Distinct(nodes) && Distinct(xs) && Disjoint(xs, nodes) && (later <==> cur.number > v)
    modifies (xs + nodes)`next
    ensures Splitting(xs, nodes, i + 1, v, next, toResume, resumeTail, resumed', toRequeue, requeueTail, requeued')
  {
    toResume, resumeTail, toRequeue, requeueTail := h0, t0, h1, t1;
    resumed', requeued' := resumed, requeued;
    PartialApart(xs, nodes, i, v, resumed, requeued);
    PartialNext(xs, nodes, i, v, resumed, requeued);
    if later {
      assert t1 != null ==> t1 in requeued;
      toRequeue, requeueTail, next := Route(cur, nodes, i, h1, t1, requeued, h0, t0, resumed);
      requeued' := requeued + [cur];
    } else {
      assert t0 != null ==> t0 in resumed;
      toResume, resumeTail, next := Route(cur, nodes, i, h0, t0, resumed, h1, t1, requeued);
      resumed' := resumed + [cur];
    }
  }

  /** The split in `publish`: nodes whose target the published number precedes
      are to be requeued, the others resumed, each in captured order. */
  method SplitForPublish(head: Node, sequence: word, ghost nodes: seq<Node>, ghost v: int)
    returns (toResume: Node?, resumeTail: Node?, toRequeue: Node?, requeueTail: Node?)
    requires IsList(head, nodes) && Distinct(nodes) && sequence == Wrap(v) && InWindow(nodes, v)
    modifies nodes`next
    ensures IsList(toResume, Keep(nodes, Reached(nodes, v)))
    ensures IsOpen(toResume, resumeTail, Keep(nodes, Reached(nodes, v)))
    ensures IsList(toRequeue, Keep(nodes, Later(nodes, v)))
    ensures IsOpen(toRequeue, requeueTail, Keep(nodes, Later(nodes, v)))
  {
    ghost var resumed, requeued;
    toResume, resumeTail, resumed, toRequeue, requeueTail, requeued := PublishLoop(head, sequence, nodes, v);
    EndSplit([], nodes, v, toResume, resumeTail, resumed, toRequeue, requeueTail, requeued);
    ghost var due, pending := Keep(nodes, Reached(nodes, v)), Keep(nodes, Later(nodes, v));
    KeepDistinct(nodes, Reached(nodes, v));
    assert resumeTail != null ==> resumeTail in due;
    Terminate(toResume, resumeTail, due, toRequeue, requeueTail, pending);
  }

  method PublishLoop(head: Node, sequence: word, ghost nodes: seq<Node>, ghost v: int)
    returns (toResume: Node?, resumeTail: Node?, ghost resumed: seq<Node>,
             toRequeue: Node?, requeueTail: Node?, ghost requeued: seq<Node>)
    requires IsList(head, nodes) && Distinct(nodes) && sequence == Wrap(v) && InWindow(nodes, v)
    modifies nodes`next
    ensures Splitting([], nodes, |nodes|, v, null, toResume, resumeTail, resumed, toRequeue, requeueTail, requeued)
  {
    hide Splitting;
    toResume, resumeTail, toRequeue, requeueTail := null, null, null, null;
    var cur: Node? := head;
    ghost var i := 0;
    resumed, requeued := [], [];
    StartSplit(head, nodes, v, null, null, []);
    SplitIndex([], nodes, i, v, cur, toResume, resumeTail, resumed, toRequeue, requeueTail, requeued);
    while cur != null
      invariant Splitting([], nodes, i, v, cur, toResume, resumeTail, resumed, toRequeue, requeueTail, requeued)
      invariant i <= |nodes| && (cur == null <==> i == |nodes|) && (cur != null ==> cur == nodes[i])
      decreases |nodes| - i
    {
      WindowDecides(nodes, v, cur);
      toResume, resumeTail, resumed, toRequeue, requeueTail, requeued, cur :=
        Turn(Precedes(sequence, cur.target), cur, [], nodes, i, v,
             toResume, resumeTail, resumed, toRequeue, requeueTail, requeued);
      i := i + 1;
      SplitIndex([], nodes, i, v, cur, toResume, resumeTail, resumed, toRequeue, requeueTail, requeued);
    }
  }

  lemma Completed(xs: seq<Node>, nodes: seq<Node>, v: int, resumed: seq<Node>, requeued: seq<Node>)
    requires Partial(xs, nodes, |nodes|, v, resumed, requeued)
    ensures resumed == xs + Keep(nodes, Reached(nodes, v)) && requeued == Keep(nodes, Later(nodes, v))
    ensures xs == [] ==> resumed == Keep(nodes, Reached(nodes, v))
  {
    KeepAll(nodes, Reached(nodes, v));
    KeepAll(nodes, Later(nodes, v));
  }

  /** The least distance from `v` to a later target among `nodes[..i]`; the
      largest signed number if there is none. */
  ghost function LeastDiff(nodes: seq<Node>, v: int, i: nat): int
    requires i <= |nodes|
  {
    if i == 0 then TWO63 - 1
    else
      var rest, diff := LeastDiff(nodes, v, i - 1), nodes[i - 1].number - v;
      if 0 < diff < rest then diff else rest
  }

  lemma {:induction false} LeastDiffIsMinimum(nodes: seq<Node>, v: int, i: nat)
    requires i <= |nodes| && InWindow(nodes, v)
    ensures forall j :: 0 <= j < i && nodes[j].number > v ==> LeastDiff(nodes, v, i) <= nodes[j].number - v
    ensures (exists j :: 0 <= j < i && nodes[j].number > v) ==>
            exists j :: 0 <= j < i && nodes[j].number > v && LeastDiff(nodes, v, i) == nodes[j].number - v
    ensures LeastDiff(nodes, v, i) <= TWO63 - 1
    ensures (forall j :: 0 <= j < i ==> nodes[j].number <= v) ==> LeastDiff(nodes, v, i) == TWO63 - 1
  {
    if i > 0 {
      LeastDiffIsMinimum(nodes, v, i - 1);
      assert nodes[i - 1] in nodes && Comparable(nodes[i - 1], v);
    }
  }

  /** No waiter of the list waits for an earlier number. */
  ghost predicate Earliest(n: Node, nodes: seq<Node>) {
    n in nodes && forall m :: m in nodes ==> n.number <= m.number
  }

  /** The least distance leads to the earliest of the later waiters. */
  lemma EarliestLater(nodes: seq<Node>, v: int, minDiff: int) returns (n: Node)
    requires InWindow(nodes, v) && minDiff == LeastDiff(nodes, v, |nodes|) && Keep(nodes, Later(nodes, v)) != []
    ensures Earliest(n, Keep(nodes, Later(nodes, v))) && n.number == v + minDiff
    ensures 0 < minDiff < TWO63 && n.target == AddWords(Wrap(v), Wrap(minDiff)) == Wrap(v + minDiff)
  {
    LeastDiffIsMinimum(nodes, v, |nodes|);
    var first := Keep(nodes, Later(nodes, v))[0];
    assert first in nodes && first.number > v;
    var j :| 0 <= j < |nodes| && nodes[j].number > v && minDiff == nodes[j].number - v;
    n := nodes[j];
    assert n in nodes && Comparable(n, v);
    WrapIsHomomorphic(v, minDiff);
  }

  /** The split in `add_awaiter`: the resume list of earlier rounds is extended,
      the requeue list starts anew, and the least distance to a requeued target
      is computed on the way. */
  method SplitForAdd(head: Node?, known: word, resumeHead: Node?, resumeTail: Node?,
                     ghost xs: seq<Node>, ghost nodes: seq<Node>, ghost v: int)
    returns (toResume: Node?, newTail: Node?, toRequeue: Node?, requeueTail: Node?, minDiff: int)
    requires IsList(head, nodes) && Distinct(nodes) && known == Wrap(v) && InWindow(nodes, v)
    requires IsOpen(resumeHead, resumeTail, xs) && (resumeHead == null <==> resumeTail == null)
    requires Distinct(xs) && Disjoint(xs, nodes)
    modifies (xs + nodes)`next
    ensures IsOpen(toResume, newTail, xs + Keep(nodes, Reached(nodes, v)))
    ensures toResume == null <==> newTail == null
    ensures IsList(toRequeue, Keep(nodes, Later(nodes, v)))
    ensures IsOpen(toRequeue, requeueTail, Keep(nodes, Later(nodes, v)))
    ensures minDiff == LeastDiff(nodes, v, |nodes|)
  {
    ghost var resumed, requeued;
    toResume, newTail, resumed, toRequeue, requeueTail, requeued, minDiff :=
      AddLoop(head, known, resumeHead, resumeTail, xs, nodes, v);
    EndSplit(xs, nodes, v, toResume, newTail, resumed, toRequeue, requeueTail, requeued);
  }

  method AddLoop(head: Node?, known: word, resumeHead: Node?, oldTail: Node?,
                 ghost xs: seq<Node>, ghost nodes: seq<Node>, ghost v: int)
    returns (toResume: Node?, resumeTail: Node?, ghost resumed: seq<Node>,
             toRequeue: Node?, requeueTail: Node?, ghost requeued: seq<Node>, minDiff: int)
    requires IsList(head, nodes) && Distinct(nodes) && known == Wrap(v) && InWindow(nodes, v)
    requires IsOpen(resumeHead, oldTail, xs) && (resumeHead == null <==> oldTail == null)
    requires Distinct(xs) && Disjoint(xs, nodes)
    modifies (xs + nodes)`next
    ensures Splitting(xs, nodes, |nodes|, v, null, toResume, resumeTail, resumed, toRequeue, requeueTail, requeued)
    ensures minDiff == LeastDiff(nodes, v, |nodes|)
  {
    hide Splitting;
    toResume, resumeTail, toRequeue, requeueTail := resumeHead, oldTail, null, null;
    minDiff := TWO63 - 1;
    var cur: Node? := head;
    ghost var i := 0;
    resumed, requeued := xs, [];
    StartSplit(head, nodes, v, resumeHead, oldTail, xs);
    SplitIndex(xs, nodes, i, v, cur, toResume, resumeTail, resumed, toRequeue, requeueTail, requeued);
    while cur != null
      invariant Splitting(xs, nodes, i, v, cur, toResume, resumeTail, resumed, toRequeue, requeueTail, requeued)
      invariant i <= |nodes| && (cur == null <==> i == |nodes|) && (cur != null ==> cur == nodes[i])
      invariant minDiff == LeastDiff(nodes, v, i)
      decreases |nodes| - i
    {
      var diff := Difference(cur.target, known);
      WindowDecides(nodes, v, cur);
      toResume, resumeTail, resumed, toRequeue, requeueTail, requeued, cur :=
        Turn(diff > 0, cur, xs, nodes, i, v, toResume, resumeTail, resumed, toRequeue, requeueTail, requeued);
      if diff > 0 { minDiff := if diff < minDiff then diff else minDiff; }
      i := i + 1;
      SplitIndex(xs, nodes, i, v, cur, toResume, resumeTail, resumed, toRequeue, requeueTail, requeued);
    }
  }

  // ---------- resuming ----------

  /** Resumed with `known`. */
  twostate predicate Woken(n: Node, known: word)
    reads n
  {
    n.lastKnown == known && n.ready && n.continued == old(n.continued) + if old(n.ready) then 1 else 0
  }

  twostate predicate Untouched(n: Node)
    reads n
  {
    n.lastKnown == old(n.lastKnown) && n.ready == old(n.ready) && n.continued == old(n.continued)
  }

  /** The resume loop that ends both operations. */
  method WakeAll(head: Node?, known: word, ghost nodes: seq<Node>, ghost all: seq<Node>)
    requires IsList(head, nodes) && Distinct(nodes) && forall n :: n in nodes ==> n in all
    modifies all`lastKnown, all`ready, all`continued
    ensures forall n :: n in all ==> if n in nodes then Woken(n, known) else Untouched(n)
  {
    var cur: Node? := head;
    ghost var i := 0;
    while cur != null
      invariant i <= |nodes| && IsRest(cur, nodes, i)
      invariant forall n :: n in all ==> if n in nodes[..i] then Woken(n, known) else Untouched(n)
      decreases |nodes| - i
    {
      assert cur in nodes && cur in all && cur !in nodes[..i];
      assert nodes[..i + 1] == nodes[..i] + [cur];
      var next := cur.next;
      cur.lastKnown := known;
      cur.Resume();
      cur := next;
      i := i + 1;
    }
    assert nodes[..i] == nodes;
  }
}
