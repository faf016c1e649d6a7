/** The linked nodes of SequenceBarriers and the waiters of BarrierProtocol: what
    the methods leave in the list and resume is what the state machine's
    undisturbed threads leave and resume. */
module BarrierLink {
  import opened Lists
  import opened AwaiterNodes
  import P = BarrierProtocol
  import opened BarrierResults

  /** The identities under which the state machine knows the nodes. */
  ghost function Ids(nodes: seq<Node>, ids: map<Node, nat>): (ws: seq<nat>)
    requires forall n :: n in nodes ==> n in ids
    ensures |ws| == |nodes|
  {
    if nodes == [] then [] else Ids(nodes[..|nodes| - 1], ids) + [ids[nodes[|nodes| - 1]]]
  }

  ghost predicate Knows(s: P.State, nodes: seq<Node>, ids: map<Node, nat>) {
    forall n :: n in nodes ==> n in ids && ids[n] in s.waiters && s.waiters[ids[n]].target == n.number
  }

  /** Splitting nodes by their targets splits the waiters in the same way. */
  lemma {:induction false} KeepIds(s: P.State, nodes: seq<Node>, ids: map<Node, nat>, ns: set<Node>, ws: set<nat>)
    requires Knows(s, nodes, ids) && forall n :: n in nodes ==> (n in ns <==> ids[n] in ws)
    ensures Keep(Ids(nodes, ids), ws) == Ids(Keep(nodes, ns), ids)
  {
    if nodes != [] {
      var front, n := nodes[..|nodes| - 1], nodes[|nodes| - 1];
      KeepIds(s, front, ids, ns, ws);
      var w := Ids(nodes, ids);
      assert w[..|w| - 1] == Ids(front, ids) && w[|w| - 1] == ids[n];
      if n in ns { assert (Keep(front, ns) + [n])[..|Keep(front, ns)|] == Keep(front, ns); }
    }
  }

  lemma SplitsAgree(s: P.State, nodes: seq<Node>, ids: map<Node, nat>, v: int)
    requires Knows(s, nodes, ids)
    ensures P.Pending(s, Ids(nodes, ids), v) == Ids(Keep(nodes, Later(nodes, v)), ids)
    ensures P.Due(s, Ids(nodes, ids), v) == Ids(Keep(nodes, Reached(nodes, v)), ids)
  {
    KeepIds(s, nodes, ids, Later(nodes, v), set w | w in s.waiters && s.waiters[w].target > v);
    KeepIds(s, nodes, ids, Reached(nodes, v), set w | w in s.waiters && s.waiters[w].target <= v);
  }

  /** An undisturbed publisher leaves and resumes the nodes that the contract of
      `SequenceBarrier.Publish` names. */
  lemma PublishMatches(s: P.State, nodes: seq<Node>, ids: map<Node, nat>, v: int) returns (k: nat)
    requires P.Inv(s) && P.Enabled(s, P.Publish(v)) && Knows(s, nodes, ids) && s.list == Ids(nodes, ids)
    ensures var s0 := P.Apply(s, P.Publish(v));
            Ends(s0, Solo(s0, P.Publisher, k), P.Publisher,
                 Ids(Keep(nodes, Later(nodes, v)), ids), Ids(Keep(nodes, Reached(nodes, v)), ids), v)
  {
    SplitsAgree(s, nodes, ids, v);
    k := PublishAlone(s, v);
  }

  /** An undisturbed adder leaves and resumes the nodes that the contract of
      `SequenceBarrier.AddAwaiter` names. */
  lemma AddMatches(s: P.State, node: Node, before: seq<Node>, ids: map<Node, nat>, t: P.Thread) returns (k: nat)
    requires P.Inv(s) && Knows(s, [node] + before, ids) && s.list == Ids(before, ids) && t in s.locals
    requires s.locals[t] == P.Local(P.AddLoad(node.number), [ids[node]], [])
    ensures var all := [node] + before;
            if node.number > s.last then Ends(s, Solo(s, t, k), t, Ids(all, ids), [], s.last)
            else Ends(s, Solo(s, t, k), t, Ids(Keep(all, Later(all, s.last)), ids),
                      Ids(Keep(all, Reached(all, s.last)), ids), s.last)
  {
    var all := [node] + before;
    IdsOfFront(node, before, ids);
    SplitsAgree(s, all, ids, s.last);
    k := AddAlone(s, t);
    assert [] + P.Due(s, Ids(all, ids), s.last) == P.Due(s, Ids(all, ids), s.last);
  }

  lemma {:induction false} IdsOfFront(node: Node, before: seq<Node>, ids: map<Node, nat>)
    requires node in ids && forall n :: n in before ==> n in ids
    ensures Ids([node] + before, ids) == [ids[node]] + Ids(before, ids)
  {
    var all := [node] + before;
    if before != [] {
      assert all[..|all| - 1] == [node] + before[..|before| - 1];
      IdsOfFront(node, before[..|before| - 1], ids);
    }
  }
}
