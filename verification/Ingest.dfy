/** The streaming ingest, statement by statement, on a mutable store. Each
    method is one transaction: nothing outside sees the states in between. */
module Ingest {
  import opened Messages
  import opened HotGraph

  /** What a reader is shown of one node, its outbound edges included. */
  datatype NodeView = NodeView(appliedSeq: Option<nat>, deleted: bool, phantom: bool, attrs: Attrs, rels: set<Rel>)

  function OutRels(edges: set<Edge>, id: Id): set<Rel>
  {
    set e | e in edges && e.src == id :: Rel(e.kind, e.dst)
  }

  function Read(g: Graph, id: Id): Option<NodeView>
  {
    if id !in g.nodes then None
    else
      var n := g.nodes[id];
      Some(NodeView(n.appliedSeq, n.deleted, n.phantom, n.attrs, OutRels(g.edges, id)))
  }

  class HotStore {
    var nodes: map<Id, Node>
    var edges: set<Edge>

    constructor ()
      ensures Contents() == EMPTY
    {
      nodes, edges := map[], {};
    }

    function Contents(): Graph
      reads this
    {
      Graph(nodes, edges)
    }

    /** MERGE the node, then replace its whole property bag. */
    method SetNode(id: Id, n: Node)
      modifies this
      ensures Contents() == Graph(old(nodes)[id := n], old(edges))
    {
      nodes := nodes[id := n];
    }

    /** Delete the outbound edges of `id`. */
    method ClearEdges(id: Id)
      modifies this
      ensures nodes == old(nodes)
      ensures edges == set e | e in old(edges) && e.src != id
    {
      edges := set e | e in edges && e.src != id;
    }

    /** MERGE the target, as a placeholder if it is new, then MERGE the edge. */
    method MergeEdge(src: Id, rel: Rel)
      modifies this
      ensures nodes == if rel.target in old(nodes) then old(nodes) else old(nodes)[rel.target := PLACEHOLDER]
      ensures edges == old(edges) + {Edge(src, rel.kind, rel.target)}
    {
      if rel.target !in nodes {
        nodes := nodes[rel.target := PLACEHOLDER];
      }
      edges := edges + {Edge(src, rel.kind, rel.target)};
    }

    /** Create the edges one applied upsert states, in order. */
    method MergeEdges(m: Message)
      requires m.op.Upsert? || m.rels == []
      modifies this
      ensures forall id :: id in nodes <==> id in old(nodes) || id in TargetsOf(m)
      ensures forall id :: id in nodes ==> nodes[id] == if id in old(nodes) then old(nodes)[id] else PLACEHOLDER
      ensures edges == old(edges) + EdgesOf(m)
    {
      for i := 0 to |m.rels|
        invariant forall id :: id in nodes <==> id in old(nodes) || exists r :: r in m.rels[..i] && r.target == id
        invariant forall id :: id in nodes ==> nodes[id] == if id in old(nodes) then old(nodes)[id] else PLACEHOLDER
        invariant edges == old(edges) + set r | r in m.rels[..i] :: Edge(m.id, r.kind, r.target)
      {
        MergeEdge(m.id, m.rels[i]);
        assert m.rels[..i + 1] == m.rels[..i] + [m.rels[i]];
      }
      assert m.rels[..|m.rels|] == m.rels;
    }

    method WriteUpsert(m: Message)
      requires m.op.Upsert?
      modifies this
      ensures Contents() == Write(old(Contents()), map[m.id := m])
    {
      SetNode(m.id, NodeOf(m));
      ClearEdges(m.id);
      MergeEdges(m);
      WrittenOne(old(Contents()), m, Contents());
    }

    method WriteTombstone(m: Message)
      requires m.op.Delete?
      modifies this
      ensures Contents() == Write(old(Contents()), map[m.id := m])
    {
      SetNode(m.id, NodeOf(m));
      ClearEdges(m.id);
      WrittenOne(old(Contents()), m, Contents());
    }

    method Apply(m: Message) returns (applied: bool)
      modifies this
      ensures Contents() == Step(old(Contents()), m)
      ensures applied == Fresh(old(Contents()), m)
    {
      var current := if m.id in nodes && nodes[m.id].appliedSeq.Some? then nodes[m.id].appliedSeq.value else -1;
      if m.sequence <= current {
        return false;
      }
      match m.op {
        case Upsert => WriteUpsert(m);
        case Delete => WriteTombstone(m);
      }
      applied := true;
    }

    /** Highest sequence per resource, first one on a tie, in first-seen order. */
    static method PickBest(ms: seq<Message>) returns (best: map<Id, Message>, order: seq<Id>)
      ensures best == Best(ms)
      ensures Lists(order, best.Keys)
    {
      best, order := map[], [];
      for i := 0 to |ms|
        invariant best == Best(ms[..i])
        invariant Lists(order, best.Keys)
      {
        var m := ms[i];
        assert ms[..i + 1][..i] == ms[..i];
        if m.id !in best {
          order := order + [m.id];
          best := best[m.id := m];
        } else if m.sequence > best[m.id].sequence {
          best := best[m.id := m];
        }
      }
      assert ms[..|ms|] == ms;
    }

    /** The watermark's verdict on each candidate. */
    method Verdict(best: map<Id, Message>, order: seq<Id>) returns (todo: seq<Id>)
      requires Lists(order, best.Keys)
      ensures forall id :: id in todo <==> id in best && best[id].sequence > Watermark(Contents(), id)
      ensures Distinct(todo)
    {
      todo := [];
      for i := 0 to |order|
        invariant forall id :: id in todo <==> id in order[..i] && best[id].sequence > Watermark(Contents(), id)
        invariant Distinct(todo)
      {
        var id := order[i];
        assert order[..i + 1] == order[..i] + [id];
        assert id !in order[..i];
        var current := if id in nodes && nodes[id].appliedSeq.Some? then nodes[id].appliedSeq.value else -1;
        if best[id].sequence > current {
          todo := todo + [id];
        }
      }
    }

    method ApplyBatch(ms: seq<Message>) returns (applied: nat, skipped: nat)
      modifies this
      ensures Contents() == BatchStep(old(Contents()), ms)
      ensures applied == |Winners(old(Contents()), ms)|
      ensures applied + skipped == |ms|
    {
      ghost var w := Winners(Contents(), ms);
      if ms == [] {
        assert w == map[];
        return 0, 0;
      }
      var best, order := PickBest(ms);
      BestFits(ms);
      skipped := |ms| - |best|;
      var todo := Verdict(best, order);
      ListsSize(todo, w.Keys);
      MapSizes(w, best);
      skipped := skipped + (|best| - |todo|);
      applied := |todo|;
      BestKeyed(ms);
      WriteNodes(best, todo);
      CreateEdges(best, todo);
      WrittenBy(old(Contents()), w, Contents());
    }

    /** Upserts first, then tombstones, then the edges of both are cleared. */
    method WriteNodes(best: map<Id, Message>, todo: seq<Id>)
      requires forall id :: id in todo ==> id in best && best[id].id == id
      modifies this
      ensures forall id :: id in nodes <==> id in old(nodes) || id in todo
      ensures forall id :: id in nodes ==> nodes[id] == if id in todo then NodeOf(best[id]) else old(nodes)[id]
      ensures edges == set e | e in old(edges) && e.src !in todo
    {
      for i := 0 to |todo|
        invariant edges == old(edges)
        invariant forall id :: id in nodes <==> id in old(nodes) || (id in todo[..i] && best[id].op.Upsert?)
        invariant forall id :: id in nodes ==>
                    nodes[id] == if id in todo[..i] && best[id].op.Upsert? then NodeOf(best[id]) else old(nodes)[id]
      {
        assert todo[..i + 1] == todo[..i] + [todo[i]];
        if best[todo[i]].op.Upsert? {
          SetNode(todo[i], NodeOf(best[todo[i]]));
        }
      }
      for i := 0 to |todo|
        invariant edges == old(edges)
        invariant forall id :: id in nodes <==>
                    id in old(nodes) || (id in todo && (best[id].op.Upsert? || id in todo[..i]))
        invariant forall id :: id in nodes ==>
                    nodes[id] == if id in todo && (best[id].op.Upsert? || id in todo[..i]) then NodeOf(best[id])
                                 else old(nodes)[id]
      {
        assert todo[..i + 1] == todo[..i] + [todo[i]];
        if best[todo[i]].op.Delete? {
          SetNode(todo[i], NodeOf(best[todo[i]]));
        }
      }
      label Cleared:
      for i := 0 to |todo|
        invariant nodes == old@Cleared(nodes)
        invariant edges == set e | e in old(edges) && e.src !in todo[..i]
      {
        assert todo[..i + 1] == todo[..i] + [todo[i]];
        ClearEdges(todo[i]);
      }
    }

    /** Creates run last, so that the clears cannot remove them. */
    method CreateEdges(best: map<Id, Message>, todo: seq<Id>)
      requires forall id :: id in todo ==> id in best && best[id].id == id
      modifies this
      ensures forall id :: id in nodes <==> id in old(nodes) || exists i :: i in todo && id in TargetsOf(best[i])
      ensures forall id :: id in nodes ==> nodes[id] == if id in old(nodes) then old(nodes)[id] else PLACEHOLDER
      ensures forall e :: e in edges <==> e in old(edges) || (e.src in todo && e in EdgesOf(best[e.src]))
    {
      for k := 0 to |todo|
        invariant forall id :: id in nodes <==>
                    id in old(nodes) || exists i :: i in todo[..k] && id in TargetsOf(best[i])
        invariant forall id :: id in nodes ==> nodes[id] == if id in old(nodes) then old(nodes)[id] else PLACEHOLDER
        invariant forall e :: e in edges <==> e in old(edges) || (e.src in todo[..k] && e in EdgesOf(best[e.src]))
      {
        var m := best[todo[k]];
        assert todo[..k + 1] == todo[..k] + [todo[k]];
        if m.op.Upsert? {
          MergeEdges(m);
        }
      }
      assert todo[..|todo|] == todo;
    }
  }

  ghost predicate Distinct<T>(s: seq<T>)
  {
    forall i, j :: 0 <= i < j < |s| ==> s[i] != s[j]
  }

  /** `order` enumerates `keys`, each once. */
  ghost predicate Lists<T(!new)>(order: seq<T>, keys: set<T>)
  {
    (forall x :: x in order <==> x in keys) && Distinct(order)
  }

  lemma {:induction false} ListsSize<T(!new)>(order: seq<T>, keys: set<T>)
    requires Lists(order, keys)
    ensures |order| == |keys|
  {
    if order == [] {
      assert keys == {};
    } else {
      var k := |order| - 1;
      assert order == order[..k] + [order[k]];
      ListsSize(order[..k], keys - {order[k]});
    }
  }

  lemma {:induction false} BestFits(ms: seq<Message>)
    ensures |Best(ms)| <= |ms|
  {
    if ms != [] {
      BestFits(ms[..|ms| - 1]);
    }
  }

  lemma MapSizes<K, V>(small: map<K, V>, big: map<K, V>)
    requires small.Keys <= big.Keys
    ensures |small| <= |big|
  {
    assert big.Keys == small.Keys + (big.Keys - small.Keys);
    assert |small.Keys| == |small| && |big.Keys| == |big|;
  }

  /** The statements of a transaction add up to `Write`. */
  lemma WrittenBy(g: Graph, w: map<Id, Message>, h: Graph)
    requires Keyed(w)
    requires forall id :: id in h.nodes <==> id in g.nodes || id in w || exists i :: i in w && id in TargetsOf(w[i])
    requires forall id :: id in h.nodes ==>
               h.nodes[id] == if id in w then NodeOf(w[id]) else if id in g.nodes then g.nodes[id] else PLACEHOLDER
    requires forall e :: e in h.edges <==> if e.src in w then e in EdgesOf(w[e.src]) else e in g.edges
    ensures h == Write(g, w)
  {
    assert h.nodes.Keys == Write(g, w).nodes.Keys;
    forall e
      ensures e in h.edges <==> e in Write(g, w).edges
    {
      WriteEdge(g, w, e);
    }
  }

  lemma WrittenOne(g: Graph, m: Message, h: Graph)
    requires forall id :: id in h.nodes <==> id in g.nodes || id == m.id || id in TargetsOf(m)
    requires forall id :: id in h.nodes ==>
               h.nodes[id] == if id == m.id then NodeOf(m) else if id in g.nodes then g.nodes[id] else PLACEHOLDER
    requires forall e :: e in h.edges <==> if e.src == m.id then e in EdgesOf(m) else e in g.edges
    ensures h == Write(g, map[m.id := m])
  {
    var w := map[m.id := m];
    assert m.id in w && w[m.id] == m;
    WrittenBy(g, w, h);
  }
}
