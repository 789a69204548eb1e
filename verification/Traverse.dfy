/** Blast radius: everything with a dependency path to a resource, searched
    breadth first over reconstructed rows, and the same question asked live. */
module Traverse {
  import opened Messages
  import opened HotGraph
  import opened ColdStore

  /** A dependent and the resource it depends on. */
  type Arc = (Id, Id)

  /** What a traversal reads of one state row. */
  datatype Stub = Stub(id: Id, rels: seq<Rel>)

  function Arcs(rows: seq<Stub>): set<Arc>
  {
    set r, rel | r in rows && rel in r.rels :: (r.id, rel.target)
  }

  function Dependents(arcs: set<Arc>, x: Id): set<Id>
  {
    set a | a in arcs && a.1 == x :: a.0
  }

  /** The resources at reverse distance at most `k` from the root. */
  function Ball(arcs: set<Arc>, root: Id, k: nat): set<Id>
  {
    if k == 0 then {root} else Wider(arcs, Ball(arcs, root, k - 1))
  }

  function Wider(arcs: set<Arc>, b: set<Id>): set<Id>
  {
    b + set a | a in arcs && a.1 in b :: a.0
  }

  /** A dependency path from its first resource down to the root. */
  ghost predicate Path(arcs: set<Arc>, path: seq<Id>, root: Id)
  {
    && path != [] && path[|path| - 1] == root
    && forall i :: 0 <= i < |path| - 1 ==> (path[i], path[i + 1]) in arcs
  }

  /** Distance is what it should be: in the ball exactly if some path is that short. */
  lemma {:induction false} BallIsPaths(arcs: set<Arc>, root: Id, k: nat, x: Id)
    ensures x in Ball(arcs, root, k) <==> exists p :: Path(arcs, p, root) && p[0] == x && |p| <= k + 1
  {
    if k == 0 {
      assert x == root ==> Path(arcs, [x], root);
      assert forall p :: Path(arcs, p, root) && |p| <= 1 ==> p[0] == root;
    } else {
      if x in Ball(arcs, root, k) {
        if x in Ball(arcs, root, k - 1) {
          BallIsPaths(arcs, root, k - 1, x);
        } else {
          var a :| a in arcs && a.1 in Ball(arcs, root, k - 1) && a.0 == x;
          BallIsPaths(arcs, root, k - 1, a.1);
          var p :| Path(arcs, p, root) && p[0] == a.1 && |p| <= k;
          assert a == (x, a.1);
          assert Path(arcs, [x] + p, root) && ([x] + p)[0] == x;
        }
      }
      if p :| Path(arcs, p, root) && p[0] == x && |p| <= k + 1 {
        if |p| == 1 {
          BallHasRoot(arcs, root, k);
        } else {
          assert Path(arcs, p[1..], root) && p[1..][0] == p[1];
          BallIsPaths(arcs, root, k - 1, p[1]);
          assert (p[0], p[1]) in arcs;
        }
      }
    }
  }

  lemma {:induction false} BallHasRoot(arcs: set<Arc>, root: Id, k: nat)
    ensures root in Ball(arcs, root, k)
  {
    if k > 0 {
      BallHasRoot(arcs, root, k - 1);
    }
  }

  /** Once a ball stops growing it has stopped for good. */
  lemma {:induction false} BallSettles(arcs: set<Arc>, root: Id, k: nat, n: nat)
    requires Ball(arcs, root, k + 1) <= Ball(arcs, root, k)
    ensures Ball(arcs, root, n) <= Ball(arcs, root, k)
    decreases n
  {
    if n == 0 {
      BallHasRoot(arcs, root, k);
    } else {
      BallSettles(arcs, root, k, n - 1);
      WiderGrows(arcs, Ball(arcs, root, n - 1), Ball(arcs, root, k));
    }
  }

  lemma WiderGrows(arcs: set<Arc>, a: set<Id>, b: set<Id>)
    requires a <= b
    ensures Wider(arcs, a) <= Wider(arcs, b)
  {
  }

  function Get(dependents: map<Id, seq<Id>>, x: Id): seq<Id>
  {
    if x in dependents then dependents[x] else []
  }

  ghost predicate Adjacency(dependents: map<Id, seq<Id>>, arcs: set<Arc>)
  {
    forall x, d :: d in Get(dependents, x) <==> (d, x) in arcs
  }

  /** The reverse adjacency lists. */
  method Reverse(rows: seq<Stub>) returns (dependents: map<Id, seq<Id>>)
    ensures Adjacency(dependents, Arcs(rows))
  {
    dependents := map[];
    ghost var arcs: set<Arc> := {};
    for i := 0 to |rows|
      invariant arcs == Arcs(rows[..i])
      invariant Adjacency(dependents, arcs)
    {
      var r := rows[i];
      for j := 0 to |r.rels|
        invariant arcs == Arcs(rows[..i]) + set rel | rel in r.rels[..j] :: (r.id, rel.target)
        invariant Adjacency(dependents, arcs)
      {
        var x := r.rels[j].target;
        assert r.rels[..j + 1] == r.rels[..j] + [r.rels[j]];
        dependents := dependents[x := Get(dependents, x) + [r.id]];
        arcs := arcs + {(r.id, x)};
      }
      assert rows[..i + 1] == rows[..i] + [r] && r.rels[..|r.rels|] == r.rels;
    }
    assert rows[..|rows|] == rows;
  }

  /** Within the depth asked for; a negative depth asks for any distance. */
  ghost predicate Within(arcs: set<Arc>, root: Id, depth: int, x: Id)
  {
    if depth >= 0 then x in Ball(arcs, root, depth) else exists k :: x in Ball(arcs, root, k)
  }

  datatype Visit = Visit(node: Id, depth: nat)

  /** The search is at distance `k`: its queue holds `near` resources at that
      distance, then the ones found so far one step further out. */
  ghost predicate Frontier(arcs: set<Arc>, root: Id, limit: int, queue: seq<Visit>, seen: set<Id>, k: nat, near: nat)
  {
    && near <= |queue| && (limit >= 0 ==> k <= limit)
    && (forall i :: 0 <= i < |queue| ==> queue[i].depth == if i < near then k else k + 1)
    && (forall i :: 0 <= i < near ==> queue[i].node in Ball(arcs, root, k))
    && (forall i :: near <= i < |queue| ==> queue[i].node in seen)
    && (forall x :: x in seen && x !in Ball(arcs, root, k) ==> exists i :: near <= i < |queue| && queue[i].node == x)
    && Ball(arcs, root, k) <= seen <= Ball(arcs, root, k + 1)
    && (k == limit ==> seen == Ball(arcs, root, k) && near == |queue|)
    && (k != limit ==> forall a :: a in arcs && a.1 in Ball(arcs, root, k) && a.0 !in seen ==>
          exists i :: 0 <= i < near && queue[i].node == a.1)
  }

  lemma OneStep(arcs: set<Arc>, root: Id, k: nat, a: Arc)
    requires a in arcs && a.0 !in Ball(arcs, root, k + 1)
    ensures a.1 !in Ball(arcs, root, k)
  {
    if a.1 in Ball(arcs, root, k) {
      assert false;
    }
  }

  /** The current ring is spent: everything one step out has been seen. */
  lemma NextRing(arcs: set<Arc>, root: Id, limit: int, queue: seq<Visit>, seen: set<Id>, k: nat)
    requires Frontier(arcs, root, limit, queue, seen, k, 0) && queue != []
    ensures Frontier(arcs, root, limit, queue, seen, k + 1, |queue|)
  {
    assert k != limit;
    forall x | x in Ball(arcs, root, k + 1)
      ensures x in seen
    {
      if x !in Ball(arcs, root, k) {
        var a :| a in arcs && a.1 in Ball(arcs, root, k) && a.0 == x;
      }
    }
    assert seen == Ball(arcs, root, k + 1);
    forall a | a in arcs && a.1 in seen && a.0 !in seen
      ensures exists i :: 0 <= i < |queue| && queue[i].node == a.1
    {
      OneStep(arcs, root, k, a);
    }
  }

  lemma HeadIsNear(arcs: set<Arc>, root: Id, limit: int, queue: seq<Visit>, seen: set<Id>, k: nat, near: nat)
    returns (k': nat, near': nat)
    requires Frontier(arcs, root, limit, queue, seen, k, near) && queue != []
    ensures Frontier(arcs, root, limit, queue, seen, k', near') && near' > 0 && queue[0].depth == k'
  {
    k', near' := k, near;
    if near == 0 {
      NextRing(arcs, root, limit, queue, seen, k);
      k', near' := k + 1, |queue|;
    }
  }

  /** Visiting the head of the queue, short of the limit. */
  lemma Visited(arcs: set<Arc>, root: Id, limit: int, queue: seq<Visit>, seen: set<Id>, k: nat, near: nat,
                added: seq<Visit>, seen': set<Id>)
    requires Frontier(arcs, root, limit, queue, seen, k, near) && near > 0 && k != limit
    requires seen' == seen + Dependents(arcs, queue[0].node)
    requires forall j :: 0 <= j < |added| ==> added[j].depth == k + 1 && added[j].node in seen'
    requires forall x :: x in seen' && x !in seen ==> exists j :: 0 <= j < |added| && added[j].node == x
    ensures Frontier(arcs, root, limit, queue[1..] + added, seen', k, near - 1)
  {
    var node, after := queue[0].node, queue[1..] + added;
    assert forall i :: 1 <= i < |queue| ==> after[i - 1] == queue[i];
    assert forall j :: 0 <= j < |added| ==> after[|queue| - 1 + j] == added[j];
    forall x | x in seen' && x !in Ball(arcs, root, k)
      ensures exists i :: near - 1 <= i < |after| && after[i].node == x
    {
      if x in seen {
        var i :| near <= i < |queue| && queue[i].node == x;
        assert after[i - 1].node == x;
      } else {
        var j :| 0 <= j < |added| && added[j].node == x;
        assert after[|queue| - 1 + j].node == x;
      }
    }
    forall a | a in arcs && a.1 in Ball(arcs, root, k) && a.0 !in seen'
      ensures exists i :: 0 <= i < near - 1 && after[i].node == a.1
    {
      var i :| 0 <= i < near && queue[i].node == a.1;
      assert i != 0;
      assert after[i - 1].node == a.1;
    }
  }

  /** Skipping the head of the queue at the limit. */
  lemma Skipped(arcs: set<Arc>, root: Id, limit: int, queue: seq<Visit>, seen: set<Id>, k: nat, near: nat)
    requires Frontier(arcs, root, limit, queue, seen, k, near) && near > 0 && k == limit
    ensures Frontier(arcs, root, limit, queue[1..], seen, k, near - 1)
  {
  }

  lemma Neighbours(dependents: map<Id, seq<Id>>, arcs: set<Arc>, universe: set<Id>, node: Id)
    requires Adjacency(dependents, arcs) && forall a :: a in arcs ==> a.0 in universe
    ensures (set x | x in Get(dependents, node)) == Dependents(arcs, node) <= universe
  {
    forall d
      ensures d in Get(dependents, node) <==> d in Dependents(arcs, node)
    {
      assert d in Get(dependents, node) <==> (d, node) in arcs;
    }
  }

  /** An empty queue means the search is complete. */
  lemma Complete(arcs: set<Arc>, root: Id, limit: int, seen: set<Id>, k: nat)
    requires Frontier(arcs, root, limit, [], seen, k, 0)
    ensures forall x :: x in seen <==> Within(arcs, root, limit, x)
  {
    forall x | x in seen
      ensures x in Ball(arcs, root, k)
    {
    }
    if k != limit {
      assert Ball(arcs, root, k + 1) == Ball(arcs, root, k);
      if limit >= 0 {
        BallSettles(arcs, root, k, limit);
        BallGrows(arcs, root, k, limit);
      } else {
        forall x, n: nat | x in Ball(arcs, root, n)
          ensures x in seen
        {
          BallSettles(arcs, root, k, n);
        }
      }
    }
  }

  lemma {:induction false} BallGrows(arcs: set<Arc>, root: Id, n: nat, k: nat)
    requires n <= k
    ensures Ball(arcs, root, n) <= Ball(arcs, root, k)
    decreases k
  {
    if n < k {
      BallGrows(arcs, root, n, k - 1);
    }
  }

  lemma AtRoot(arcs: set<Arc>, root: Id, limit: int)
    ensures Frontier(arcs, root, limit, [Visit(root, 0)], {root}, 0, 1)
  {
    assert [Visit(root, 0)][0].node == root;
  }

  /** Queue each dependent not seen before, one step further out. */
  method Enqueue(deps: seq<Id>, d: nat, seen0: set<Id>, queue0: seq<Visit>)
    returns (seen: set<Id>, queue: seq<Visit>, ghost added: seq<Visit>)
    ensures seen == seen0 + set x | x in deps
    ensures queue == queue0 + added && (added == [] ==> seen == seen0)
    ensures forall j :: 0 <= j < |added| ==> added[j].depth == d + 1 && added[j].node in seen
    ensures forall x :: x in seen && x !in seen0 ==> exists j :: 0 <= j < |added| && added[j].node == x
    ensures added != [] ==> seen0 < seen
  {
    seen, queue, added := seen0, queue0, [];
    for i := 0 to |deps|
      invariant seen == seen0 + set x | x in deps[..i]
      invariant queue == queue0 + added && (added == [] ==> seen == seen0)
      invariant forall j :: 0 <= j < |added| ==> added[j].depth == d + 1 && added[j].node in seen
      invariant forall x :: x in seen && x !in seen0 ==> exists j :: 0 <= j < |added| && added[j].node == x
      invariant added != [] ==> seen0 < seen
    {
      assert deps[..i + 1] == deps[..i] + [deps[i]];
      if deps[i] !in seen {
        ghost var before := added;
        seen := seen + {deps[i]};
        queue := queue + [Visit(deps[i], d + 1)];
        added := added + [Visit(deps[i], d + 1)];
        assert added[|before|].node == deps[i];
        assert forall j :: 0 <= j < |before| ==> added[j] == before[j];
      }
    }
    assert deps[..|deps|] == deps;
  }

  ghost function Universe(arcs: set<Arc>, root: Id): (all: set<Id>)
    ensures root in all && forall a :: a in arcs ==> a.0 in all
  {
    {root} + set a | a in arcs :: a.0
  }

  /** Take the head off the queue: it is at the limit, or its dependents queue up. */
  method VisitHead(dependents: map<Id, seq<Id>>, depth: int, queue0: seq<Visit>, seen0: set<Id>, ghost arcs: set<Arc>,
                   ghost root: Id,
                   ghost k: nat, ghost near: nat)
    returns (queue: seq<Visit>, seen: set<Id>)
    requires Adjacency(dependents, arcs) && queue0 != [] && near > 0 && queue0[0].depth == k
    requires Frontier(arcs, root, depth, queue0, seen0, k, near)
    ensures Frontier(arcs, root, depth, queue, seen, k, near - 1) && seen0 <= seen <= seen0 + Universe(arcs, root)
    ensures seen == seen0 ==> |queue| < |queue0|
  {
    var node, d := queue0[0].node, queue0[0].depth;
    if d == depth {
      Skipped(arcs, root, depth, queue0, seen0, k, near);
      return queue0[1..], seen0;
    }
    ghost var added;
    seen, queue, added := Enqueue(Get(dependents, node), d, seen0, queue0[1..]);
    Neighbours(dependents, arcs, Universe(arcs, root), node);
    Visited(arcs, root, depth, queue0, seen0, k, near, added, seen);
  }

  /** Breadth-first search along reversed dependency edges. A negative depth never
      stops a branch, so it asks for everything with any path to the root. */
  method Blast(rows: seq<Stub>, root: Id, depth: int) returns (affected: set<Id>)
    ensures forall x :: x in affected <==> x != root && Within(Arcs(rows), root, depth, x)
  {
    var dependents := Reverse(rows);
    ghost var arcs := Arcs(rows);
    var seen := {root};
    var queue := [Visit(root, 0)];
    ghost var k: nat, near: nat := 0, 1;
    AtRoot(arcs, root, depth);
    while queue != []
      invariant seen <= Universe(arcs, root)
      invariant Frontier(arcs, root, depth, queue, seen, k, near)
      decreases Universe(arcs, root) - seen, |queue|
    {
      k, near := HeadIsNear(arcs, root, depth, queue, seen, k, near);
      queue, seen := VisitHead(dependents, depth, queue, seen, arcs, root, k, near);
      near := near - 1;
    }
    Complete(arcs, root, depth, seen, k);
    affected := seen - {root};
  }

  // ------------------------------------------------------- live equals as-of

  function LiveArcs(g: Graph): set<Arc>
  {
    set e | e in g.edges :: (e.src, e.dst)
  }

  function RowArcs(state: set<Row>): set<Arc>
  {
    set r, rel | r in state && rel in r.rels :: (r.id, rel.target)
  }

  /** The hot store's answer: not-deleted resources within the depth, if the root
      is a node at all. */
  function LiveBlast(g: Graph, root: Id, depth: nat): set<Id>
  {
    set x | x in g.nodes && root in g.nodes && x in Ball(LiveArcs(g), root, depth) && x != root && !g.nodes[x].deleted
  }

  lemma LiveArcIsRowArc(g: Graph, events: seq<Message>, t: int, e: Edge)
    requires Reflects(g, MsgSet(events)) && MsgSet(events) == EventsAt(events, t) && e in g.edges
    ensures (e.src, e.dst) in RowArcs(Replay(events, t))
  {
    var m :| Latest(MsgSet(events), m) && e in EdgesOf(m);
    ReplayIsLatest(events, t, m);
    var rel :| rel in RelsOf(m) && e == Edge(m.id, rel.kind, rel.target);
    assert RowOf(m) in Replay(events, t) && rel in RowOf(m).rels;
  }

  lemma RowArcIsLiveArc(g: Graph, events: seq<Message>, t: int, r: Row, rel: Rel)
    requires Reflects(g, MsgSet(events)) && MsgSet(events) == EventsAt(events, t)
    requires r in Replay(events, t) && rel in r.rels
    ensures (r.id, rel.target) in LiveArcs(g)
  {
    var m := RowLatest(events, t, r);
    assert Edge(m.id, rel.kind, rel.target) in EdgesOf(m);
    assert Edge(m.id, rel.kind, rel.target) in g.edges;
  }

  lemma SameArcs(g: Graph, events: seq<Message>, t: int)
    requires Reflects(g, MsgSet(events)) && MsgSet(events) == EventsAt(events, t)
    ensures LiveArcs(g) == RowArcs(Replay(events, t))
  {
    forall e | e in g.edges
      ensures (e.src, e.dst) in RowArcs(Replay(events, t))
    {
      LiveArcIsRowArc(g, events, t, e);
    }
    forall r, rel | r in Replay(events, t) && rel in r.rels
      ensures (r.id, rel.target) in LiveArcs(g)
    {
      RowArcIsLiveArc(g, events, t, r, rel);
    }
  }

  /** Every resource the search finds, other than the root, is alive: deleted and
      placeholder nodes own no outbound edges. */
  lemma {:induction false} FoundAreAlive(g: Graph, root: Id, k: nat, x: Id)
    requires WellFormed(g) && x in Ball(LiveArcs(g), root, k) && x != root
    ensures Alive(g, x) && root in g.nodes
  {
    if x in Ball(LiveArcs(g), root, k - 1) {
      FoundAreAlive(g, root, k - 1, x);
    } else {
      var e :| e in g.edges && e.src == x && e.dst in Ball(LiveArcs(g), root, k - 1);
      if e.dst != root {
        FoundAreAlive(g, root, k - 1, e.dst);
      }
    }
  }

  /** The live blast radius is the reconstructed one at the newest moment, whatever
      order, duplicates and batching either store saw. */
  lemma LiveIsAsOf(g: Graph, events: seq<Message>, t: int, root: Id, depth: nat)
    requires Reflects(g, MsgSet(events)) && Consistent(MsgSet(events)) && LatestTime(events) == Some(t)
    ensures LiveBlast(g, root, depth) == Ball(RowArcs(Replay(events, t)), root, depth) - {root}
  {
    assert MsgSet(events) == EventsAt(events, t);
    SameArcs(g, events, t);
    forall x | x in Ball(LiveArcs(g), root, depth) && x != root
      ensures x in LiveBlast(g, root, depth)
    {
      FoundAreAlive(g, root, depth, x);
    }
  }
}
