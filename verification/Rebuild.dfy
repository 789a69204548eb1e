/** Disaster recovery: load the reconstructed state into an empty hot store,
    then restore the tombstones, so that every watermark survives. */
module Rebuild {
  import opened Messages
  import opened HotGraph
  import opened Ingest
  import opened ColdStore

  /** One full-statement upsert per alive row, its own sequence preserved. */
  function Synthesize(r: Row, t: int): Message
  {
    Message(r.id, r.sequence, Upsert, r.attrs, r.rels, t)
  }

  function Bury(d: (Id, nat), t: int): Message
  {
    Message(d.0, d.1, Delete, map[], [], t)
  }

  ghost predicate UniqueIds(ms: seq<Message>)
  {
    forall i, j :: 0 <= i < j < |ms| ==> ms[i].id != ms[j].id
  }

  lemma {:induction false} UniqueBest(ms: seq<Message>)
    requires UniqueIds(ms)
    ensures Best(ms).Keys == set m | m in ms :: m.id
    ensures forall m :: m in ms ==> Best(ms)[m.id] == m
    ensures |Best(ms)| == |ms|
  {
    if ms != [] {
      var k := |ms| - 1;
      assert ms == ms[..k] + [ms[k]];
      UniqueBest(ms[..k]);
      assert ms[k].id !in Best(ms[..k]);
    }
  }

  datatype LoadResult = Loaded(nodes: nat, edges: nat) | StoreNotEmpty

  function EdgeCount(ms: seq<Message>): nat
  {
    if ms == [] then 0 else EdgeCount(ms[..|ms| - 1]) + |ms[|ms| - 1].rels|
  }

  /** A delete carries neither attributes nor relationships. */
  predicate Parsable(m: Message)
  {
    m.op.Delete? ==> m.attrs == map[] && m.rels == []
  }

  const BLANK := Node(None, false, None, false, map[])

  /** MERGE one node and add the message's attributes to what is there. */
  function LoadNode(nodes: map<Id, Node>, m: Message): map<Id, Node>
  {
    var n := if m.id in nodes then nodes[m.id] else BLANK;
    nodes[m.id := Node(Some(m.sequence), false, n.deletedSeq, false, n.attrs + m.attrs)]
  }

  function LoadedNodes(ms: seq<Message>): map<Id, Node>
  {
    if ms == [] then map[] else LoadNode(LoadedNodes(ms[..|ms| - 1]), ms[|ms| - 1])
  }

  /** What loading leaves: no watermark check, so of several messages about one
      resource the last gives the sequence, attributes add up and so do edges. */
  function LoadedGraph(ms: seq<Message>): Graph
  {
    var nodes := LoadedNodes(ms);
    Graph(map id | id in nodes.Keys + (set m, t | m in ms && t in TargetsOf(m) :: t) ::
      if id in nodes then nodes[id] else PLACEHOLDER,
          set m, e | m in ms && e in EdgesOf(m) :: e)
  }

  lemma {:induction false} LoadedKeys(ms: seq<Message>)
    ensures forall id :: id in LoadedNodes(ms) <==> exists m :: m in ms && m.id == id
  {
    if ms != [] {
      var k := |ms| - 1;
      LoadedKeys(ms[..k]);
      assert ms == ms[..k] + [ms[k]];
    }
  }

  /** The last message about a resource gives its sequence and overrides attributes. */
  lemma {:induction false} LastLoaded(ms: seq<Message>, i: nat)
    requires i < |ms| && forall j :: i < j < |ms| ==> ms[j].id != ms[i].id
    ensures ms[i].id in LoadedNodes(ms) && LoadedNodes(ms)[ms[i].id].appliedSeq == Some(ms[i].sequence)
    ensures forall key :: key in ms[i].attrs ==>
              key in LoadedNodes(ms)[ms[i].id].attrs && LoadedNodes(ms)[ms[i].id].attrs[key] == ms[i].attrs[key]
  {
    if i < |ms| - 1 {
      LastLoaded(ms[..|ms| - 1], i);
    }
  }

  /** An attribute only an older statement has survives a load, and not an ingest. */
  lemma LoaderMerges(m: Message, n: Message, key: string)
    requires m.id == n.id && m.sequence < n.sequence && n.op.Upsert? && key in m.attrs && key !in n.attrs
    ensures m.id in LoadedGraph([m, n]).nodes && key in LoadedGraph([m, n]).nodes[m.id].attrs
    ensures m.id in BatchStep(EMPTY, [m, n]).nodes && key !in BatchStep(EMPTY, [m, n]).nodes[m.id].attrs
  {
    assert [m, n][..1] == [m] && [m][..0] == [];
    assert LoadedNodes([m])[m.id].attrs == map[] + m.attrs;
    assert Best([m]) == map[m.id := m] && Best([m, n]) == map[m.id := n];
    assert m.id in Winners(EMPTY, [m, n]);
  }

  /** The last message about each resource. */
  function Last(ms: seq<Message>): map<Id, Message>
  {
    if ms == [] then map[] else Last(ms[..|ms| - 1])[ms[|ms| - 1].id := ms[|ms| - 1]]
  }

  lemma {:induction false} LastMeans(ms: seq<Message>)
    ensures Keyed(Last(ms)) && (forall id :: id in Last(ms) ==> Last(ms)[id] in ms)
    ensures forall m :: m in ms ==> m.id in Last(ms)
    ensures Last(ms).Keys == LoadedNodes(ms).Keys
  {
    if ms != [] {
      var k := |ms| - 1;
      assert ms == ms[..k] + [ms[k]];
      LastMeans(ms[..k]);
    }
  }

  /** A loaded node is its last message's, but for attributes only older ones state. */
  lemma {:induction false} LoadedNode(ms: seq<Message>, id: Id)
    requires id in LoadedNodes(ms) && id in Last(ms)
    ensures var n, l := LoadedNodes(ms)[id], Last(ms)[id];
            && n.appliedSeq == Some(l.sequence) && !n.deleted && n.deletedSeq.None? && !n.phantom
            && (forall key :: key in n.attrs <==> exists m :: m in ms && m.id == id && key in m.attrs)
            && forall key :: key in l.attrs ==> key in n.attrs && n.attrs[key] == l.attrs[key]
  {
    var k := |ms| - 1;
    assert ms == ms[..k] + [ms[k]];
    LastMeans(ms[..k]);
    if id in LoadedNodes(ms[..k]) {
      LoadedNode(ms[..k], id);
    } else {
      LoadedKeys(ms[..k]);
    }
  }

  /** Each resource's last message is an upsert of its highest sequence that states
      every attribute and every relationship any of its messages states. */
  ghost predicate LastSaysAll(ms: seq<Message>)
  {
    forall m :: m in ms ==> m.id in Last(ms) && SaysAll(Last(ms)[m.id], m)
  }

  predicate SaysAll(l: Message, m: Message)
  {
    l.op.Upsert? && m.sequence <= l.sequence && m.attrs.Keys <= l.attrs.Keys && EdgesOf(m) <= EdgesOf(l)
  }

  lemma BestOfAll(ms: seq<Message>)
    ensures Winners(EMPTY, ms) == Best(ms) && Keyed(Best(ms)) && Best(ms).Keys == Last(ms).Keys
  {
    BestKeyed(ms);
    LastMeans(ms);
    assert Winners(EMPTY, ms) == Best(ms);
  }

  lemma LastIsBest(ms: seq<Message>, id: Id)
    requires Consistent(MsgSet(ms)) && LastSaysAll(ms) && id in Last(ms)
    ensures id in Best(ms) && Best(ms)[id] == Last(ms)[id]
  {
    BestKeyed(ms);
    LastMeans(ms);
    assert SaysAll(Last(ms)[id], Best(ms)[id]);
  }

  /** The loaded node is what the last message alone would leave. */
  lemma LoadedAlone(ms: seq<Message>, id: Id)
    requires LastSaysAll(ms) && id in Last(ms)
    ensures id in LoadedNodes(ms) && LoadedNodes(ms)[id] == NodeOf(Last(ms)[id])
  {
    LastMeans(ms);
    LoadedNode(ms, id);
    var n, l := LoadedNodes(ms)[id], Last(ms)[id];
    assert SaysAll(l, l);
    forall key | key in n.attrs
      ensures key in l.attrs
    {
      var m :| m in ms && m.id == id && key in m.attrs;
      assert SaysAll(l, m);
    }
    assert n.attrs == l.attrs;
  }

  lemma LastWins(ms: seq<Message>)
    requires Consistent(MsgSet(ms)) && LastSaysAll(ms)
    ensures Winners(EMPTY, ms) == Best(ms) == Last(ms)
    ensures forall id :: id in Last(ms) ==> id in LoadedNodes(ms) && LoadedNodes(ms)[id] == NodeOf(Last(ms)[id])
  {
    var w := Last(ms);
    BestOfAll(ms);
    LastMeans(ms);
    forall id | id in w
      ensures id in Best(ms) && Best(ms)[id] == w[id]
      ensures id in LoadedNodes(ms) && LoadedNodes(ms)[id] == NodeOf(w[id])
    {
      LastIsBest(ms, id);
      LoadedAlone(ms, id);
    }
  }

  lemma LastSaysAllLoads(ms: seq<Message>)
    requires Consistent(MsgSet(ms)) && LastSaysAll(ms)
    ensures LoadedGraph(ms) == BatchStep(EMPTY, ms)
  {
    var w, h := Last(ms), LoadedGraph(ms);
    LastWins(ms);
    LastMeans(ms);
    forall m, e | m in ms && e in EdgesOf(m)
      ensures e in EdgesOf(w[m.id])
    {
      assert SaysAll(w[m.id], m);
    }
    LoadedLinks(ms, w);
    WrittenBy(EMPTY, w, h);
  }

  lemma LoadedLinks(ms: seq<Message>, w: map<Id, Message>)
    requires Keyed(w) && (forall m :: m in ms ==> m.id in w) && forall id :: id in w ==> w[id] in ms
    requires forall m, e :: m in ms && e in EdgesOf(m) ==> e in EdgesOf(w[m.id])
    ensures forall e :: e in LoadedGraph(ms).edges <==> e.src in w && e in EdgesOf(w[e.src])
    ensures forall id :: id in LoadedGraph(ms).nodes && id !in LoadedNodes(ms) ==>
              exists i :: i in w && id in TargetsOf(w[i])
  {
    forall id | id in LoadedGraph(ms).nodes && id !in LoadedNodes(ms)
      ensures exists i :: i in w && id in TargetsOf(w[i])
    {
      var m :| m in ms && id in TargetsOf(m);
      var r :| r in RelsOf(m) && r.target == id;
      var e := Edge(m.id, r.kind, r.target);
      assert e in EdgesOf(m) && e in EdgesOf(w[m.id]);
      assert id in TargetsOf(w[m.id]);
    }
  }

  lemma LoadedSaysAll(ms: seq<Message>, m: Message)
    requires Consistent(MsgSet(ms)) && LoadedGraph(ms) == BatchStep(EMPTY, ms) && m in ms
    ensures m.id in Last(ms) && SaysAll(Last(ms)[m.id], m)
  {
    BestOfAll(ms);
    BestKeyed(ms);
    LastMeans(ms);
    var l, best := Last(ms)[m.id], Best(ms)[m.id];
    LoadedNode(ms, m.id);
    assert LoadedGraph(ms).nodes[m.id] == LoadedNodes(ms)[m.id] == NodeOf(best);
    assert l == best;
    forall e | e in EdgesOf(m)
      ensures e in EdgesOf(l)
    {
      assert e in LoadedGraph(ms).edges;
      WriteEdge(EMPTY, Best(ms), e);
    }
  }

  /** The loader leaves what a batch ingest would if and only if the last message about
      each resource is an upsert of the highest sequence and leaves nothing unsaid. */
  lemma LoadExactly(ms: seq<Message>)
    requires Consistent(MsgSet(ms))
    ensures LoadedGraph(ms) == BatchStep(EMPTY, ms) <==> LastSaysAll(ms)
  {
    if LastSaysAll(ms) {
      LastSaysAllLoads(ms);
    }
    if LoadedGraph(ms) == BatchStep(EMPTY, ms) {
      forall m | m in ms
        ensures m.id in Last(ms) && SaysAll(Last(ms)[m.id], m)
      {
        LoadedSaysAll(ms, m);
      }
    }
  }

  /** With one upsert per resource, a load is one batch apply on an empty store. */
  lemma LoadIsBatch(ms: seq<Message>)
    requires UniqueIds(ms) && forall m :: m in ms ==> m.op.Upsert?
    ensures LoadedGraph(ms) == BatchStep(EMPTY, ms)
  {
    LastMeans(ms);
    forall m, n | m in ms && n in ms && m.id == n.id
      ensures m == n
    {
      var i, j :| 0 <= i < |ms| && 0 <= j < |ms| && ms[i] == m && ms[j] == n;
      assert i == j;
    }
    LoadExactly(ms);
  }

  /** Pass 1: the nodes. */
  method LoadNodes(hot: HotStore, ms: seq<Message>)
    requires hot.Contents() == EMPTY
    modifies hot
    ensures hot.Contents() == Graph(LoadedNodes(ms), {})
  {
    for i := 0 to |ms|
      invariant hot.Contents() == Graph(LoadedNodes(ms[..i]), {})
    {
      var m := ms[i];
      assert ms[..i + 1][..i] == ms[..i];
      var n := if m.id in hot.nodes then hot.nodes[m.id] else BLANK;
      hot.SetNode(m.id, Node(Some(m.sequence), false, n.deletedSeq, false, n.attrs + m.attrs));
    }
    assert ms[..|ms|] == ms;
  }

  /** Pass 2: the stated edges, with a placeholder for each unknown target. */
  method LoadEdges(hot: HotStore, ms: seq<Message>) returns (n: nat)
    requires hot.edges == {} && forall m :: m in ms ==> Parsable(m)
    modifies hot
    ensures n == EdgeCount(ms)
    ensures forall id :: id in hot.nodes <==> id in old(hot.nodes) || exists m :: m in ms && id in TargetsOf(m)
    ensures forall id :: id in hot.nodes ==>
              hot.nodes[id] == if id in old(hot.nodes) then old(hot.nodes)[id] else PLACEHOLDER
    ensures forall e :: e in hot.edges <==> exists m :: m in ms && e in EdgesOf(m)
  {
    n := 0;
    for i := 0 to |ms|
      invariant n == EdgeCount(ms[..i])
      invariant forall id :: id in hot.nodes <==> id in old(hot.nodes) || exists m :: m in ms[..i] && id in TargetsOf(m)
      invariant forall id :: id in hot.nodes ==>
                  hot.nodes[id] == if id in old(hot.nodes) then old(hot.nodes)[id] else PLACEHOLDER
      invariant forall e :: e in hot.edges <==> exists m :: m in ms[..i] && e in EdgesOf(m)
    {
      assert ms[..i + 1] == ms[..i] + [ms[i]];
      assert ms[i] in ms;
      n := n + |ms[i].rels|;
      hot.MergeEdges(ms[i]);
    }
    assert ms[..|ms|] == ms;
  }

  lemma LinkedUp(ms: seq<Message>, g: Graph)
    requires forall id :: id in g.nodes <==> id in LoadedNodes(ms) || exists m :: m in ms && id in TargetsOf(m)
    requires forall id :: id in g.nodes ==>
               g.nodes[id] == if id in LoadedNodes(ms) then LoadedNodes(ms)[id] else PLACEHOLDER
    requires forall e :: e in g.edges <==> exists m :: m in ms && e in EdgesOf(m)
    ensures g == LoadedGraph(ms)
  {
    assert g.nodes == LoadedGraph(ms).nodes;
    assert g.edges == LoadedGraph(ms).edges;
  }

  /** Nodes first, edges second, with no watermark check; refuses a store that
      holds anything. */
  method LoadSnapshot(hot: HotStore, ms: seq<Message>) returns (r: LoadResult)
    requires WellFormed(hot.Contents()) && forall m :: m in ms ==> Parsable(m)
    modifies hot
    ensures r == if old(hot.nodes) != map[] then StoreNotEmpty else Loaded(|ms|, EdgeCount(ms))
    ensures hot.Contents() == if old(hot.nodes) != map[] then old(hot.Contents()) else LoadedGraph(ms)
  {
    if |hot.nodes| != 0 {
      return StoreNotEmpty;
    }
    LoadNodes(hot, ms);
    var n := LoadEdges(hot, ms);
    LinkedUp(ms, hot.Contents());
    r := Loaded(|ms|, n);
  }

  // ----------------------------------------------------- rebuild is ingest

  /** `S` and `T` make the same newest statement about every resource. */
  ghost predicate SaysAllOf(S: set<Message>, T: set<Message>)
  {
    forall m :: Latest(S, m) ==>
      exists n :: Latest(T, n) && n.id == m.id && NodeOf(n) == NodeOf(m) && EdgesOf(n) == EdgesOf(m)
  }

  /** What `m` says is in the graph. */
  predicate Held(g: Graph, m: Message)
  {
    m.id in g.nodes && g.nodes[m.id] == NodeOf(m) && EdgesOf(m) <= g.edges
  }

  lemma StatedIsHeld(g: Graph, S: set<Message>, T: set<Message>)
    requires Reflects(g, S) && SaysAllOf(T, S)
    ensures forall m :: Latest(T, m) ==> Held(g, m)
  {
    forall m | Latest(T, m)
      ensures Held(g, m)
    {
      var n :| Latest(S, n) && n.id == m.id && NodeOf(n) == NodeOf(m) && EdgesOf(n) == EdgesOf(m);
      assert forall e :: e in EdgesOf(n) ==> e in g.edges;
    }
  }

  lemma HeldIsStated(g: Graph, S: set<Message>, T: set<Message>)
    requires Reflects(g, S) && SaysAllOf(S, T)
    ensures WellFormed(g)
    ensures forall id :: Known(g, id) ==> exists m :: m in T && m.id == id
    ensures forall e :: e in g.edges ==> exists m :: Latest(T, m) && e in EdgesOf(m)
  {
    forall id | Known(g, id)
      ensures exists m :: m in T && m.id == id
    {
      var m :| m in S && m.id == id;
      var top := LatestExists(S, m);
      var n :| Latest(T, n) && n.id == top.id;
    }
    forall e | e in g.edges
      ensures exists m :: Latest(T, m) && e in EdgesOf(m)
    {
      var m :| Latest(S, m) && e in EdgesOf(m);
      var n :| Latest(T, n) && n.id == m.id && EdgesOf(n) == EdgesOf(m);
    }
  }

  lemma HeldAndStated(g: Graph, T: set<Message>)
    requires WellFormed(g) && forall m :: Latest(T, m) ==> Held(g, m)
    requires forall id :: Known(g, id) ==> exists m :: m in T && m.id == id
    requires forall e :: e in g.edges ==> exists m :: Latest(T, m) && e in EdgesOf(m)
    ensures Reflects(g, T)
  {
    forall e | exists m :: Latest(T, m) && e in EdgesOf(m)
      ensures e in g.edges
    {
      var m :| Latest(T, m) && e in EdgesOf(m);
      assert Held(g, m);
    }
  }

  lemma ReflectsSame(g: Graph, S: set<Message>, T: set<Message>)
    requires Reflects(g, S) && SaysAllOf(S, T) && SaysAllOf(T, S)
    ensures Reflects(g, T)
  {
    HeldIsStated(g, S, T);
    StatedIsHeld(g, S, T);
    HeldAndStated(g, T);
  }

  /** The two message lists a rebuild at `t` feeds in. */
  ghost predicate RebuildInput(events: seq<Message>, t: int, ups: seq<Message>, dels: seq<Message>)
  {
    && UniqueIds(ups) && UniqueIds(dels)
    && (forall m :: m in ups <==> exists r :: r in Replay(events, t) && m == Synthesize(r, t))
    && (forall m :: m in dels <==> exists d :: d in TombstonesAt(events, t) && m == Bury(d, t))
  }

  lemma InputLatest(events: seq<Message>, t: int, ups: seq<Message>, dels: seq<Message>, m: Message)
    returns (o: Message)
    requires RebuildInput(events, t, ups, dels) && m in ups + dels
    ensures Latest(EventsAt(events, t), o) && o.id == m.id && o.sequence == m.sequence && o.op == m.op
    ensures NodeOf(o) == NodeOf(m) && EdgesOf(o) == EdgesOf(m)
  {
    if m in ups {
      var r :| r in Replay(events, t) && m == Synthesize(r, t);
      o := RowLatest(events, t, r);
    } else {
      var d :| d in TombstonesAt(events, t) && m == Bury(d, t);
      o := TombstoneLatest(events, t, d);
    }
  }

  lemma InputSays(events: seq<Message>, t: int, ups: seq<Message>, dels: seq<Message>)
    requires Consistent(EventsAt(events, t)) && RebuildInput(events, t, ups, dels)
    ensures Consistent(MsgSet(ups + dels))
    ensures SaysAllOf(MsgSet(ups + dels), EventsAt(events, t))
    ensures SaysAllOf(EventsAt(events, t), MsgSet(ups + dels))
  {
    var S, T := EventsAt(events, t), MsgSet(ups + dels);
    forall a, b | a in T && b in T && a.id == b.id
      ensures a == b
    {
      var x := InputLatest(events, t, ups, dels, a);
      var y := InputLatest(events, t, ups, dels, b);
      assert x == y;
    }
    forall m | Latest(T, m)
      ensures exists n :: Latest(S, n) && n.id == m.id && NodeOf(n) == NodeOf(m) && EdgesOf(n) == EdgesOf(m)
    {
      var o := InputLatest(events, t, ups, dels, m);
    }
    forall m | Latest(S, m)
      ensures exists n :: Latest(T, n) && n.id == m.id && NodeOf(n) == NodeOf(m) && EdgesOf(n) == EdgesOf(m)
    {
      ReplayIsLatest(events, t, m);
      var n := if m.op.Upsert? then Synthesize(RowOf(m), t) else Bury((m.id, m.sequence), t);
      assert n in (if m.op.Upsert? then ups else dels);
      assert Latest(T, n);
    }
  }

  function Rebuilt(ups: seq<Message>, dels: seq<Message>): Graph
  {
    BatchStep(BatchStep(EMPTY, ups), dels)
  }

  /** A rebuild at `t` is what ingesting every event up to `t` would have left. */
  lemma RebuildIsIngest(events: seq<Message>, t: int, ups: seq<Message>, dels: seq<Message>)
    requires Consistent(EventsAt(events, t)) && RebuildInput(events, t, ups, dels)
    ensures Reflects(Rebuilt(ups, dels), EventsAt(events, t))
  {
    InputSays(events, t, ups, dels);
    EmptyReflects();
    assert {} + MsgSet(ups) == MsgSet(ups);
    assert MsgSet(ups) + MsgSet(dels) == MsgSet(ups + dels);
    BatchReflects(EMPTY, {}, ups);
    BatchReflects(BatchStep(EMPTY, ups), MsgSet(ups), dels);
    ReflectsSame(Rebuilt(ups, dels), MsgSet(ups + dels), EventsAt(events, t));
  }

  /** After a rebuild, any redelivery whatsoever ends where a store that was
      never lost ends: old upserts do not resurrect the dead. */
  lemma RebuildThenResume(events: seq<Message>, t: int, ups: seq<Message>, dels: seq<Message>, txs: seq<Tx>,
                          never: seq<Tx>)
    requires RebuildInput(events, t, ups, dels)
    requires RunMsgs(never) == EventsAt(events, t) + RunMsgs(txs) && Consistent(RunMsgs(never))
    ensures SameView(Run(Rebuilt(ups, dels), txs), Run(EMPTY, never))
  {
    RebuildIsIngest(events, t, ups, dels);
    RunReflects(Rebuilt(ups, dels), EventsAt(events, t), txs);
    EmptyReflects();
    assert {} + RunMsgs(never) == RunMsgs(never);
    RunReflects(EMPTY, {}, never);
    SameReflection(Run(Rebuilt(ups, dels), txs), Run(EMPTY, never), RunMsgs(never));
  }

  // ------------------------------------------------------------ the procedure

  datatype RebuildResult =
    | Done(nodes: nat, edges: nat, tombstones: nat, asOf: int, maxSequence: int)
    | NothingToRebuild
    | Refused

  /** Enumerate a query result as messages, one per row. */
  method SynthesizeUpserts(state: set<Row>, t: int) returns (ups: seq<Message>)
    requires forall r, q :: r in state && q in state && r.id == q.id ==> r == q
    ensures forall m :: m in ups <==> exists r :: r in state && m == Synthesize(r, t)
    ensures UniqueIds(ups) && |ups| == |state|
  {
    ups := [];
    var todo := state;
    while todo != {}
      invariant todo <= state
      invariant forall m :: m in ups <==> exists r :: r in state - todo && m == Synthesize(r, t)
      invariant UniqueIds(ups) && |ups| + |todo| == |state|
      decreases todo
    {
      var r :| r in todo;
      forall i | 0 <= i < |ups|
        ensures ups[i].id != r.id
      {
        assert ups[i] in ups;
      }
      ups, todo := ups + [Synthesize(r, t)], todo - {r};
    }
  }

  method SynthesizeDeletes(dead: set<(Id, nat)>, t: int) returns (dels: seq<Message>)
    requires forall d, e :: d in dead && e in dead && d.0 == e.0 ==> d == e
    ensures forall m :: m in dels <==> exists d :: d in dead && m == Bury(d, t)
    ensures UniqueIds(dels) && |dels| == |dead|
  {
    dels := [];
    var todo := dead;
    while todo != {}
      invariant todo <= dead
      invariant forall m :: m in dels <==> exists d :: d in dead - todo && m == Bury(d, t)
      invariant UniqueIds(dels) && |dels| + |todo| == |dead|
      decreases todo
    {
      var d :| d in todo;
      forall i | 0 <= i < |dels|
        ensures dels[i].id != d.0
      {
        assert dels[i] in dels;
      }
      dels, todo := dels + [Bury(d, t)], todo - {d};
    }
  }

  method MaxSequence(ms: seq<Message>, floor: int) returns (top: int)
    ensures top >= floor && forall m :: m in ms ==> m.sequence <= top
    ensures top == floor || exists m :: m in ms && m.sequence == top
  {
    top := floor;
    for i := 0 to |ms|
      invariant top >= floor && forall m :: m in ms[..i] ==> m.sequence <= top
      invariant top == floor || exists m :: m in ms[..i] && m.sequence == top
    {
      assert ms[..i + 1] == ms[..i] + [ms[i]];
      if ms[i].sequence > top {
        top := ms[i].sequence;
      }
    }
    assert ms[..|ms|] == ms;
  }

  lemma UniqueTombstones(events: seq<Message>, t: int)
    requires Consistent(EventsAt(events, t))
    ensures forall d, e :: d in TombstonesAt(events, t) && e in TombstonesAt(events, t) && d.0 == e.0 ==> d == e
    ensures forall r, q :: r in Replay(events, t) && q in Replay(events, t) && r.id == q.id ==> r == q
  {
    forall d, e | d in TombstonesAt(events, t) && e in TombstonesAt(events, t) && d.0 == e.0
      ensures d == e
    {
      var x := TombstoneLatest(events, t, d);
      var y := TombstoneLatest(events, t, e);
    }
    forall r, q | r in Replay(events, t) && q in Replay(events, t) && r.id == q.id
      ensures r == q
    {
      var m := RowLatest(events, t, r);
      AliveOrBuried(events, t, m);
    }
  }

  /** The greatest rebuilt sequence is the greatest event sequence at `t`. */
  lemma TopIsCovered(events: seq<Message>, t: int, ups: seq<Message>, dels: seq<Message>, top: int)
    requires RebuildInput(events, t, ups, dels)
    requires top >= -1 && forall m :: m in ups + dels ==> m.sequence <= top
    requires top == -1 || exists m :: m in ups + dels && m.sequence == top
    ensures top == TopSequence(events, t)
  {
    if top >= 0 {
      var m :| m in ups + dels && m.sequence == top;
      var o := InputLatest(events, t, ups, dels, m);
    }
    if TopSequence(events, t) >= 0 {
      var m :| m in events && m.time <= t && m.sequence == TopSequence(events, t);
      var o := LatestExists(EventsAt(events, t), m);
      ReplayIsLatest(events, t, o);
      var n := if o.op.Upsert? then Synthesize(RowOf(o), t) else Bury((o.id, o.sequence), t);
      assert n in (if o.op.Upsert? then ups else dels);
      assert n in ups + dels;
    }
  }

  lemma NoClash(events: seq<Message>, t: int, ups: seq<Message>, dels: seq<Message>, u: Message, d: Message)
    requires Consistent(EventsAt(events, t)) && RebuildInput(events, t, ups, dels)
    requires u in ups && d in dels
    ensures u.id != d.id
  {
    var x := InputLatest(events, t, ups, dels, u);
    var y := InputLatest(events, t, ups, dels, d);
    assert u.op.Upsert? && d.op.Delete?;
    assert x != y;
  }

  lemma TombstoneApplies(events: seq<Message>, t: int, ups: seq<Message>, dels: seq<Message>, d: Message)
    requires Consistent(EventsAt(events, t)) && RebuildInput(events, t, ups, dels) && d in dels
    ensures d.sequence > Watermark(BatchStep(EMPTY, ups), d.id)
  {
    UniqueBest(ups);
    forall u | u in ups
      ensures u.id != d.id
    {
      NoClash(events, t, ups, dels, u, d);
    }
    WrittenWatermark(EMPTY, ups, d.id);
  }

  /** No tombstone is refused by the watermark of the freshly loaded state. */
  lemma TombstonesAllApply(events: seq<Message>, t: int, ups: seq<Message>, dels: seq<Message>)
    requires Consistent(EventsAt(events, t)) && RebuildInput(events, t, ups, dels)
    ensures |Winners(BatchStep(EMPTY, ups), dels)| == |dels|
  {
    UniqueBest(dels);
    BestKeyed(dels);
    forall id | id in Best(dels)
      ensures Best(dels)[id].sequence > Watermark(BatchStep(EMPTY, ups), id)
    {
      TombstoneApplies(events, t, ups, dels, Best(dels)[id]);
    }
    assert Winners(BatchStep(EMPTY, ups), dels) == Best(dels);
  }

  method RebuildAt(hot: HotStore, cold: ColdTables, at: Option<int>) returns (r: RebuildResult)
    requires WellFormed(hot.Contents()) && Faithful(cold.events, cold.snapshots)
    requires Consistent(MsgSet(cold.events))
    modifies hot
    ensures r.NothingToRebuild? <==> at.None? && cold.events == []
    ensures !r.Done? ==> hot.Contents() == old(hot.Contents())
    ensures !r.NothingToRebuild? ==> (r.Refused? <==> old(hot.nodes) != map[])
    ensures r.Done? ==> r.asOf == if at.Some? then at.value else LatestTime(cold.events).value
    ensures r.Done? ==> Reflects(hot.Contents(), EventsAt(cold.events, r.asOf))
    ensures r.Done? ==> r.nodes == |Replay(cold.events, r.asOf)| && r.tombstones == |TombstonesAt(cold.events, r.asOf)|
    ensures r.Done? ==> r.maxSequence == TopSequence(cold.events, r.asOf)
  {
    var t := at;
    if t.None? {
      t := LatestTime(cold.events);
      if t.None? {
        return NothingToRebuild;
      }
    }
    r := RebuildFrom(hot, cold.events, cold.snapshots, t.value);
  }

  method RebuildFrom(hot: HotStore, events: seq<Message>, snaps: seq<SnapRow>, t: int) returns (r: RebuildResult)
    requires WellFormed(hot.Contents()) && Faithful(events, snaps) && Consistent(EventsAt(events, t))
    modifies hot
    ensures !r.NothingToRebuild? && (r.Refused? <==> old(hot.nodes) != map[])
    ensures r.Refused? ==> hot.Contents() == old(hot.Contents())
    ensures r.Done? ==> r.asOf == t && Reflects(hot.Contents(), EventsAt(events, t))
    ensures r.Done? ==> r.nodes == |Replay(events, t)| && r.tombstones == |TombstonesAt(events, t)|
    ensures r.Done? ==> r.maxSequence == TopSequence(events, t)
  {
    SnapshotIsReplay(events, snaps, t);
    UniqueTombstones(events, t);
    var ups := SynthesizeUpserts(StateAt(events, snaps, t), t);
    LoadIsBatch(ups);
    var loaded := LoadSnapshot(hot, ups);
    if loaded.StoreNotEmpty? {
      return Refused;
    }
    var dels := SynthesizeDeletes(TombstonesAt(events, t), t);
    assert RebuildInput(events, t, ups, dels);
    TombstonesAllApply(events, t, ups, dels);
    RebuildIsIngest(events, t, ups, dels);
    var applied, _ := hot.ApplyBatch(dels);
    var top := MaxSequence(ups, -1);
    top := MaxSequence(dels, top);
    TopIsCovered(events, t, ups, dels, top);
    r := Done(loaded.nodes, loaded.edges, applied, t, top);
  }
}
