/** The hot store: one graph of nodes and typed edges, written by a
    watermark-guarded apply that arrives message by message or in batches.

    `Step` and `BatchStep` state the effect of one transaction as a function of
    the graph; class `HotStore` performs the transactions statement by
    statement and is proved to compute exactly those functions. */
module HotGraph {
  import opened Messages

  /** `appliedSeq` is absent exactly on a placeholder no message has described yet. */
  datatype Node = Node(appliedSeq: Option<nat>, deleted: bool, deletedSeq: Option<nat>, phantom: bool, attrs: Attrs)

  datatype Edge = Edge(src: Id, kind: RelKind, dst: Id)

  datatype Graph = Graph(nodes: map<Id, Node>, edges: set<Edge>)

  const EMPTY := Graph(map[], {})

  const PLACEHOLDER := Node(None, false, None, true, map[])

  function Watermark(g: Graph, id: Id): int
  {
    if id in g.nodes && g.nodes[id].appliedSeq.Some? then g.nodes[id].appliedSeq.value else -1
  }

  function NodeOf(m: Message): Node
  {
    match m.op
    case Upsert => Node(Some(m.sequence), false, None, false, m.attrs)
    case Delete => Node(Some(m.sequence), true, Some(m.sequence), false, map[])
  }

  /** The relationships an applied message states; a tombstone states none. */
  function RelsOf(m: Message): seq<Rel>
  {
    if m.op.Upsert? then m.rels else []
  }

  function EdgesOf(m: Message): set<Edge>
  {
    set r | r in RelsOf(m) :: Edge(m.id, r.kind, r.target)
  }

  function TargetsOf(m: Message): set<Id>
  {
    set r | r in RelsOf(m) :: r.target
  }

  /** The effect of applying, in one transaction, one message per resource. */
  function Write(g: Graph, w: map<Id, Message>): Graph
  {
    Graph(
      map id | id in g.nodes.Keys + w.Keys + (set i, t | i in w && t in TargetsOf(w[i]) :: t) ::
        if id in w then NodeOf(w[id]) else if id in g.nodes then g.nodes[id] else PLACEHOLDER,
      (set e | e in g.edges && e.src !in w) + (set i, e | i in w && e in EdgesOf(w[i]) :: e))
  }

  predicate Fresh(g: Graph, m: Message)
  {
    m.sequence > Watermark(g, m.id)
  }

  /** One message through the single-message path. */
  function Step(g: Graph, m: Message): Graph
  {
    if Fresh(g, m) then Write(g, map[m.id := m]) else g
  }

  function Fold(g: Graph, ms: seq<Message>): Graph
  {
    if ms == [] then g else Step(Fold(g, ms[..|ms| - 1]), ms[|ms| - 1])
  }

  /** How many messages of `ms` the single-message path applies. */
  function FoldApplied(g: Graph, ms: seq<Message>): nat
  {
    if ms == [] then 0
    else FoldApplied(g, ms[..|ms| - 1]) + if Fresh(Fold(g, ms[..|ms| - 1]), ms[|ms| - 1]) then 1 else 0
  }

  /** Per resource, the first of the highest-sequence messages. */
  function Best(ms: seq<Message>): map<Id, Message>
  {
    if ms == [] then map[]
    else
      var b := Best(ms[..|ms| - 1]);
      var m := ms[|ms| - 1];
      if m.id in b && m.sequence <= b[m.id].sequence then b else b[m.id := m]
  }

  function Winners(g: Graph, ms: seq<Message>): map<Id, Message>
  {
    var b := Best(ms);
    map id | id in b && b[id].sequence > Watermark(g, id) :: b[id]
  }

  /** The whole of `ms` through the batch path. */
  function BatchStep(g: Graph, ms: seq<Message>): Graph
  {
    Write(g, Winners(g, ms))
  }

  // ---------------------------------------------------------------- invariant

  /** What every transaction keeps. In particular placeholders and tombstones
      never own an outbound edge, and no edge dangles. */
  ghost predicate WellFormed(g: Graph)
  {
    && (forall id :: id in g.nodes ==>
          && (g.nodes[id].phantom <==> g.nodes[id].appliedSeq.None?)
          && (g.nodes[id].phantom ==> g.nodes[id] == PLACEHOLDER)
          && (g.nodes[id].deleted ==> g.nodes[id].attrs == map[] && g.nodes[id].deletedSeq == g.nodes[id].appliedSeq)
          && (!g.nodes[id].deleted ==> g.nodes[id].deletedSeq.None?))
    && (forall e :: e in g.edges ==> Alive(g, e.src) && e.dst in g.nodes)
  }

  predicate Alive(g: Graph, id: Id)
  {
    id in g.nodes && !g.nodes[id].phantom && !g.nodes[id].deleted
  }

  predicate Known(g: Graph, id: Id)
  {
    id in g.nodes && !g.nodes[id].phantom
  }

  ghost predicate Keyed(w: map<Id, Message>)
  {
    forall id :: id in w ==> w[id].id == id
  }

  /** Equal but for stray placeholders. */
  ghost predicate SameView(g: Graph, h: Graph)
  {
    && (forall id :: Known(g, id) <==> Known(h, id))
    && (forall id :: Known(g, id) ==> g.nodes[id] == h.nodes[id])
    && g.edges == h.edges
  }

  /** A write replaces the outbound edges of what it writes and no others. */
  lemma WriteEdge(g: Graph, w: map<Id, Message>, e: Edge)
    requires Keyed(w)
    ensures e in Write(g, w).edges <==> if e.src in w then e in EdgesOf(w[e.src]) else e in g.edges
  {
    if e.src in w && e in EdgesOf(w[e.src]) {
      assert e in (set i, x | i in w && x in EdgesOf(w[i]) :: x);
    }
  }

  lemma WriteWellFormed(g: Graph, w: map<Id, Message>)
    requires WellFormed(g) && Keyed(w)
    ensures WellFormed(Write(g, w))
  {
    var h := Write(g, w);
    forall e | e in h.edges
      ensures Alive(h, e.src) && e.dst in h.nodes
    {
      WriteEdge(g, w, e);
      if e.src in w {
        assert e.dst in TargetsOf(w[e.src]);
      }
    }
  }

  lemma BestKeyed(ms: seq<Message>)
    ensures Keyed(Best(ms))
    ensures forall id :: id in Best(ms) ==> Best(ms)[id] in ms
    ensures forall m :: m in ms ==> m.id in Best(ms) && m.sequence <= Best(ms)[m.id].sequence
  {
    if ms != [] {
      var k := |ms| - 1;
      BestKeyed(ms[..k]);
      assert ms == ms[..k] + [ms[k]];
    }
  }

  lemma {:induction false} FoldWellFormed(g: Graph, ms: seq<Message>)
    requires WellFormed(g)
    ensures WellFormed(Fold(g, ms))
  {
    if ms != [] {
      var k := |ms| - 1;
      FoldWellFormed(g, ms[..k]);
      WriteWellFormed(Fold(g, ms[..k]), map[ms[k].id := ms[k]]);
    }
  }

  // ------------------------------------------------------- batch equals fold

  lemma SameWatermark(g: Graph, h: Graph, id: Id)
    requires WellFormed(g) && WellFormed(h) && SameView(g, h)
    ensures Watermark(g, id) == Watermark(h, id)
  {
    assert Known(g, id) <==> Known(h, id);
  }

  /** The watermark of `id` once the batch is written. */
  function Level(g: Graph, ms: seq<Message>, id: Id): int
  {
    if id in Winners(g, ms) then Winners(g, ms)[id].sequence else Watermark(g, id)
  }

  lemma WrittenWatermark(g: Graph, ms: seq<Message>, id: Id)
    ensures Watermark(BatchStep(g, ms), id) == Level(g, ms, id)
  {
  }

  lemma WinnersExtend(g: Graph, ms: seq<Message>, m: Message)
    ensures Winners(g, ms + [m]) ==
            if m.sequence > Level(g, ms, m.id) then Winners(g, ms)[m.id := m] else Winners(g, ms)
  {
    assert (ms + [m])[..|ms|] == ms;
  }

  lemma WriteOverNode(g: Graph, f: Graph, w: map<Id, Message>, m: Message, id: Id)
    requires SameView(f, Write(g, w))
    ensures Known(Write(f, map[m.id := m]), id) <==> Known(Write(g, w[m.id := m]), id)
    ensures Known(Write(f, map[m.id := m]), id) ==>
              Write(f, map[m.id := m]).nodes[id] == Write(g, w[m.id := m]).nodes[id]
  {
    assert Known(f, id) <==> Known(Write(g, w), id);
  }

  lemma WriteOverKeys(g: Graph, f: Graph, w: map<Id, Message>, m: Message, id: Id)
    requires Write(g, w).nodes.Keys <= f.nodes.Keys
    requires id in Write(g, w[m.id := m]).nodes
    ensures id in Write(f, map[m.id := m]).nodes
  {
    if id !in g.nodes && id !in w[m.id := m] {
      var i :| i in w[m.id := m] && id in TargetsOf(w[m.id := m][i]);
      if i != m.id {
        assert i in w && id in TargetsOf(w[i]);
        assert id in Write(g, w).nodes;
      } else {
        assert m.id in map[m.id := m] && id in TargetsOf(map[m.id := m][m.id]);
      }
    } else {
      assert id != m.id ==> id in Write(g, w).nodes;
    }
  }

  lemma WriteOverEdge(g: Graph, f: Graph, w: map<Id, Message>, m: Message, e: Edge)
    requires Keyed(w) && f.edges == Write(g, w).edges
    ensures e in Write(f, map[m.id := m]).edges <==> e in Write(g, w[m.id := m]).edges
  {
    WriteEdge(f, map[m.id := m], e);
    WriteEdge(g, w, e);
    WriteEdge(g, w[m.id := m], e);
  }

  /** Writing one more message on top of a write is one write that also holds it. */
  lemma WriteOver(g: Graph, f: Graph, w: map<Id, Message>, m: Message, f': Graph, b': Graph)
    requires Keyed(w) && SameView(f, Write(g, w)) && Write(g, w).nodes.Keys <= f.nodes.Keys
    requires f' == Write(f, map[m.id := m]) && b' == Write(g, w[m.id := m])
    ensures SameView(f', b') && b'.nodes.Keys <= f'.nodes.Keys
  {
    forall id
      ensures Known(f', id) <==> Known(b', id)
      ensures Known(f', id) ==> f'.nodes[id] == b'.nodes[id]
      ensures id in b'.nodes ==> id in f'.nodes
    {
      WriteOverNode(g, f, w, m, id);
      if id in b'.nodes { WriteOverKeys(g, f, w, m, id); }
    }
    forall e
      ensures e in f'.edges <==> e in b'.edges
    {
      WriteOverEdge(g, f, w, m, e);
    }
  }

  /** Batch apply is the message-by-message apply, whatever order, duplicates
      and ties the batch holds; it may only leave out placeholders for targets
      that a superseded upsert named, and reports no more applications. */
  lemma {:induction false} BatchIsFold(g: Graph, ms: seq<Message>)
    requires WellFormed(g)
    ensures SameView(Fold(g, ms), BatchStep(g, ms))
    ensures BatchStep(g, ms).nodes.Keys <= Fold(g, ms).nodes.Keys
    ensures |Winners(g, ms)| <= FoldApplied(g, ms)
  {
    if ms == [] {
      assert Winners(g, ms) == map[];
    } else {
      var k := |ms| - 1;
      var init, m := ms[..k], ms[k];
      assert ms == init + [m];
      BatchIsFold(g, init);
      BestKeyed(init);
      FoldWellFormed(g, init);
      WriteWellFormed(g, Winners(g, init));
      SameWatermark(Fold(g, init), BatchStep(g, init), m.id);
      WrittenWatermark(g, init, m.id);
      WinnersExtend(g, init, m);
      if Fresh(Fold(g, init), m) {
        WriteOver(g, Fold(g, init), Winners(g, init), m, Fold(g, ms), BatchStep(g, ms));
      }
    }
  }

  // ------------------------------------------------------------- convergence

  /** `g` is what the newest message of each resource in `S` states, and no more
      than placeholders besides. */
  ghost predicate Reflects(g: Graph, S: set<Message>)
  {
    && WellFormed(g)
    && (forall m :: Latest(S, m) ==> m.id in g.nodes && g.nodes[m.id] == NodeOf(m))
    && (forall id :: Known(g, id) ==> exists m :: m in S && m.id == id)
    && (forall e :: e in g.edges <==> exists m :: Latest(S, m) && e in EdgesOf(m))
  }

  lemma EmptyReflects()
    ensures Reflects(EMPTY, {})
  {
  }

  lemma SameReflection(g: Graph, h: Graph, S: set<Message>)
    requires Reflects(g, S) && Reflects(h, S)
    ensures SameView(g, h)
  {
    forall id | Known(g, id) || Known(h, id)
      ensures Known(g, id) && Known(h, id) && g.nodes[id] == h.nodes[id]
    {
      var m :| m in S && m.id == id;
      var top := LatestExists(S, m);
    }
    assert forall e :: e in g.edges <==> e in h.edges;
  }

  ghost predicate NoOlder(T: set<Message>, m: Message)
  {
    exists n :: n in T && n.id == m.id && n.sequence >= m.sequence
  }

  /** `T` has about each resource a statement no older than any in `S`. */
  ghost predicate Covers(S: set<Message>, T: set<Message>)
  {
    forall m :: m in S ==> NoOlder(T, m)
  }

  lemma CoverKeepsLatest(S: set<Message>, T: set<Message>, m: Message)
    requires T <= S && Covers(S, T) && Latest(T, m)
    ensures Latest(S, m)
  {
    forall x | x in S && x.id == m.id
      ensures x.sequence <= m.sequence
    {
      assert NoOlder(T, x);
    }
  }

  lemma LatestIsKept(S: set<Message>, T: set<Message>, m: Message)
    requires T <= S && Consistent(S) && Covers(S, T) && Latest(S, m)
    ensures Latest(T, m)
  {
    assert NoOlder(T, m);
    var n :| n in T && n.id == m.id && n.sequence >= m.sequence;
    assert n == m;
  }

  lemma ShownIsCovered(g: Graph, h: Graph, S: set<Message>, T: set<Message>, m: Message)
    requires Reflects(g, S) && Reflects(h, T) && SameView(g, h) && m in S
    ensures NoOlder(T, m)
  {
    var top := LatestExists(S, m);
    assert Known(g, m.id) && Known(h, m.id);
    var n :| n in T && n.id == m.id;
    var newest := LatestExists(T, n);
    assert NodeOf(newest) == NodeOf(top);
  }

  lemma CoveredDoesNotShow(g: Graph, S: set<Message>, T: set<Message>)
    requires Reflects(g, S) && T <= S && Consistent(S) && Covers(S, T)
    ensures Reflects(g, T)
  {
    forall m
      ensures Latest(S, m) <==> Latest(T, m)
    {
      if Latest(T, m) {
        CoverKeepsLatest(S, T, m);
      } else if Latest(S, m) {
        LatestIsKept(S, T, m);
      }
    }
    forall id | Known(g, id)
      ensures exists m :: m in T && m.id == id
    {
      var m :| m in S && m.id == id;
      assert NoOlder(T, m);
    }
  }

  /** Statements that `T` leaves out of `S` do not show if and only if `T` covers `S`. */
  lemma SameViewExactly(g: Graph, h: Graph, S: set<Message>, T: set<Message>)
    requires Reflects(g, S) && Reflects(h, T) && T <= S && Consistent(S)
    ensures SameView(g, h) <==> Covers(S, T)
  {
    if Covers(S, T) {
      CoveredDoesNotShow(g, S, T);
      SameReflection(g, h, T);
    }
    if SameView(g, h) {
      forall m | m in S
        ensures NoOlder(T, m)
      {
        ShownIsCovered(g, h, S, T, m);
      }
    }
  }

  lemma ReflectsView(g: Graph, h: Graph, S: set<Message>)
    requires Reflects(g, S) && SameView(g, h) && WellFormed(h)
    ensures Reflects(h, S)
  {
    forall m | Latest(S, m)
      ensures m.id in h.nodes && h.nodes[m.id] == NodeOf(m)
    {
      assert Known(g, m.id);
    }
  }

  /** Which statements are newest once `m` joins them. */
  lemma LatestExtend(g: Graph, S: set<Message>, m: Message)
    requires Reflects(g, S) && Consistent(S + {m})
    ensures forall y :: Latest(S + {m}, y) <==>
                          if Fresh(g, m) then y == m || (y.id != m.id && Latest(S, y)) else Latest(S, y)
  {
    if x :| x in S && x.id == m.id {
      var top := LatestExists(S, x);
      assert Watermark(g, m.id) == top.sequence;
      assert m.sequence == top.sequence ==> m == top;
    } else {
      assert !Known(g, m.id);
    }
  }

  lemma StepReflects(g: Graph, S: set<Message>, m: Message)
    requires Reflects(g, S) && Consistent(S + {m})
    ensures Reflects(Step(g, m), S + {m})
  {
    LatestExtend(g, S, m);
    if Fresh(g, m) {
      var w, h := map[m.id := m], Step(g, m);
      WriteWellFormed(g, w);
      forall id | Known(h, id)
        ensures exists y :: y in S + {m} && y.id == id
      {
        if id == m.id {
          assert m in S + {m};
        } else {
          assert Known(g, id);
        }
      }
      forall e
        ensures e in h.edges <==> exists y :: Latest(S + {m}, y) && e in EdgesOf(y)
      {
        WriteEdge(g, w, e);
        StepEdge(g, S, m, e);
      }
    }
  }

  lemma StepEdge(g: Graph, S: set<Message>, m: Message, e: Edge)
    requires Reflects(g, S) && Fresh(g, m)
    requires forall y :: Latest(S + {m}, y) <==> y == m || (y.id != m.id && Latest(S, y))
    ensures (if e.src == m.id then e in EdgesOf(m) else e in g.edges)
            <==> exists y :: Latest(S + {m}, y) && e in EdgesOf(y)
  {
    assert Latest(S + {m}, m);
  }

  lemma {:induction false} FoldReflects(g: Graph, S: set<Message>, ms: seq<Message>)
    requires Reflects(g, S) && Consistent(S + MsgSet(ms))
    ensures Reflects(Fold(g, ms), S + MsgSet(ms))
  {
    if ms == [] {
      assert S + MsgSet(ms) == S;
    } else {
      var k := |ms| - 1;
      assert ms == ms[..k] + [ms[k]];
      assert S + MsgSet(ms) == (S + MsgSet(ms[..k])) + {ms[k]};
      FoldReflects(g, S, ms[..k]);
      StepReflects(Fold(g, ms[..k]), S + MsgSet(ms[..k]), ms[k]);
    }
  }

  lemma BatchReflects(g: Graph, S: set<Message>, ms: seq<Message>)
    requires Reflects(g, S) && Consistent(S + MsgSet(ms))
    ensures Reflects(BatchStep(g, ms), S + MsgSet(ms))
  {
    FoldReflects(g, S, ms);
    BatchIsFold(g, ms);
    BestKeyed(ms);
    WriteWellFormed(g, Winners(g, ms));
    ReflectsView(Fold(g, ms), BatchStep(g, ms), S + MsgSet(ms));
  }

  /** One transaction of the ingest: a single message or a whole batch. */
  datatype Tx = One(m: Message) | Many(ms: seq<Message>)

  function TxMsgs(t: Tx): set<Message>
  {
    match t case One(m) => {m} case Many(ms) => MsgSet(ms)
  }

  function RunMsgs(txs: seq<Tx>): set<Message>
  {
    if txs == [] then {} else RunMsgs(txs[..|txs| - 1]) + TxMsgs(txs[|txs| - 1])
  }

  function Run(g: Graph, txs: seq<Tx>): Graph
  {
    if txs == [] then g
    else
      var h := Run(g, txs[..|txs| - 1]);
      match txs[|txs| - 1] case One(m) => Step(h, m) case Many(ms) => BatchStep(h, ms)
  }

  lemma {:induction false} RunReflects(g: Graph, S: set<Message>, txs: seq<Tx>)
    requires Reflects(g, S) && Consistent(S + RunMsgs(txs))
    ensures Reflects(Run(g, txs), S + RunMsgs(txs))
  {
    if txs == [] {
      assert S + RunMsgs(txs) == S;
    } else {
      var k := |txs| - 1;
      var T := S + RunMsgs(txs[..k]);
      assert S + RunMsgs(txs) == T + TxMsgs(txs[k]);
      RunReflects(g, S, txs[..k]);
      match txs[k]
      case One(m) => StepReflects(Run(g, txs[..k]), T, m);
      case Many(ms) => BatchReflects(Run(g, txs[..k]), T, ms);
    }
  }

  /** Convergence: any order, any duplication and any split into single and
      batch applies of one message set leave the same graph. */
  lemma Convergence(txs: seq<Tx>, others: seq<Tx>)
    requires RunMsgs(txs) == RunMsgs(others) && Consistent(RunMsgs(txs))
    ensures SameView(Run(EMPTY, txs), Run(EMPTY, others))
    ensures Reflects(Run(EMPTY, txs), RunMsgs(txs))
  {
    EmptyReflects();
    assert {} + RunMsgs(txs) == RunMsgs(txs);
    RunReflects(EMPTY, {}, txs);
    RunReflects(EMPTY, {}, others);
    SameReflection(Run(EMPTY, txs), Run(EMPTY, others), RunMsgs(txs));
  }
}
