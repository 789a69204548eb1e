/** Full-state reconciliation: what the hot store holds against what the cold
    store replays. Both consumed the same stream, so they must agree. */
module Reconcile {
  import opened Messages
  import opened HotGraph
  import opened Ingest
  import opened ColdStore
  import opened Rebuild

  /** A sorted relationship list is determined by its multiset. */
  datatype Dump = Dump(attrs: Attrs, sequence: Option<nat>, rels: multiset<Rel>)

  datatype Report = Report(onlyInA: set<Id>, onlyInB: set<Id>, attrs: set<Id>, rels: set<Id>, sequences: set<Id>)
  {
    predicate Ok()
    {
      onlyInA == {} && onlyInB == {} && attrs == {} && rels == {} && sequences == {}
    }
  }

  function HotDump(g: Graph): map<Id, Dump>
  {
    map id | id in g.nodes && Alive(g, id) ::
      Dump(g.nodes[id].attrs, g.nodes[id].appliedSeq, multiset(OutRels(g.edges, id)))
  }

  /** The alive, described resources, each with its outbound edges. */
  method DumpHot(hot: HotStore) returns (out: map<Id, Dump>)
    ensures out == HotDump(hot.Contents())
  {
    out := map[];
    var todo := hot.nodes.Keys;
    while todo != {}
      invariant todo <= hot.nodes.Keys
      invariant out == map id | id in hot.nodes.Keys - todo && Alive(hot.Contents(), id) ::
                         Dump(hot.nodes[id].attrs, hot.nodes[id].appliedSeq, multiset(OutRels(hot.edges, id)))
      decreases todo
    {
      var id :| id in todo;
      todo := todo - {id};
      var n := hot.nodes[id];
      if !n.deleted && !n.phantom {
        out := out[id := Dump(n.attrs, n.appliedSeq, multiset(OutRels(hot.edges, id)))];
      }
    }
    assert hot.nodes.Keys - {} == hot.nodes.Keys;
  }

  function DumpOf(r: Row): Dump
  {
    Dump(r.attrs, Some(r.sequence), multiset(r.rels))
  }

  ghost predicate OneRowEach(state: set<Row>)
  {
    forall r, q :: r in state && q in state && r.id == q.id ==> r == q
  }

  method DumpCold(cold: ColdTables) returns (out: map<Id, Dump>, t: Option<int>)
    requires forall t :: OneRowEach(StateAt(cold.events, cold.snapshots, t))
    ensures t == LatestTime(cold.events)
    ensures t.None? ==> out == map[]
    ensures t.Some? ==>
              forall id :: id in out <==> exists r :: r in StateAt(cold.events, cold.snapshots, t.value) && r.id == id
    ensures t.Some? ==>
              forall r :: r in StateAt(cold.events, cold.snapshots, t.value) ==> r.id in out && out[r.id] == DumpOf(r)
  {
    out := map[];
    t := LatestTime(cold.events);
    if t.None? {
      return;
    }
    var state := StateAt(cold.events, cold.snapshots, t.value);
    var todo := state;
    while todo != {}
      invariant todo <= state
      invariant forall id :: id in out <==> exists r :: r in state - todo && r.id == id
      invariant forall r :: r in state - todo ==> r.id in out && out[r.id] == DumpOf(r)
      decreases todo
    {
      var r :| r in todo;
      todo := todo - {r};
      out := out[r.id := DumpOf(r)];
    }
  }

  /** Field by field; every list of the report is empty exactly when the dumps are equal. */
  method Compare(a: map<Id, Dump>, b: map<Id, Dump>) returns (r: Report)
    ensures r.onlyInA == a.Keys - b.Keys && r.onlyInB == b.Keys - a.Keys
    ensures r.attrs == set id | id in a && id in b && a[id].attrs != b[id].attrs
    ensures r.rels == set id | id in a && id in b && a[id].rels != b[id].rels
    ensures r.sequences == set id | id in a && id in b && a[id].sequence != b[id].sequence
    ensures r.Ok() <==> a == b
  {
    r := Report(a.Keys - b.Keys, b.Keys - a.Keys, {}, {}, {});
    var todo := a.Keys * b.Keys;
    while todo != {}
      invariant todo <= a.Keys * b.Keys
      invariant r.onlyInA == a.Keys - b.Keys && r.onlyInB == b.Keys - a.Keys
      invariant r.attrs == set id | id in a.Keys * b.Keys - todo && a[id].attrs != b[id].attrs
      invariant r.rels == set id | id in a.Keys * b.Keys - todo && a[id].rels != b[id].rels
      invariant r.sequences == set id | id in a.Keys * b.Keys - todo && a[id].sequence != b[id].sequence
      decreases todo
    {
      var id :| id in todo;
      todo := todo - {id};
      if a[id].attrs != b[id].attrs {
        r := r.(attrs := r.attrs + {id});
      }
      if a[id].rels != b[id].rels {
        r := r.(rels := r.rels + {id});
      }
      if a[id].sequence != b[id].sequence {
        r := r.(sequences := r.sequences + {id});
      }
    }
    EmptyReport(a, b, r);
  }

  lemma EmptyReport(a: map<Id, Dump>, b: map<Id, Dump>, r: Report)
    requires r.onlyInA == a.Keys - b.Keys && r.onlyInB == b.Keys - a.Keys
    requires r.attrs == set id | id in a.Keys * b.Keys && a[id].attrs != b[id].attrs
    requires r.rels == set id | id in a.Keys * b.Keys && a[id].rels != b[id].rels
    requires r.sequences == set id | id in a.Keys * b.Keys && a[id].sequence != b[id].sequence
    ensures r.Ok() <==> a == b
  {
    if r.Ok() {
      forall id
        ensures id in a <==> id in b
      {
        assert id !in a.Keys - b.Keys && id !in b.Keys - a.Keys;
      }
      forall id | id in a
        ensures a[id] == b[id]
      {
        assert id !in r.attrs && id !in r.rels && id !in r.sequences;
      }
    }
  }

  // ------------------------------------------------------- hot equals cold

  lemma {:induction false} ManyOrOnce<T(!new)>(s: seq<T>, x: T)
    ensures Distinct(s) ==> multiset(s)[x] <= 1
  {
    if s != [] {
      var k := |s| - 1;
      assert s == s[..k] + [s[k]];
      ManyOrOnce(s[..k], x);
      if Distinct(s) {
        assert s[k] !in s[..k];
      }
    }
  }

  /** A list holds no element twice exactly when it weighs as much as its set. */
  lemma NoRepeats<T(!new)>(s: seq<T>)
    ensures Distinct(s) <==> multiset(s) == multiset(set x | x in s)
  {
    var S := set x | x in s;
    if Distinct(s) {
      forall x
        ensures multiset(s)[x] == multiset(S)[x]
      {
        ManyOrOnce(s, x);
      }
    } else {
      var i, j :| 0 <= i < j < |s| && s[i] == s[j];
      assert s == s[..j] + [s[j]] + s[j + 1..];
      assert s[i] in s[..j];
      assert multiset(s)[s[i]] >= 2 && multiset(S)[s[i]] <= 1;
    }
  }

  lemma HeldRels(g: Graph, S: set<Message>, m: Message)
    requires Reflects(g, S) && Consistent(S) && Latest(S, m) && m.op.Upsert?
    ensures OutRels(g.edges, m.id) == set r | r in m.rels
  {
    forall r
      ensures r in OutRels(g.edges, m.id) <==> r in m.rels
    {
      var e := Edge(m.id, r.kind, r.target);
      if r in m.rels {
        assert e in EdgesOf(m);
        assert e in g.edges;
      } else {
        forall n | Latest(S, n)
          ensures e !in EdgesOf(n)
        {
          assert n.id == m.id ==> n == m;
        }
      }
    }
  }

  lemma HotRow(g: Graph, events: seq<Message>, t: int, r: Row)
    requires Reflects(g, MsgSet(events)) && Consistent(MsgSet(events)) && MsgSet(events) == EventsAt(events, t)
    requires r in Replay(events, t)
    ensures r.id in HotDump(g)
    ensures HotDump(g)[r.id] == DumpOf(r) <==> Distinct(r.rels)
  {
    var m := RowLatest(events, t, r);
    HeldRels(g, MsgSet(events), m);
    NoRepeats(m.rels);
  }

  lemma DumpedRow(g: Graph, events: seq<Message>, t: int, id: Id) returns (r: Row)
    requires Reflects(g, MsgSet(events)) && MsgSet(events) == EventsAt(events, t)
    requires id in HotDump(g)
    ensures r in Replay(events, t) && r.id == id
  {
    assert Known(g, id);
    var m :| m in MsgSet(events) && m.id == id;
    var top := LatestExists(MsgSet(events), m);
    ReplayIsLatest(events, t, top);
    r := RowOf(top);
  }

  /** A hot store that applied a message set and a cold store that appended it,
      with any order and any duplicates on either side, reconcile exactly when
      no surviving statement lists a relationship twice: the graph merges the
      repeat, the table keeps it. */
  lemma HotEqualsCold(g: Graph, events: seq<Message>, t: int, cold: map<Id, Dump>)
    requires Reflects(g, MsgSet(events)) && Consistent(MsgSet(events))
    requires LatestTime(events) == Some(t)
    requires forall id :: id in cold <==> exists r :: r in Replay(events, t) && r.id == id
    requires forall r :: r in Replay(events, t) ==> r.id in cold && cold[r.id] == DumpOf(r)
    ensures HotDump(g) == cold <==> forall r :: r in Replay(events, t) ==> Distinct(r.rels)
  {
    assert MsgSet(events) == EventsAt(events, t);
    forall r | r in Replay(events, t)
      ensures r.id in HotDump(g)
      ensures HotDump(g)[r.id] == DumpOf(r) <==> Distinct(r.rels)
    {
      HotRow(g, events, t, r);
    }
    forall id | id in HotDump(g)
      ensures exists r :: r in Replay(events, t) && r.id == id
    {
      var r := DumpedRow(g, events, t, id);
    }
    SameDumps(HotDump(g), cold, Replay(events, t));
  }

  lemma SameDumps(hot: map<Id, Dump>, cold: map<Id, Dump>, state: set<Row>)
    requires forall id :: id in cold <==> exists r :: r in state && r.id == id
    requires forall id :: id in hot ==> exists r :: r in state && r.id == id
    requires forall r :: r in state ==> r.id in cold && cold[r.id] == DumpOf(r)
    requires forall r :: r in state ==> r.id in hot && (hot[r.id] == DumpOf(r) <==> Distinct(r.rels))
    ensures hot == cold <==> forall r :: r in state ==> Distinct(r.rels)
  {
    if forall r :: r in state ==> Distinct(r.rels) {
      assert hot.Keys == cold.Keys;
      forall id | id in cold
        ensures hot[id] == cold[id]
      {
        var r :| r in state && r.id == id;
      }
    } else {
      var r :| r in state && !Distinct(r.rels);
      assert hot[r.id] != cold[r.id];
    }
  }

  /** One message naming one relationship twice is enough to fail the check. */
  lemma RepeatIsReported(id: Id, rel: Rel)
    ensures var m := Message(id, 0, Upsert, map[], [rel, rel], 0);
            HotDump(Step(EMPTY, m)) != map[id := DumpOf(RowOf(m))]
  {
    var m := Message(id, 0, Upsert, map[], [rel, rel], 0);
    var events := [m];
    EmptyReflects();
    assert MsgSet(events) == {} + {m} == {m};
    StepReflects(EMPTY, {}, m);
    assert Latest(EventsAt(events, 0), m);
    ReplayIsLatest(events, 0, m);
    forall r | r in Replay(events, 0)
      ensures r == RowOf(m)
    {
      var top := RowLatest(events, 0, r);
    }
    assert !Distinct(RowOf(m).rels) by {
      assert m.rels[0] == m.rels[1];
    }
    HotEqualsCold(Step(EMPTY, m), events, 0, map[id := DumpOf(RowOf(m))]);
  }

  /** The whole check on live stores. */
  method Reconciled(hot: HotStore, cold: ColdTables) returns (r: Report)
    requires Faithful(cold.events, cold.snapshots) && Consistent(MsgSet(cold.events))
    requires Reflects(hot.Contents(), MsgSet(cold.events))
    ensures cold.events == [] ==> r.Ok()
    ensures cold.events != [] ==>
              (r.Ok() <==> forall x :: x in Replay(cold.events, LatestTime(cold.events).value) ==> Distinct(x.rels))
  {
    var a := DumpHot(hot);
    forall t
      ensures OneRowEach(StateAt(cold.events, cold.snapshots, t))
    {
      SnapshotIsReplay(cold.events, cold.snapshots, t);
      UniqueTombstones(cold.events, t);
    }
    var b, t := DumpCold(cold);
    r := Compare(a, b);
    if t.Some? {
      SnapshotIsReplay(cold.events, cold.snapshots, t.value);
      HotEqualsCold(hot.Contents(), cold.events, t.value, b);
    } else {
      forall id
        ensures id !in a
      {
        assert !Known(hot.Contents(), id);
      }
      assert a.Keys == {} && b.Keys == {};
    }
  }
}
