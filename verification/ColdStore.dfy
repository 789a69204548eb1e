/** The cold store: an append-only event table, a table of materialised
    snapshots, and the event-time queries over the two. */
module ColdStore {
  import opened Messages

  /** One alive resource in a reconstructed state. */
  datatype Row = Row(id: Id, attrs: Attrs, rels: seq<Rel>, sequence: nat)

  datatype SnapRow = SnapRow(asOf: int, watermark: nat, row: Row)

  datatype Statement = Statement(row: Row, op: Op)

  function RowOf(m: Message): Row
  {
    Row(m.id, m.attrs, m.rels, m.sequence)
  }

  function Delta(events: seq<Message>, t: int, wm: int): set<Statement>
  {
    set m | m in events && m.time <= t && m.sequence > wm :: Statement(RowOf(m), m.op)
  }

  predicate Newest(ss: set<Statement>, s: Statement)
  {
    s in ss && forall x :: x in ss && x.row.id == s.row.id ==> x.row.sequence <= s.row.sequence
  }

  /** Rank per resource by sequence, keep the top, drop it if it is a delete. */
  function Survivors(ss: set<Statement>): set<Row>
  {
    set s | s in ss && Newest(ss, s) && s.op.Upsert? :: s.row
  }

  function BaseOf(snaps: seq<SnapRow>, wm: int): set<Row>
  {
    set s | s in snaps && s.watermark == wm :: s.row
  }

  /** The greatest watermark among snapshots taken at or before `t`; -1 if none. */
  function TopWatermark(snaps: seq<SnapRow>, t: int): (wm: int)
    ensures forall s :: s in snaps && s.asOf <= t ==> s.watermark <= wm
    ensures wm == -1 || exists s :: s in snaps && s.asOf <= t && s.watermark == wm
  {
    if snaps == [] then -1
    else
      var rest := TopWatermark(snaps[1..], t);
      if snaps[0].asOf <= t && snaps[0].watermark > rest then snaps[0].watermark else rest
  }

  /** The greatest sequence among events at or before `t`; -1 if none. */
  function TopSequence(events: seq<Message>, t: int): (wm: int)
    ensures forall m :: m in events && m.time <= t ==> m.sequence <= wm
    ensures wm == -1 || exists m :: m in events && m.time <= t && m.sequence == wm
  {
    if events == [] then -1
    else
      var rest := TopSequence(events[1..], t);
      if events[0].time <= t && events[0].sequence > rest then events[0].sequence else rest
  }

  function LatestTime(events: seq<Message>): (t: Option<int>)
    ensures t.None? <==> events == []
    ensures t.Some? ==> forall m :: m in events ==> m.time <= t.value
    ensures t.Some? ==> exists m :: m in events && m.time == t.value
  {
    if events == [] then None
    else
      var rest := LatestTime(events[1..]);
      if rest.None? || rest.value < events[0].time then Some(events[0].time) else rest
  }

  /** State at `t` from scratch: every event up to `t`. */
  function Replay(events: seq<Message>, t: int): set<Row>
  {
    Survivors(Delta(events, t, -1))
  }

  /** State at `t` from the newest snapshot at or before `t`. */
  function StateAt(events: seq<Message>, snaps: seq<SnapRow>, t: int): set<Row>
  {
    var wm := TopWatermark(snaps, t);
    Survivors((set r | r in BaseOf(snaps, wm) :: Statement(r, Upsert)) + Delta(events, t, wm))
  }

  /** Resources whose last event at `t` is a delete, with that event's sequence. */
  function TombstonesAt(events: seq<Message>, t: int): set<(Id, nat)>
  {
    var ss := Delta(events, t, -1);
    set s | s in ss && Newest(ss, s) && s.op.Delete? :: (s.row.id, s.row.sequence)
  }

  function EventsAt(events: seq<Message>, t: int): set<Message>
  {
    set m | m in events && m.time <= t
  }

  // -------------------------------------------------- what a replay computes

  /** Replay keeps exactly the newest statement of each resource, if an upsert. */
  lemma ReplayIsLatest(events: seq<Message>, t: int, m: Message)
    ensures Latest(EventsAt(events, t), m) && m.op.Upsert? ==> RowOf(m) in Replay(events, t)
    ensures Latest(EventsAt(events, t), m) && m.op.Delete? ==> (m.id, m.sequence) in TombstonesAt(events, t)
  {
    var ss := Delta(events, t, -1);
    if Latest(EventsAt(events, t), m) {
      var s := Statement(RowOf(m), m.op);
      assert s in ss;
      forall x | x in ss && x.row.id == m.id
        ensures x.row.sequence <= m.sequence
      {
        var y :| y in events && y.time <= t && x == Statement(RowOf(y), y.op);
        assert y in EventsAt(events, t);
      }
      assert Newest(ss, s);
    }
  }

  lemma StatementLatest(events: seq<Message>, t: int, s: Statement) returns (m: Message)
    requires Newest(Delta(events, t, -1), s)
    ensures Latest(EventsAt(events, t), m) && s == Statement(RowOf(m), m.op)
  {
    m :| m in events && m.time <= t && s == Statement(RowOf(m), m.op);
    forall y | y in EventsAt(events, t) && y.id == m.id
      ensures y.sequence <= m.sequence
    {
      assert Statement(RowOf(y), y.op) in Delta(events, t, -1);
    }
  }

  lemma RowLatest(events: seq<Message>, t: int, r: Row) returns (m: Message)
    requires r in Replay(events, t)
    ensures Latest(EventsAt(events, t), m) && m.op.Upsert? && r == RowOf(m)
  {
    var s :| s in Delta(events, t, -1) && Newest(Delta(events, t, -1), s) && s.op.Upsert? && s.row == r;
    m := StatementLatest(events, t, s);
  }

  lemma TombstoneLatest(events: seq<Message>, t: int, d: (Id, nat)) returns (m: Message)
    requires d in TombstonesAt(events, t)
    ensures Latest(EventsAt(events, t), m) && m.op.Delete? && d == (m.id, m.sequence)
  {
    var s :| s in Delta(events, t, -1) && Newest(Delta(events, t, -1), s) && s.op.Delete?
      && (s.row.id, s.row.sequence) == d;
    m := StatementLatest(events, t, s);
  }

  /** With honest redelivery every resource that has an event by `t` is either
      one row of the state or one tombstone, never both. */
  lemma AliveOrBuried(events: seq<Message>, t: int, m: Message)
    requires Consistent(EventsAt(events, t)) && m in EventsAt(events, t)
    ensures (exists r :: r in Replay(events, t) && r.id == m.id)
            <==> !exists d :: d in TombstonesAt(events, t) && d.0 == m.id
    ensures forall r, q :: r in Replay(events, t) && q in Replay(events, t) && r.id == q.id ==> r == q
  {
    var top := LatestExists(EventsAt(events, t), m);
    ReplayIsLatest(events, t, top);
    if top.op.Upsert? {
      assert RowOf(top).id == m.id;
      if d :| d in TombstonesAt(events, t) && d.0 == m.id {
        var z := TombstoneLatest(events, t, d);
        assert false;
      }
    } else {
      assert (top.id, top.sequence).0 == m.id;
      if r :| r in Replay(events, t) && r.id == m.id {
        var z := RowLatest(events, t, r);
        assert false;
      }
    }
    forall r, q | r in Replay(events, t) && q in Replay(events, t) && r.id == q.id
      ensures r == q
    {
      var x := RowLatest(events, t, r);
      var y := RowLatest(events, t, q);
      assert x == y;
    }
  }

  // ------------------------------------------------- snapshots are invisible

  /** Event time never runs against sequence order. */
  ghost predicate Ordered(events: seq<Message>)
  {
    forall a, b :: a in events && b in events && a.sequence <= b.sequence ==> a.time <= b.time
  }

  /** What a snapshot at `t` needs: no event at or below the watermark it is given is
      later than `t`. */
  ghost predicate Guarded(events: seq<Message>, t: int)
  {
    forall m :: m in events && m.sequence <= TopSequence(events, t) ==> m.time <= t
  }

  lemma OrderedIsGuarded(events: seq<Message>, t: int)
    requires Ordered(events)
    ensures Guarded(events, t)
  {
  }

  function Below(events: seq<Message>, wm: int): set<Statement>
  {
    set m | m in events && m.sequence <= wm :: Statement(RowOf(m), m.op)
  }

  /** Each watermark ever taken still stands for the events at or below it. */
  ghost predicate Faithful(events: seq<Message>, snaps: seq<SnapRow>)
  {
    forall s :: s in snaps ==>
      && (forall m :: m in events && m.sequence <= s.watermark ==> m.time <= s.asOf)
      && BaseOf(snaps, s.watermark) == Survivors(Below(events, s.watermark))
  }

  lemma SurvivorsSplit(all: set<Statement>, low: set<Statement>, high: set<Statement>, wm: int)
    requires all == low + high
    requires forall s :: s in low ==> s.row.sequence <= wm
    requires forall s :: s in high ==> s.row.sequence > wm
    ensures Survivors(all) == Survivors((set r | r in Survivors(low) :: Statement(r, Upsert)) + high)
  {
    var base := set r | r in Survivors(low) :: Statement(r, Upsert);
    var mixed := base + high;
    forall s | s in base
      ensures s in low && Newest(low, s)
    {
    }
    forall s
      ensures Newest(all, s) && s.op.Upsert? <==> Newest(mixed, s) && s.op.Upsert?
    {
      if Newest(all, s) && s.op.Upsert? {
        if s in low {
          assert Newest(low, s);
          assert s.row in Survivors(low);
          assert s in base;
        }
      }
      if Newest(mixed, s) && s.op.Upsert? {
        forall x | x in all && x.row.id == s.row.id
          ensures x.row.sequence <= s.row.sequence
        {
          if x in high {
            assert x in mixed;
          }
        }
      }
    }
    assert forall r :: r in Survivors(all) <==> exists s :: Newest(all, s) && s.op.Upsert? && s.row == r;
    assert forall r :: r in Survivors(mixed) <==> exists s :: Newest(mixed, s) && s.op.Upsert? && s.row == r;
  }

  /** Reading from the newest snapshot is reading the whole history. */
  lemma SnapshotIsReplay(events: seq<Message>, snaps: seq<SnapRow>, t: int)
    requires Faithful(events, snaps)
    ensures StateAt(events, snaps, t) == Replay(events, t)
  {
    var wm := TopWatermark(snaps, t);
    if wm == -1 {
      assert BaseOf(snaps, wm) == {};
      assert (set r | r in BaseOf(snaps, wm) :: Statement(r, Upsert)) + Delta(events, t, wm) == Delta(events, t, -1);
    } else {
      var s :| s in snaps && s.asOf <= t && s.watermark == wm;
      var low, high := Below(events, wm), Delta(events, t, wm);
      assert Delta(events, t, -1) == low + high;
      SurvivorsSplit(Delta(events, t, -1), low, high, wm);
    }
  }

  /** An append keeps every snapshot good if nothing new lands under a watermark. */
  lemma AppendKeepsFaithful(events: seq<Message>, snaps: seq<SnapRow>, ms: seq<Message>)
    requires Faithful(events, snaps)
    requires forall m, s :: m in ms && s in snaps ==> m.sequence > s.watermark || m in events
    ensures Faithful(events + ms, snaps)
  {
    forall s | s in snaps
      ensures Below(events + ms, s.watermark) == Below(events, s.watermark)
    {
    }
  }

  function Snapshot(events: seq<Message>, snaps: seq<SnapRow>, t: int): set<SnapRow>
    requires TopSequence(events, t) >= 0
  {
    set r | r in StateAt(events, snaps, t) :: SnapRow(t, TopSequence(events, t), r)
  }

  lemma SnapshotKeepsFaithful(events: seq<Message>, snaps: seq<SnapRow>, t: int, rows: seq<SnapRow>)
    requires Faithful(events, snaps) && Guarded(events, t)
    requires TopSequence(events, t) >= 0
    requires forall r :: r in rows <==> r in Snapshot(events, snaps, t)
    ensures Faithful(events, snaps + rows)
  {
    forall s | s in snaps + rows
      ensures BaseOf(snaps + rows, s.watermark) == Survivors(Below(events, s.watermark))
      ensures forall m :: m in events && m.sequence <= s.watermark ==> m.time <= s.asOf
    {
      StillStands(events, snaps, t, rows, s);
    }
  }

  lemma StillStands(events: seq<Message>, snaps: seq<SnapRow>, t: int, rows: seq<SnapRow>, s: SnapRow)
    requires Faithful(events, snaps) && Guarded(events, t)
    requires TopSequence(events, t) >= 0
    requires forall r :: r in rows <==> r in Snapshot(events, snaps, t)
    requires s in snaps + rows
    ensures BaseOf(snaps + rows, s.watermark) == Survivors(Below(events, s.watermark))
    ensures forall m :: m in events && m.sequence <= s.watermark ==> m.time <= s.asOf
  {
    if s !in snaps {
      assert s.watermark == TopSequence(events, t) && s.asOf == t;
      ReplayIsBelow(events, t);
    }
    NewBase(events, snaps, t, rows, s.watermark);
    OldBase(events, snaps, s.watermark);
    TwoBases(snaps, rows, s.watermark, Survivors(Below(events, s.watermark)));
  }

  lemma TwoBases(snaps: seq<SnapRow>, rows: seq<SnapRow>, wm: int, all: set<Row>)
    requires BaseOf(snaps, wm) == {} || BaseOf(snaps, wm) == all
    requires BaseOf(rows, wm) == {} || BaseOf(rows, wm) == all
    requires BaseOf(snaps, wm) == all || BaseOf(rows, wm) == all
    ensures BaseOf(snaps + rows, wm) == all
  {
    assert BaseOf(snaps + rows, wm) == BaseOf(snaps, wm) + BaseOf(rows, wm);
  }

  lemma ReplayIsBelow(events: seq<Message>, t: int)
    requires Guarded(events, t)
    ensures Replay(events, t) == Survivors(Below(events, TopSequence(events, t)))
  {
    assert Delta(events, t, -1) == Below(events, TopSequence(events, t));
  }

  lemma NewBase(events: seq<Message>, snaps: seq<SnapRow>, t: int, rows: seq<SnapRow>, wm: int)
    requires Faithful(events, snaps) && Guarded(events, t) && TopSequence(events, t) >= 0
    requires forall r :: r in rows <==> r in Snapshot(events, snaps, t)
    ensures BaseOf(rows, wm) == if wm == TopSequence(events, t) then Survivors(Below(events, wm)) else {}
  {
    ReplayIsBelow(events, t);
    SnapshotIsReplay(events, snaps, t);
    if wm == TopSequence(events, t) {
      forall r | r in StateAt(events, snaps, t)
        ensures r in BaseOf(rows, wm)
      {
        assert SnapRow(t, wm, r) in rows;
      }
      assert BaseOf(rows, wm) == StateAt(events, snaps, t);
    }
  }

  lemma OldBase(events: seq<Message>, snaps: seq<SnapRow>, wm: int)
    requires Faithful(events, snaps)
    ensures if exists s :: s in snaps && s.watermark == wm
            then BaseOf(snaps, wm) == Survivors(Below(events, wm)) else BaseOf(snaps, wm) == {}
  {
  }

  // ------------------------------------------------------------ whole histories

  /** One write to the cold store; a snapshot lands as the rows of `Snapshot`, in any order. */
  datatype Act = Append(ms: seq<Message>) | Take(t: int, rows: seq<SnapRow>)

  datatype Tables = Tables(events: seq<Message>, snaps: seq<SnapRow>)

  /** `rows` are what a snapshot at `t` appends. */
  ghost predicate Taken(d: Tables, t: int, rows: seq<SnapRow>)
  {
    if TopSequence(d.events, t) >= 0 then forall r :: r in rows <==> r in Snapshot(d.events, d.snaps, t) else rows == []
  }

  ghost predicate Legal(d: Tables, a: Act)
  {
    match a
    case Append(ms) => forall m, s :: m in ms && s in d.snaps ==> m.sequence > s.watermark || m in d.events
    case Take(t, rows) => Guarded(d.events, t) && Taken(d, t, rows)
  }

  function Do(d: Tables, a: Act): Tables
  {
    match a
    case Append(ms) => Tables(d.events + ms, d.snaps)
    case Take(_, rows) => Tables(d.events, d.snaps + rows)
  }

  function DoAll(acts: seq<Act>): Tables
  {
    if acts == [] then Tables([], []) else Do(DoAll(acts[..|acts| - 1]), acts[|acts| - 1])
  }

  ghost predicate LegalRun(acts: seq<Act>)
  {
    acts == [] || (LegalRun(acts[..|acts| - 1]) && Legal(DoAll(acts[..|acts| - 1]), acts[|acts| - 1]))
  }

  lemma {:induction false} RunFaithful(acts: seq<Act>)
    requires LegalRun(acts)
    ensures Faithful(DoAll(acts).events, DoAll(acts).snaps)
  {
    if acts != [] {
      var init, a := acts[..|acts| - 1], acts[|acts| - 1];
      var d := DoAll(init);
      RunFaithful(init);
      match a
      case Append(ms) => AppendKeepsFaithful(d.events, d.snaps, ms);
      case Take(t, rows) =>
        if TopSequence(d.events, t) >= 0 {
          SnapshotKeepsFaithful(d.events, d.snaps, t, rows);
        } else {
          assert d.snaps + rows == d.snaps;
        }
    }
  }

  /** Whatever the interleaving of appends, duplicates and chained snapshots,
      every moment reads the same with and without the snapshots. */
  lemma SnapshotsNeverShow(acts: seq<Act>, t: int)
    requires LegalRun(acts)
    ensures StateAt(DoAll(acts).events, DoAll(acts).snaps, t) == Replay(DoAll(acts).events, t)
  {
    RunFaithful(acts);
    SnapshotIsReplay(DoAll(acts).events, DoAll(acts).snaps, t);
  }

  /** Two resources for the counterexamples below: the first stated at sequence 5. */
  function Early(): Message
  {
    Message(Id(Host, 1), 5, Upsert, map[], [], 5)
  }

  function Late(time: int): Message
  {
    Message(Id(Host, 2), 3, Upsert, map[], [], time)
  }

  lemma OnlySurvivor(m: Message)
    requires m.op.Upsert?
    ensures Survivors({Statement(RowOf(m), Upsert)}) == {RowOf(m)}
  {
    assert Newest({Statement(RowOf(m), Upsert)}, Statement(RowOf(m), Upsert));
  }

  /** Through a snapshot of the first alone, the second is never read. */
  lemma HiddenBySnapshot(events: seq<Message>, late: Message, u: int)
    requires u >= 5 && events == [Early(), late] && late.sequence == 3 && late.id == Late(0).id
    ensures RowOf(late) !in StateAt(events, [SnapRow(5, 5, RowOf(Early()))], u)
  {
    var snaps := [SnapRow(5, 5, RowOf(Early()))];
    assert snaps[0] in snaps;
    assert TopWatermark(snaps, u) == 5;
    assert Delta(events, u, 5) == {};
    assert BaseOf(snaps, 5) == {RowOf(Early())};
  }

  lemma ShownByReplay(events: seq<Message>, late: Message, u: int)
    requires late.time <= u && late.op.Upsert? && events == [Early(), late] && late.id != Early().id
    ensures RowOf(late) in Replay(events, u)
  {
    var ss := Delta(events, u, -1);
    assert late in events;
    assert Statement(RowOf(late), Upsert) in ss;
    assert Newest(ss, Statement(RowOf(late), Upsert));
  }

  /** What a snapshot at 5 takes while the second is stated for a later moment. */
  lemma TakenEarly(late: Message)
    requires late.time > 5 && late.sequence == 3
    ensures TopSequence([Early(), late], 5) == 5
    ensures Taken(Tables([Early(), late], []), 5, [SnapRow(5, 5, RowOf(Early()))])
  {
    var events, rows := [Early(), late], [SnapRow(5, 5, RowOf(Early()))];
    assert events[0] in events;
    assert Delta(events, 5, -1) == {Statement(RowOf(Early()), Upsert)};
    assert (set r | r in BaseOf([], -1) :: Statement(r, Upsert)) + Delta(events, 5, -1) == Delta(events, 5, -1);
    OnlySurvivor(Early());
    assert StateAt(events, [], 5) == {RowOf(Early())};
    assert Snapshot(events, [], 5) == {rows[0]};
  }

  /** Stated after `t` at or below the watermark a snapshot at `t` gets: never read
      through that snapshot. */
  predicate Hidden(events: seq<Message>, t: int, u: int, m: Message)
  {
    m in events && t < m.time <= u && m.sequence <= TopSequence(events, t)
  }

  /** Superseded by `u`, or a row of an older snapshot under the same watermark, or the
      delete of a resource the snapshot does not have. */
  ghost predicate Unmissed(events: seq<Message>, base: set<Row>, t: int, u: int, m: Message)
  {
    || (exists x :: x in EventsAt(events, u) && x.id == m.id && x.sequence > m.sequence)
    || (m.op.Upsert? && RowOf(m) in base)
    || (m.op.Delete? && forall r :: r in Replay(events, t) ==> r.id != m.id)
  }

  /** Stated by `u`, or superseded by then. */
  ghost predicate Due(events: seq<Message>, u: int, r: Row)
  {
    exists x :: x in EventsAt(events, u) && x.id == r.id && x.sequence >= r.sequence
  }

  /** The rows of older snapshots under one watermark, if there are any. */
  ghost predicate Stands(events: seq<Message>, base: set<Row>, wm: int)
  {
    base == {} || base == Survivors(Below(events, wm))
  }

  /** The statements a read at `u` through a snapshot at `t` rests on, where `base` was
      there under its watermark. */
  function Shown(events: seq<Message>, base: set<Row>, t: int, u: int): set<Statement>
  {
    (set r | r in base + Replay(events, t) :: Statement(r, Upsert)) + Delta(events, u, TopSequence(events, t))
  }

  lemma ReadThrough(events: seq<Message>, snaps: seq<SnapRow>, t: int, u: int, rows: seq<SnapRow>)
    requires Faithful(events, snaps) && TopSequence(events, t) >= 0 && Taken(Tables(events, snaps), t, rows)
    requires TopWatermark(snaps + rows, u) == TopSequence(events, t)
    ensures Stands(events, BaseOf(snaps, TopSequence(events, t)), TopSequence(events, t))
    ensures StateAt(events, snaps + rows, u) ==
            Survivors(Shown(events, BaseOf(snaps, TopSequence(events, t)), t, u))
  {
    OldBase(events, snaps, TopSequence(events, t));
    BaseGrows(events, snaps, t, rows);
  }

  /** A snapshot adds its rows to those under the same watermark. */
  lemma BaseGrows(events: seq<Message>, snaps: seq<SnapRow>, t: int, rows: seq<SnapRow>)
    requires Faithful(events, snaps) && TopSequence(events, t) >= 0 && Taken(Tables(events, snaps), t, rows)
    ensures BaseOf(snaps + rows, TopSequence(events, t)) == BaseOf(snaps, TopSequence(events, t)) + Replay(events, t)
  {
    var wm := TopSequence(events, t);
    SnapshotIsReplay(events, snaps, t);
    forall r | r in Replay(events, t)
      ensures r in BaseOf(snaps + rows, wm)
    {
      assert SnapRow(t, wm, r) in snaps + rows;
    }
    forall s | s in rows
      ensures s.watermark == wm && s.row in Replay(events, t)
    {
    }
  }

  /** A row of the older snapshots is the newest statement at or below the watermark. */
  lemma BaseStated(events: seq<Message>, base: set<Row>, wm: int, r: Row) returns (m: Message)
    requires Stands(events, base, wm) && r in base
    ensures m in events && m.op.Upsert? && m.sequence <= wm && RowOf(m) == r
    ensures forall x :: x in events && x.id == r.id && x.sequence <= wm ==> x.sequence <= r.sequence
  {
    var s :| s in Below(events, wm) && Newest(Below(events, wm), s) && s.op.Upsert? && s.row == r;
    m :| m in events && m.sequence <= wm && Statement(RowOf(m), m.op) == s;
    forall x | x in events && x.id == r.id && x.sequence <= wm
      ensures x.sequence <= r.sequence
    {
      assert Statement(RowOf(x), x.op) in Below(events, wm);
    }
  }

  /** Where a statement of the read comes from. */
  lemma ShownIsStated(events: seq<Message>, base: set<Row>, t: int, u: int, s: Statement) returns (m: Message)
    requires s in Shown(events, base, t, u) && Stands(events, base, TopSequence(events, t)) && t <= u
    ensures m in events && s == Statement(RowOf(m), m.op)
    ensures || (m.op.Upsert? && RowOf(m) in base)
            || (m.op.Upsert? && Latest(EventsAt(events, t), m) && m in EventsAt(events, u))
            || (m in EventsAt(events, u) && m.sequence > TopSequence(events, t))
  {
    if s in Delta(events, u, TopSequence(events, t)) {
      m :| m in events && m.time <= u && m.sequence > TopSequence(events, t) && s == Statement(RowOf(m), m.op);
    } else if s.row in base {
      m := BaseStated(events, base, TopSequence(events, t), s.row);
    } else {
      m := RowLatest(events, t, s.row);
    }
  }

  /** Newest of the read are a row of the older snapshots unless something newer was
      stated by `u`, and else a row of the snapshot itself. */
  lemma BaseIsNewest(events: seq<Message>, base: set<Row>, t: int, u: int, q: Row)
    requires Stands(events, base, TopSequence(events, t)) && t <= u && q in base
    requires forall x :: x in EventsAt(events, u) && x.id == q.id && x.sequence > TopSequence(events, t) ==>
               x.sequence <= q.sequence
    ensures q in Survivors(Shown(events, base, t, u))
  {
    var ss := Shown(events, base, t, u);
    var m := BaseStated(events, base, TopSequence(events, t), q);
    forall x | x in ss && x.row.id == q.id
      ensures x.row.sequence <= q.sequence
    {
      var y := ShownIsStated(events, base, t, u, x);
      if y.op.Upsert? && RowOf(y) in base {
        var z := BaseStated(events, base, TopSequence(events, t), RowOf(y));
      }
    }
    assert Newest(ss, Statement(q, Upsert));
  }

  lemma RowIsNewest(events: seq<Message>, base: set<Row>, t: int, u: int, r: Row)
    requires Stands(events, base, TopSequence(events, t)) && t <= u && r in Replay(events, t)
    requires forall x :: x in EventsAt(events, u) && x.id == r.id ==> x.sequence <= TopSequence(events, t)
    requires forall q :: q in base ==> q.id != r.id
    ensures r in Survivors(Shown(events, base, t, u))
  {
    var ss := Shown(events, base, t, u);
    var m := RowLatest(events, t, r);
    forall x | x in ss && x.row.id == r.id
      ensures x.row.sequence <= r.sequence
    {
      var y := ShownIsStated(events, base, t, u, x);
      assert y in EventsAt(events, t);
    }
    assert Newest(ss, Statement(r, Upsert));
  }

  /** A newest statement that is hidden and missed makes the read another. */
  lemma MissedShows(events: seq<Message>, base: set<Row>, t: int, u: int, m: Message)
    requires Consistent(MsgSet(events)) && Stands(events, base, TopSequence(events, t)) && t <= u
    requires Hidden(events, t, u, m) && !Unmissed(events, base, t, u, m)
    ensures Survivors(Shown(events, base, t, u)) != Replay(events, u)
  {
    assert Latest(EventsAt(events, u), m);
    ReplayIsLatest(events, u, m);
    if m.op.Upsert? {
      MissedUpsert(events, base, t, u, m);
    } else {
      var r := MissedDelete(events, base, t, u, m);
      if r in Replay(events, u) {
        var x := RowLatest(events, u, r);
        assert false;
      }
    }
  }

  lemma MissedUpsert(events: seq<Message>, base: set<Row>, t: int, u: int, m: Message)
    requires Consistent(MsgSet(events)) && Stands(events, base, TopSequence(events, t)) && t <= u
    requires Hidden(events, t, u, m) && m.op.Upsert? && RowOf(m) !in base
    ensures RowOf(m) !in Survivors(Shown(events, base, t, u))
  {
    if RowOf(m) in Survivors(Shown(events, base, t, u)) {
      var s :| s in Shown(events, base, t, u) && s.row == RowOf(m);
      var x := ShownIsStated(events, base, t, u, s);
      assert false;
    }
  }

  /** A hidden delete leaves the resource in what is read. */
  lemma MissedDelete(events: seq<Message>, base: set<Row>, t: int, u: int, m: Message) returns (shown: Row)
    requires Stands(events, base, TopSequence(events, t)) && t <= u
    requires Hidden(events, t, u, m) && Latest(EventsAt(events, u), m)
    requires exists r :: r in Replay(events, t) && r.id == m.id
    ensures shown in Survivors(Shown(events, base, t, u)) && shown.id == m.id
  {
    if q :| q in base && q.id == m.id {
      BaseIsNewest(events, base, t, u, q);
      shown := q;
    } else {
      shown :| shown in Replay(events, t) && shown.id == m.id;
      RowIsNewest(events, base, t, u, shown);
    }
  }

  /** So does a row of an older snapshot that is not due yet. */
  lemma TooEarlyShows(events: seq<Message>, base: set<Row>, t: int, u: int, r: Row)
    requires Stands(events, base, TopSequence(events, t)) && t <= u && r in base && !Due(events, u, r)
    ensures r in Survivors(Shown(events, base, t, u)) && r !in Replay(events, u)
  {
    BaseIsNewest(events, base, t, u, r);
    if r in Replay(events, u) {
      var x := RowLatest(events, u, r);
      assert false;
    }
  }

  ghost predicate NoneMissed(events: seq<Message>, base: set<Row>, t: int, u: int)
  {
    && (forall m :: Hidden(events, t, u, m) ==> Unmissed(events, base, t, u, m))
    && (forall r :: r in base ==> Due(events, u, r))
  }

  lemma ReplayedIsShown(events: seq<Message>, base: set<Row>, t: int, u: int, r: Row)
    requires Stands(events, base, TopSequence(events, t)) && t <= u && r in Replay(events, u)
    requires NoneMissed(events, base, t, u)
    ensures r in Survivors(Shown(events, base, t, u))
  {
    var m := RowLatest(events, u, r);
    var ss, s := Shown(events, base, t, u), Statement(r, Upsert);
    if m.time <= t {
      assert Latest(EventsAt(events, t), m);
      ReplayIsLatest(events, t, m);
      assert s in ss;
    } else if m.sequence <= TopSequence(events, t) {
      assert Hidden(events, t, u, m) && Unmissed(events, base, t, u, m);
      assert s in ss;
    } else {
      assert s in Delta(events, u, TopSequence(events, t));
    }
    forall x | x in ss && x.row.id == r.id
      ensures x.row.sequence <= r.sequence
    {
      var y := ShownIsStated(events, base, t, u, x);
      if y.op.Upsert? && RowOf(y) in base {
        assert Due(events, u, RowOf(y));
      }
    }
    assert Newest(ss, s);
  }

  /** The newest statement by `u` about the resource of a row that is read is its own. */
  lemma TopIsShown(events: seq<Message>, base: set<Row>, t: int, u: int, s: Statement, m: Message, top: Message)
    requires Consistent(MsgSet(events)) && Stands(events, base, TopSequence(events, t)) && t <= u
    requires NoneMissed(events, base, t, u) && Newest(Shown(events, base, t, u), s) && s.op.Upsert?
    requires m in events && s == Statement(RowOf(m), m.op)
    requires || RowOf(m) in base || Latest(EventsAt(events, t), m) || m.sequence > TopSequence(events, t)
    requires Latest(EventsAt(events, u), top) && top.id == m.id && top.sequence >= m.sequence
    ensures top == m
  {
    var wm := TopSequence(events, t);
    if top.sequence > wm {
      assert Statement(RowOf(top), top.op) in Shown(events, base, t, u);
    } else if RowOf(m) in base {
      var _ := BaseStated(events, base, wm, RowOf(m));
    } else if top.time <= t {
      assert Latest(EventsAt(events, t), top);
    } else {
      assert Hidden(events, t, u, top) && Unmissed(events, base, t, u, top);
      ReplayIsLatest(events, t, m);
      assert RowOf(m).id == top.id;
      assert RowOf(top) in base;
      assert Statement(RowOf(top), Upsert) in Shown(events, base, t, u);
    }
  }

  lemma ShownIsReplayed(events: seq<Message>, base: set<Row>, t: int, u: int, r: Row)
    requires Consistent(MsgSet(events)) && Stands(events, base, TopSequence(events, t)) && t <= u
    requires NoneMissed(events, base, t, u) && r in Survivors(Shown(events, base, t, u))
    ensures r in Replay(events, u)
  {
    var ss := Shown(events, base, t, u);
    var s :| s in ss && Newest(ss, s) && s.op.Upsert? && s.row == r;
    var m := ShownIsStated(events, base, t, u, s);
    var z := m;
    if RowOf(m) in base {
      assert Due(events, u, r);
      z :| z in EventsAt(events, u) && z.id == r.id && z.sequence >= r.sequence;
    }
    var top := LatestExists(EventsAt(events, u), z);
    TopIsShown(events, base, t, u, s, m, top);
    ReplayIsLatest(events, u, top);
  }

  lemma NothingMissed(events: seq<Message>, base: set<Row>, t: int, u: int)
    requires Consistent(MsgSet(events)) && Stands(events, base, TopSequence(events, t)) && t <= u
    requires NoneMissed(events, base, t, u)
    ensures Survivors(Shown(events, base, t, u)) == Replay(events, u)
  {
    forall r
      ensures r in Replay(events, u) <==> r in Survivors(Shown(events, base, t, u))
    {
      if r in Replay(events, u) {
        ReplayedIsShown(events, base, t, u, r);
      } else if r in Survivors(Shown(events, base, t, u)) {
        ShownIsReplayed(events, base, t, u, r);
      }
    }
  }

  lemma ShownExactly(events: seq<Message>, base: set<Row>, t: int, u: int)
    requires Consistent(MsgSet(events)) && Stands(events, base, TopSequence(events, t)) && t <= u
    ensures Survivors(Shown(events, base, t, u)) == Replay(events, u) <==> NoneMissed(events, base, t, u)
  {
    if m :| Hidden(events, t, u, m) && !Unmissed(events, base, t, u, m) {
      MissedShows(events, base, t, u, m);
    } else if r :| r in base && !Due(events, u, r) {
      TooEarlyShows(events, base, t, u, r);
    } else {
      NothingMissed(events, base, t, u);
    }
  }

  /** What a snapshot taken over later events of lower sequence does, to every read: one
      that does not rest on its watermark is the replay, and one that does is if and
      only if each event it hides was superseded by then, was in an older snapshot under
      the same watermark, or deletes a resource the snapshot does not have, and each row
      of those older ones was stated by then. */
  lemma UnguardedExactly(events: seq<Message>, snaps: seq<SnapRow>, t: int, u: int, rows: seq<SnapRow>)
    requires Faithful(events, snaps) && Consistent(MsgSet(events)) && TopSequence(events, t) >= 0
    requires Taken(Tables(events, snaps), t, rows)
    ensures StateAt(events, snaps + rows, u) == Replay(events, u) <==>
              (TopWatermark(snaps + rows, u) == TopSequence(events, t) ==>
                 NoneMissed(events, BaseOf(snaps, TopSequence(events, t)), t, u))
  {
    if TopWatermark(snaps + rows, u) != TopSequence(events, t) {
      ReadElsewhere(events, snaps, t, u, rows);
    } else if u < t {
      ReadBefore(events, snaps, t, u, rows);
    } else {
      ReadThrough(events, snaps, t, u, rows);
      ShownExactly(events, BaseOf(snaps, TopSequence(events, t)), t, u);
    }
  }

  /** A read that rests on another watermark is what it was. */
  lemma ReadElsewhere(events: seq<Message>, snaps: seq<SnapRow>, t: int, u: int, rows: seq<SnapRow>)
    requires Faithful(events, snaps) && TopSequence(events, t) >= 0 && Taken(Tables(events, snaps), t, rows)
    requires TopWatermark(snaps + rows, u) != TopSequence(events, t)
    ensures StateAt(events, snaps + rows, u) == Replay(events, u)
  {
    var wm := TopWatermark(snaps + rows, u);
    assert forall s :: s in rows ==> s.watermark == TopSequence(events, t);
    assert TopWatermark(snaps, u) == wm;
    assert BaseOf(snaps + rows, wm) == BaseOf(snaps, wm);
    SnapshotIsReplay(events, snaps, u);
  }

  /** A read before the snapshot's time rests on its watermark only if an older snapshot
      under it was taken by then, and then nothing at or below it is later. */
  lemma ReadBefore(events: seq<Message>, snaps: seq<SnapRow>, t: int, u: int, rows: seq<SnapRow>)
    requires Faithful(events, snaps) && TopSequence(events, t) >= 0 && Taken(Tables(events, snaps), t, rows) && u < t
    requires TopWatermark(snaps + rows, u) == TopSequence(events, t)
    ensures StateAt(events, snaps + rows, u) == Replay(events, u)
    ensures NoneMissed(events, BaseOf(snaps, TopSequence(events, t)), t, u)
  {
    var wm := TopSequence(events, t);
    var s :| s in snaps + rows && s.asOf <= u && s.watermark == wm;
    assert s in snaps;
    SnapshotKeepsFaithful(events, snaps, t, rows);
    SnapshotIsReplay(events, snaps + rows, u);
    OldBase(events, snaps, wm);
    forall r | r in BaseOf(snaps, wm)
      ensures Due(events, u, r)
    {
      var m := BaseStated(events, BaseOf(snaps, wm), wm, r);
    }
  }

  /** The two events and the snapshot at 5 that takes the first. */
  function Two(): seq<Message>
  {
    [Early(), Late(9)]
  }

  function Sooner(): seq<SnapRow>
  {
    [SnapRow(5, 5, RowOf(Early()))]
  }

  lemma TwoFacts(u: int)
    ensures TopSequence(Two(), 5) == 5 && Late(9) in Two() && Consistent(MsgSet(Two()))
    ensures forall x :: x in Two() && x.time <= u && u < 9 ==> x.id != Late(9).id
    ensures forall m :: Hidden(Two(), 5, u, m) <==> u >= 9 && m == Late(9)
  {
    TakenEarly(Late(9));
    assert Two()[1] == Late(9);
  }

  lemma NotSuperseded(u: int)
    ensures !Unmissed(Two(), {}, 5, u, Late(9))
  {
  }

  /** Such an event: every read from its time on differs from the replay. */
  lemma UnguardedSnapshotHides(u: int)
    requires u >= Late(9).time
    ensures Taken(Tables(Two(), []), 5, Sooner()) && Late(9).time > 5 && Late(9).sequence <= TopSequence(Two(), 5)
    ensures RowOf(Late(9)) in Replay(Two(), u) && StateAt(Two(), Sooner(), u) != Replay(Two(), u)
  {
    TakenEarly(Late(9));
    TwoFacts(u);
    ShownByReplay(Two(), Late(9), u);
    NotSuperseded(u);
    assert [] + Sooner() == Sooner() && BaseOf([], 5) == {};
    UnguardedExactly(Two(), [], 5, u, Sooner());
    SoonerTop([], u);
  }

  lemma SoonerTop(snaps: seq<SnapRow>, u: int)
    requires u >= 5 && forall s :: s in snaps ==> s.watermark == 5
    ensures TopWatermark(snaps + Sooner(), u) == 5
  {
    assert (snaps + Sooner())[|snaps|] in snaps + Sooner();
  }

  /** A second way: a snapshot at 9 under watermark 5 was there before. It is faithful,
      but one at 5 gets the same watermark, so that a read between the two finds its
      rows: before 9 the second resource is in the state and not in the replay, although
      nothing is hidden. */
  lemma SharedWatermarkShows(u: int)
    requires 5 <= u < 9
    ensures Faithful(Two(), Later()) && Taken(Tables(Two(), Later()), 5, Sooner())
    ensures forall m :: !Hidden(Two(), 5, u, m)
    ensures RowOf(Late(9)) in StateAt(Two(), Later() + Sooner(), u) && RowOf(Late(9)) !in Replay(Two(), u)
  {
    LaterIsFaithful();
    TwoFacts(u);
    SoonerTop(Later(), u);
    OneTooEarly(Two(), Later(), 5, u, Sooner(), Late(9));
  }

  /** An older snapshot's row of a later event is read before that event. */
  lemma OneTooEarly(events: seq<Message>, snaps: seq<SnapRow>, t: int, u: int, rows: seq<SnapRow>, late: Message)
    requires Faithful(events, snaps) && TopSequence(events, t) >= 0 && Taken(Tables(events, snaps), t, rows) && t <= u
    requires TopWatermark(snaps + rows, u) == TopSequence(events, t)
    requires RowOf(late) in BaseOf(snaps, TopSequence(events, t))
    requires forall x :: x in events && x.time <= u ==> x.id != late.id
    ensures RowOf(late) in StateAt(events, snaps + rows, u) && RowOf(late) !in Replay(events, u)
  {
    ReadThrough(events, snaps, t, u, rows);
    assert !Due(events, u, RowOf(late));
    TooEarlyShows(events, BaseOf(snaps, TopSequence(events, t)), t, u, RowOf(late));
  }

  /** The snapshot at 9. */
  function Later(): seq<SnapRow>
  {
    [SnapRow(9, 5, RowOf(Early())), SnapRow(9, 5, RowOf(Late(9)))]
  }

  lemma LaterIsFaithful()
    ensures Faithful(Two(), Later()) && RowOf(Late(9)) in BaseOf(Later(), 5)
    ensures Taken(Tables(Two(), Later()), 5, Sooner())
  {
    BothBelow();
    SnapshotIsReplay(Two(), Later(), 5);
    TakenEarly(Late(9));
    SnapshotIsReplay(Two(), [], 5);
  }

  lemma BothBelow()
    ensures Survivors(Below(Two(), 5)) == {RowOf(Early()), RowOf(Late(9))} == BaseOf(Later(), 5)
  {
    var a, b := Statement(RowOf(Early()), Upsert), Statement(RowOf(Late(9)), Upsert);
    assert Two()[0] in Two() && Two()[1] in Two();
    assert Below(Two(), 5) == {a, b};
    assert Newest({a, b}, a) && Newest({a, b}, b);
    assert Later()[0] in Later() && Later()[1] in Later();
  }

  /** The hypothesis on appends is needed: an event arriving under a watermark
      is never read again through that snapshot. */
  lemma LateEventIsHidden()
    ensures exists events, snaps, late, t ::
              && Faithful(events, snaps) && Ordered(events + [late])
              && RowOf(late) in Replay(events + [late], t)
              && RowOf(late) !in StateAt(events + [late], snaps, t)
  {
    var late := Late(3);
    var events, snaps := [Early()], [SnapRow(5, 5, RowOf(Early()))];
    assert Below(events, 5) == {Statement(RowOf(Early()), Upsert)};
    OnlySurvivor(Early());
    assert snaps[0] in snaps;
    assert BaseOf(snaps, 5) == {RowOf(Early())};
    assert Faithful(events, snaps);
    assert events + [late] == [Early(), late];
    ShownByReplay(events + [late], late, 5);
    HiddenBySnapshot(events + [late], late, 5);
  }

  lemma OneMore(events: seq<Message>, m: Message, t: int, wm: int)
    ensures Delta(events + [m], t, wm) ==
            Delta(events, t, wm) + if m.time <= t && m.sequence > wm then {Statement(RowOf(m), m.op)} else {}
  {
    assert forall x :: x in events + [m] <==> x in events || x == m;
  }

  /** One more statement, at a sequence its resource has not used. */
  lemma SurvivorsPlus(ss: set<Statement>, s: Statement)
    requires forall x :: x in ss && x.row.id == s.row.id ==> x.row.sequence != s.row.sequence
    ensures if exists x :: x in ss && x.row.id == s.row.id && x.row.sequence > s.row.sequence
            then Survivors(ss + {s}) == Survivors(ss)
            else forall r :: r in Survivors(ss + {s}) <==>
                   (r in Survivors(ss) && r.id != s.row.id) || (s.op.Upsert? && r == s.row)
  {
    var all := ss + {s};
    if x :| x in ss && x.row.id == s.row.id && x.row.sequence > s.row.sequence {
      assert forall y :: Newest(all, y) <==> Newest(ss, y);
    } else {
      forall y
        ensures Newest(all, y) <==> (Newest(ss, y) && y.row.id != s.row.id) || y == s
      {
      }
    }
  }

  lemma StatedBefore(events: seq<Message>, t: int, x: Statement) returns (m: Message)
    requires x in Delta(events, t, -1)
    ensures m in EventsAt(events, t) && x == Statement(RowOf(m), m.op)
  {
    m :| m in events && m.time <= t && x == Statement(RowOf(m), m.op);
  }

  /** An event that comes late and is not superseded shows up in the replay. */
  lemma LateShows(events: seq<Message>, t: int, late: Message)
    requires late.time <= t && forall x :: x in EventsAt(events, t) && x.id == late.id ==> x.sequence < late.sequence
    ensures Replay(events + [late], t) == Replay(events, t) <==>
              late.op.Delete? && forall r :: r in Replay(events, t) ==> r.id != late.id
  {
    var ss, s := Delta(events, t, -1), Statement(RowOf(late), late.op);
    OneMore(events, late, t, -1);
    forall x | x in ss && x.row.id == late.id
      ensures x.row.sequence < late.sequence
    {
      var m := StatedBefore(events, t, x);
    }
    SurvivorsPlus(ss, s);
    if late.op.Upsert? {
      assert RowOf(late) in Replay(events + [late], t);
      if RowOf(late) in Replay(events, t) {
        var m := RowLatest(events, t, RowOf(late));
      }
    } else if r :| r in Replay(events, t) && r.id == late.id {
      assert r !in Replay(events + [late], t);
    }
  }

  lemma SupersededDoesNotShow(events: seq<Message>, t: int, late: Message, x: Message)
    requires late.time <= t && x in EventsAt(events, t) && x.id == late.id && x.sequence > late.sequence
    requires forall y :: y in EventsAt(events, t) && y.id == late.id ==> y.sequence != late.sequence
    ensures Replay(events + [late], t) == Replay(events, t)
  {
    var ss := Delta(events, t, -1);
    OneMore(events, late, t, -1);
    forall y | y in ss && y.row.id == late.id
      ensures y.row.sequence != late.sequence
    {
      var m := StatedBefore(events, t, y);
    }
    assert Statement(RowOf(x), x.op) in ss;
    SurvivorsPlus(ss, Statement(RowOf(late), late.op));
  }

  /** What becomes of an event that arrives under a watermark: it is never read
      again through that snapshot, and this shows unless it was superseded
      before it came or deletes what was not alive anyway. */
  lemma LateEventExactly(events: seq<Message>, snaps: seq<SnapRow>, t: int, late: Message)
    requires Faithful(events, snaps) && late.time <= t && late.sequence <= TopWatermark(snaps, t)
    requires forall x :: x in EventsAt(events, t) && x.id == late.id ==> x.sequence != late.sequence
    ensures StateAt(events + [late], snaps, t) == Replay(events + [late], t) <==>
              (exists x :: x in EventsAt(events, t) && x.id == late.id && x.sequence > late.sequence)
              || (late.op.Delete? && forall r :: r in Replay(events, t) ==> r.id != late.id)
  {
    OneMore(events, late, t, TopWatermark(snaps, t));
    SnapshotIsReplay(events, snaps, t);
    assert StateAt(events + [late], snaps, t) == Replay(events, t);
    if x :| x in EventsAt(events, t) && x.id == late.id && x.sequence > late.sequence {
      SupersededDoesNotShow(events, t, late, x);
    } else {
      LateShows(events, t, late);
    }
  }

  // ------------------------------------------------------------- the store

  class ColdTables {
    var events: seq<Message>
    var snapshots: seq<SnapRow>

    constructor ()
      ensures events == [] && snapshots == []
    {
      events, snapshots := [], [];
    }

    function Contents(): Tables
      reads this
    {
      Tables(events, snapshots)
    }

    method AppendEvents(ms: seq<Message>) returns (n: nat)
      modifies this
      ensures Contents() == Do(old(Contents()), Append(ms)) && n == |ms|
    {
      events := events + ms;
      n := |ms|;
    }

    static method Materialise(rows: set<Row>, at: int, wm: nat) returns (out: seq<SnapRow>)
      ensures forall r :: r in out <==> exists x :: x in rows && r == SnapRow(at, wm, x)
    {
      out := [];
      var todo := rows;
      while todo != {}
        invariant todo <= rows
        invariant forall r :: r in out <==> exists x :: x in rows && x !in todo && r == SnapRow(at, wm, x)
        decreases todo
      {
        var r :| r in todo;
        out := out + [SnapRow(at, wm, r)];
        todo := todo - {r};
      }
    }

    /** Materialise the state at `t` (the newest event's time by default). */
    method SnapshotAt(t: Option<int>) returns (rows: nat, wm: int, ghost act: Option<Act>)
      modifies this
      ensures act.None? <==> t.None? && old(events) == []
      ensures act.None? ==> Contents() == old(Contents()) && rows == 0 && wm == -1
      ensures act.Some? ==> act.value.Take? && Taken(old(Contents()), act.value.t, act.value.rows)
      ensures act.Some? ==> Contents() == Do(old(Contents()), act.value)
      ensures act.Some? ==> act.value.t == if t.Some? then t.value else LatestTime(old(events)).value
      ensures act.Some? ==> rows == |act.value.rows| && wm == TopSequence(old(events), act.value.t)
      ensures act.Some? && Guarded(events, act.value.t) && Faithful(old(events), old(snapshots)) ==>
                Faithful(events, snapshots)
    {
      var at := t;
      if at.None? {
        at := LatestTime(events);
        if at.None? {
          return 0, -1, None;
        }
      }
      wm := TopSequence(events, at.value);
      if wm == -1 {
        assert snapshots + [] == snapshots;
        return 0, -1, Some(Take(at.value, []));
      }
      var out := Materialise(StateAt(events, snapshots, at.value), at.value, wm);
      if Guarded(events, at.value) && Faithful(events, snapshots) {
        SnapshotKeepsFaithful(events, snapshots, at.value, out);
      }
      snapshots := snapshots + out;
      rows := |out|;
      act := Some(Take(at.value, out));
    }
  }
}
