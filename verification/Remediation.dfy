/** The privileged remediation: a compensating writer over the ingest stream,
    driven by a step machine with cooperative cancel and reverse unwind. */
module Remediation {
  import opened Messages
  import opened HotGraph
  import opened Ingest

  datatype Action = SetAttrs | DeleteNode | Unknown

  /** `preState` is what the approver saw; None if it could not be captured. */
  datatype PlannedStep = PlannedStep(action: Action, target: Id, patch: Attrs, preState: Option<NodeView>)

  // ----------------------------------------------------- the world outside

  function Edges(g: Graph, t: Id): set<Rel>
  {
    OutRels(g.edges, t)
  }

  /** `t` looks the same in both graphs. */
  ghost predicate Same(g: Graph, h: Graph, t: Id)
  {
    && (Known(g, t) <==> Known(h, t))
    && (Known(g, t) ==> h.nodes[t] == g.nodes[t])
    && Edges(h, t) == Edges(g, t)
  }

  /** `t` holds what `m` states. */
  ghost predicate Holds(g: Graph, m: Message)
  {
    && m.id in g.nodes && g.nodes[m.id] == NodeOf(m)
    && Edges(g, m.id) == set r | r in RelsOf(m)
  }

  /** No message of `sent` can change `t` any more. */
  ghost predicate Settled(g: Graph, sent: set<Message>, t: Id)
  {
    forall m :: m in sent && m.id == t ==> m.sequence <= Watermark(g, t)
  }

  /** How a store moves when only messages of `sent` reach it. */
  ghost predicate Moves(g: Graph, h: Graph, sent: set<Message>)
  {
    forall t :: Same(g, h, t) || exists m :: m in sent && m.id == t && m.sequence > Watermark(g, t) && Holds(h, m)
  }

  lemma StepMoves(g: Graph, m: Message, t: Id)
    requires WellFormed(g)
    ensures WellFormed(Step(g, m))
    ensures if t == m.id && Fresh(g, m) then Holds(Step(g, m), m) else Same(g, Step(g, m), t)
  {
    var w, h := map[m.id := m], Step(g, m);
    WriteWellFormed(g, w);
    forall r
      ensures Fresh(g, m) ==> (r in Edges(h, t) <==> if t == m.id then r in RelsOf(m) else r in Edges(g, t))
    {
      var e := Edge(t, r.kind, r.target);
      WriteEdge(g, w, e);
      assert r in Edges(h, t) <==> e in h.edges;
      assert r in Edges(g, t) <==> e in g.edges;
      assert t == m.id ==> (e in EdgesOf(m) <==> r in RelsOf(m));
    }
  }

  lemma HoldsWatermark(g: Graph, m: Message)
    requires Holds(g, m)
    ensures Watermark(g, m.id) == m.sequence
  {
  }

  lemma SameWatermarkAt(g: Graph, h: Graph, t: Id)
    requires WellFormed(g) && WellFormed(h) && Same(g, h, t)
    ensures Watermark(g, t) == Watermark(h, t)
  {
  }

  lemma MovesThenStep(g: Graph, h: Graph, sent: set<Message>, m: Message)
    requires WellFormed(g) && WellFormed(h) && Moves(g, h, sent) && m in sent
    ensures Moves(g, Step(h, m), sent)
  {
    forall t
      ensures Same(g, Step(h, m), t)
              || exists x :: x in sent && x.id == t && x.sequence > Watermark(g, t) && Holds(Step(h, m), x)
    {
      StepMoves(h, m, t);
      if Same(g, h, t) {
        SameWatermarkAt(g, h, t);
      } else {
        var x :| x in sent && x.id == t && x.sequence > Watermark(g, t) && Holds(h, x);
        HoldsWatermark(h, x);
        if !(t == m.id && Fresh(h, m)) {
          assert Holds(Step(h, m), x);
        }
      }
    }
  }

  /** The ingest stream and the store behind it. Emitted messages land late, more
      than once, out of order or never; if `others` is set, so do a third party's. */
  class Ingestion {
    const hot: HotStore
    const others: bool
    ghost var sent: set<Message>
    var queue: seq<Message>

    ghost predicate Valid()
      reads this, hot
    {
      WellFormed(hot.Contents()) && forall m :: m in queue <==> m in sent
    }

    constructor (hot: HotStore, others: bool)
      requires WellFormed(hot.Contents())
      ensures Valid() && this.hot == hot && this.others == others && sent == {}
    {
      this.hot, this.others := hot, others;
      sent, queue := {}, [];
    }

    /** Time passes. */
    method Breathe()
      requires Valid()
      modifies hot
      ensures Valid()
      ensures !others ==> Moves(old(hot.Contents()), hot.Contents(), sent)
    {
      var n: nat :| n >= 0;
      for i := 0 to n
        invariant Valid()
        invariant !others ==> Moves(old(hot.Contents()), hot.Contents(), sent)
      {
        ghost var h := hot.Contents();
        var foreign := *;
        if others && foreign {
          var m: Message := *;
          StepMoves(h, m, m.id);
          var _ := hot.Apply(m);
        } else if queue != [] {
          var j :| 0 <= j < |queue|;
          assert queue[j] in sent;
          StepMoves(h, queue[j], queue[j].id);
          if !others {
            MovesThenStep(old(hot.Contents()), h, sent, queue[j]);
          }
          var _ := hot.Apply(queue[j]);
        }
      }
    }

    method Emit(m: Message)
      requires Valid()
      modifies this, hot
      ensures Valid() && sent == old(sent) + {m}
      ensures !others ==> Moves(old(hot.Contents()), hot.Contents(), sent)
    {
      queue, sent := queue + [m], sent + {m};
      Breathe();
    }
  }

  // ------------------------------------------------------- the remediator

  /** `applied_seq or -1`: a watermark of 0 reads as no watermark. */
  function SeqOrNone(v: Option<NodeView>): int
  {
    if v.None? || v.value.appliedSeq.None? || v.value.appliedSeq.value == 0 then -1 else v.value.appliedSeq.value
  }

  predicate Confirmed(v: Option<NodeView>, sequence: nat)
  {
    v.Some? && SeqOrNone(v) >= sequence
  }

  /** A write that landed is confirmed exactly when its sequence is not zero. */
  lemma LandedIsConfirmed(g: Graph, m: Message)
    requires Holds(g, m)
    ensures Confirmed(Read(g, m.id), m.sequence) <==> m.sequence >= 1
  {
  }

  /** So a remediation of a placeholder, which writes sequence 0, lands and is
      reported as never having reached the store. */
  lemma PlaceholderWriteIsDisowned()
    ensures exists g: Graph, m: Message ::
              && WellFormed(g) && m.id in g.nodes && g.nodes[m.id] == PLACEHOLDER
              && m.sequence == 0 && Fresh(g, m) && Holds(Step(g, m), m)
              && !Confirmed(Read(Step(g, m), m.id), m.sequence)
  {
    var vm := Id(Vm, 1);
    var g := Graph(map[vm := PLACEHOLDER], {});
    var m := Message(vm, 0, Upsert, map[], [], 0);
    StepMoves(g, m, vm);
    assert Holds(Step(g, m), m);
  }

  /** When a write reaches the store it is confirmed, whoever's message is there then;
      the node holds it exactly if it was fresh or there already. */
  lemma ReachedExactly(g: Graph, m: Message)
    requires WellFormed(g) && m.sequence >= 1
    ensures Confirmed(Read(Step(g, m), m.id), m.sequence)
    ensures Holds(Step(g, m), m) <==> Fresh(g, m) || Holds(g, m)
  {
    StepMoves(g, m, m.id);
    if Fresh(g, m) {
      HoldsWatermark(Step(g, m), m);
    }
  }

  /** A rollback that loses the race for its sequence number: another writer's message
      took it first, the rollback's is discarded, and the read-back takes that for
      success. The step is reported as rolled back and is not. */
  lemma RacedRollback(g: Graph, other: Message, undo: Message)
    requires WellFormed(g) && undo.sequence == Watermark(g, undo.id) + 1 && undo.sequence >= 1
    requires other.id == undo.id && other.sequence == undo.sequence && NodeOf(other) != NodeOf(undo)
    ensures var h := Step(Step(g, other), undo);
            Confirmed(Read(h, undo.id), undo.sequence) && Holds(h, other) && !Holds(h, undo)
  {
    StepMoves(g, other, other.id);
    HoldsWatermark(Step(g, other), other);
    ReachedExactly(Step(g, other), undo);
  }

  datatype Planned = Plan(m: Message) | Refused

  datatype Applied = Landed(written: nat) | Raised

  datatype Unwound = Undone | CannotUndo | UndoRaised

  class Remediator {
    const net: Ingestion
    const attempts: nat
    const now: int
    var written: map<nat, nat>   // keyed by the step's own identity

    constructor (net: Ingestion, attempts: nat, now: int)
      ensures this.net == net && this.attempts == attempts && written == map[]
    {
      this.net, this.attempts, this.now := net, attempts, now;
      written := map[];
    }

    static method Enumerate(rels: set<Rel>) returns (list: seq<Rel>)
      ensures (set r | r in list) == rels
    {
      list := [];
      var todo := rels;
      while todo != {}
        invariant (set r | r in list) + todo == rels
        decreases todo
      {
        var r :| r in todo;
        list, todo := list + [r], todo - {r};
      }
    }

    /** The exact message a step would emit: patch merged onto the live state. */
    method PlanMessage(step: PlannedStep) returns (p: Planned)
      ensures p.Refused? <==> step.action.Unknown? || step.target !in net.hot.nodes
      ensures p.Plan? ==> p.m.id == step.target && p.m.sequence == Watermark(net.hot.Contents(), step.target) + 1
      ensures p.Plan? && step.action.DeleteNode? ==> p.m.op.Delete? && p.m.attrs == map[] && p.m.rels == []
      ensures p.Plan? && step.action.SetAttrs? ==>
                p.m.op.Upsert? && p.m.attrs == net.hot.nodes[step.target].attrs + step.patch
      ensures p.Plan? && step.action.SetAttrs? ==> (set r | r in p.m.rels) == Edges(net.hot.Contents(), step.target)
    {
      if step.action.Unknown? {
        return Refused;
      }
      var live := Read(net.hot.Contents(), step.target);
      if live.None? {
        return Refused;
      }
      var sequence := if live.value.appliedSeq.Some? then live.value.appliedSeq.value + 1 else 0;
      if step.action.DeleteNode? {
        return Plan(Message(step.target, sequence, Delete, map[], [], now));
      }
      var rels := Enumerate(live.value.rels);
      p := Plan(Message(step.target, sequence, Upsert, live.value.attrs + step.patch, rels, now));
    }

    /** Emit, then read the watermark back until it shows the write. The last look
        decides, and nothing happens after it. */
    method EmitAndConfirm(m: Message) returns (ok: bool)
      requires net.Valid()
      modifies net, net.hot
      ensures net.Valid() && net.sent == old(net.sent) + {m}
      ensures ok <==> attempts > 0 && Confirmed(Read(net.hot.Contents(), m.id), m.sequence)
      ensures !net.others ==> Moves(old(net.hot.Contents()), net.hot.Contents(), net.sent)
    {
      ghost var g := net.hot.Contents();
      net.Emit(m);
      for attempt := 0 to attempts
        invariant net.Valid() && net.sent == old(net.sent) + {m}
        invariant !net.others ==> Moves(g, net.hot.Contents(), net.sent)
        invariant attempt == attempts > 0 ==> !Confirmed(Read(net.hot.Contents(), m.id), m.sequence)
      {
        if Confirmed(Read(net.hot.Contents(), m.id), m.sequence) {
          return true;
        }
        if attempt + 1 < attempts {
          ghost var h := net.hot.Contents();
          net.Breathe();
          if !net.others {
            MovesTransitive(g, h, net.hot.Contents(), net.sent);
          }
        }
      }
      ok := false;
    }

    /** `late` is what the step emitted: if it raised, that may land at any later time. */
    method ApplyStep(step: PlannedStep, k: nat) returns (r: Applied, ghost late: Option<Message>)
      requires net.Valid()
      modifies this, net, net.hot
      ensures net.Valid() && (r.Raised? ==> written == old(written))
      ensures r.Landed? ==> written == old(written)[k := r.written]
      ensures Emitted(old(net.hot.Contents()), old(net.sent), net.sent, step, late)
      ensures r.Landed? <==>
                late.Some? && attempts > 0 && Confirmed(Read(net.hot.Contents(), step.target), late.value.sequence)
      ensures !net.others ==> Moves(old(net.hot.Contents()), net.hot.Contents(), net.sent)
      ensures !net.others && r.Landed? && Settled(old(net.hot.Contents()), old(net.sent), step.target) ==>
                Settled(net.hot.Contents(), net.sent, step.target)
                && Watermark(net.hot.Contents(), step.target) == r.written
                && r.written == Watermark(old(net.hot.Contents()), step.target) + 1
                && Effect(old(net.hot.nodes)[step.target].attrs, Edges(old(net.hot.Contents()), step.target),
                          net.hot.Contents(), step)
    {
      ghost var g := net.hot.Contents();
      late := None;
      var p := PlanMessage(step);
      if p.Refused? {
        SameMoves(g, net.sent);
        return Raised, None;
      }
      late := Some(p.m);
      var ok := EmitAndConfirm(p.m);
      if !ok {
        return Raised, late;
      }
      if !net.others && Settled(g, old(net.sent), step.target) {
        ConfirmedIsOurs(g, net.hot.Contents(), old(net.sent), p.m);
      }
      written := written[k := p.m.sequence];
      r := Landed(p.m.sequence);
    }

    /** Restore the approver's snapshot, unless the world has moved past this step.
        `undo` is the restoring write; it is emitted whenever the guard passes, and the
        rollback is reported exactly if it is read back. */
    method RollbackStep(step: PlannedStep, k: nat) returns (r: Unwound, ghost undo: Option<Message>)
      requires net.Valid()
      modifies net, net.hot
      ensures net.Valid() && net.sent == old(net.sent) + (if undo.Some? then {undo.value} else {})
      ensures undo.Some? <==> Unmoved(old(net.hot.Contents()), step, written, k)
      ensures undo.Some? ==> Undoes(undo.value, step, written[k])
      ensures r.CannotUndo? <==> undo.None?
      ensures r.Undone? <==>
                undo.Some? && attempts > 0 && Confirmed(Read(net.hot.Contents(), step.target), written[k] + 1)
      ensures !net.others ==> Moves(old(net.hot.Contents()), net.hot.Contents(), net.sent)
      ensures !net.others && Settled(old(net.hot.Contents()), old(net.sent), step.target)
              && Ours(old(net.hot.Contents()), step, written, k) ==>
                && undo.Some? && Undoing(net.hot.Contents(), net.sent, step, written[k], undo.value)
                && (r.Undone? ==> PutBack(net.hot.Contents(), net.sent, step))
                && (r.UndoRaised? && attempts > 0 ==> Watermark(net.hot.Contents(), step.target) == written[k])
    {
      ghost var g := net.hot.Contents();
      SameMoves(g, net.sent);
      undo := None;
      if step.preState.None? {
        return CannotUndo, None;
      }
      var live := Read(net.hot.Contents(), step.target);
      if k !in written || live.None? || SeqOrNone(live) != written[k] {
        return CannotUndo, None;
      }
      var snapshot := step.preState.value;
      var m := Message(step.target, written[k] + 1, Delete, map[], [], now);
      if !snapshot.deleted {
        var rels := Enumerate(snapshot.rels);
        m := Message(step.target, written[k] + 1, Upsert, snapshot.attrs, rels, now);
      }
      undo := Some(m);
      var ok := EmitAndConfirm(m);
      if !net.others && Settled(g, old(net.sent), step.target) && Ours(g, step, written, k) {
        UndoInFlight(g, net.hot.Contents(), old(net.sent), net.sent, step, written[k], m);
      }
      r := if ok then Undone else UndoRaised;
    }
  }

  /** There is a snapshot, and the target's watermark reads as what this step wrote. */
  ghost predicate Unmoved(g: Graph, step: PlannedStep, written: map<nat, nat>, k: nat)
  {
    step.preState.Some? && k in written && step.target in g.nodes && SeqOrNone(Read(g, step.target)) == written[k]
  }

  /** `m` states the approver's snapshot one above what the step wrote. */
  ghost predicate Undoes(m: Message, step: PlannedStep, w: nat)
  {
    && step.preState.Some? && m.id == step.target && m.sequence == w + 1
    && if step.preState.value.deleted then m.op.Delete? && m.attrs == map[] && m.rels == []
       else m.op.Upsert? && m.attrs == step.preState.value.attrs && (set r | r in m.rels) == step.preState.value.rels
  }

  /** The one message a step emits, a write one above the live watermark, unless the
      step is refused. */
  ghost predicate Emitted(g: Graph, before: set<Message>, after: set<Message>, step: PlannedStep, late: Option<Message>)
  {
    && (late.None? <==> step.action.Unknown? || step.target !in g.nodes)
    && after == before + (if late.Some? then {late.value} else {})
    && (late.Some? ==> late.value.id == step.target && late.value.sequence == Watermark(g, step.target) + 1)
  }

  /** At most one more message, about `t`. */
  ghost predicate Sent(before: set<Message>, after: set<Message>, t: Id)
  {
    before <= after && forall m :: m in after && m !in before ==> m.id == t
  }

  /** The snapshot is a full one of a described node, and the target still shows what
      this step made of it, under the sequence it wrote on top of it. */
  ghost predicate Ours(g: Graph, step: PlannedStep, written: map<nat, nat>, k: nat)
  {
    && step.preState.Some? && Snapshot(step.preState.value)
    && k in written && Watermark(g, step.target) == written[k]
    && step.preState.value.appliedSeq.value < written[k]
    && Effect(step.preState.value.attrs, step.preState.value.rels, g, step)
  }

  /** `g` shows what the step makes of a node of these attributes and edges: patched
      and alive with the same edges, or deleted. */
  ghost predicate Effect(attrs: Attrs, rels: set<Rel>, g: Graph, step: PlannedStep)
  {
    && Known(g, step.target)
    && match step.action
       case SetAttrs =>
         && !g.nodes[step.target].deleted && g.nodes[step.target].attrs == attrs + step.patch
         && Edges(g, step.target) == rels
       case DeleteNode =>
         g.nodes[step.target].deleted && g.nodes[step.target].attrs == map[] && Edges(g, step.target) == {}
       case Unknown => false
  }

  /** The step makes its target look other than the approver saw it. */
  predicate Changes(step: PlannedStep)
    requires step.preState.Some?
  {
    if step.action.DeleteNode? then !step.preState.value.deleted
    else step.preState.value.deleted || step.preState.value.attrs + step.patch != step.preState.value.attrs
  }

  ghost predicate Snapshot(v: NodeView)
  {
    v.appliedSeq.Some? && !v.phantom && (v.deleted ==> v.attrs == map[] && v.rels == {})
  }

  /** Attributes, edges and deleted flag as the approver saw them, under a
      strictly higher watermark. */
  ghost predicate Restored(g: Graph, step: PlannedStep)
  {
    && step.preState.Some? && step.preState.value.appliedSeq.Some? && Known(g, step.target)
    && g.nodes[step.target].attrs == step.preState.value.attrs
    && g.nodes[step.target].deleted == step.preState.value.deleted
    && Edges(g, step.target) == step.preState.value.rels
    && Watermark(g, step.target) > step.preState.value.appliedSeq.value
  }

  ghost predicate PutBack(g: Graph, sent: set<Message>, step: PlannedStep)
  {
    Restored(g, step) && Settled(g, sent, step.target)
  }

  /** The restoring write is out: nothing else in flight is newer than the step's own
      write, and the target shows what that made of it or holds the restoring one. */
  ghost predicate Undoing(g: Graph, sent: set<Message>, step: PlannedStep, w: nat, undo: Message)
  {
    && Undoes(undo, step, w) && undo in sent && Snapshot(step.preState.value)
    && step.preState.value.appliedSeq.value < w
    && (forall m :: m in sent && m.id == step.target && m != undo ==> m.sequence <= w)
    && (Holds(g, undo) || (Watermark(g, step.target) == w
                           && Effect(step.preState.value.attrs, step.preState.value.rels, g, step)))
  }

  lemma UndoInFlight(g: Graph, h: Graph, before: set<Message>, after: set<Message>, step: PlannedStep, w: nat,
                     undo: Message)
    requires WellFormed(g) && WellFormed(h) && Moves(g, h, after) && after == before + {undo}
    requires Settled(g, before, step.target) && Watermark(g, step.target) == w && Undoes(undo, step, w)
    requires Snapshot(step.preState.value) && step.preState.value.appliedSeq.value < w
    requires Effect(step.preState.value.attrs, step.preState.value.rels, g, step)
    ensures Undoing(h, after, step, w, undo)
    ensures Confirmed(Read(h, step.target), w + 1) ==> PutBack(h, after, step)
    ensures !Confirmed(Read(h, step.target), w + 1) ==> Watermark(h, step.target) == w
  {
    if Same(g, h, step.target) {
      SameWatermarkAt(g, h, step.target);
    } else {
      var x :| x in after && x.id == step.target && x.sequence > Watermark(g, step.target) && Holds(h, x);
      assert x == undo;
      LandedIsConfirmed(h, undo);
    }
    if Confirmed(Read(h, step.target), w + 1) {
      ConfirmedIsOurs(g, h, before, undo);
      HoldsWatermark(h, undo);
    }
  }

  /** A write to another target leaves it so. */
  lemma UndoingAside(g: Graph, h: Graph, before: set<Message>, after: set<Message>, step: PlannedStep, w: nat,
                     undo: Message, busy: Id)
    requires WellFormed(g) && WellFormed(h) && Moves(g, h, after) && Sent(before, after, busy) && step.target != busy
    requires Undoing(g, before, step, w, undo)
    ensures Undoing(h, after, step, w, undo)
  {
    if Same(g, h, step.target) {
      SameWatermarkAt(g, h, step.target);
    } else {
      var x :| x in after && x.id == step.target && x.sequence > Watermark(g, step.target) && Holds(h, x);
      assert x in before;
      if Holds(g, undo) {
        HoldsWatermark(g, undo);
      }
      assert x == undo;
    }
  }

  /** While the restoring write is out, the target is as the approver saw it, with
      nothing left in flight, exactly if that write landed, which its watermark shows;
      and it becomes so the moment the write lands, if it ever does. */
  lemma UndoneExactly(g: Graph, sent: set<Message>, step: PlannedStep, w: nat, undo: Message)
    requires WellFormed(g) && Undoing(g, sent, step, w, undo)
    ensures PutBack(g, sent, step) <==> Watermark(g, step.target) > w
    ensures Holds(g, undo) <==> Watermark(g, step.target) > w
    ensures var h := Step(g, undo);
            WellFormed(h) && Moves(g, h, sent) && PutBack(h, sent, step) && Undoing(h, sent, step, w, undo)
    ensures (forall h :: WellFormed(h) && Moves(g, h, sent) ==> PutBack(h, sent, step)) <==>
              Watermark(g, step.target) > w
  {
    UndoLands(g, sent, step, w, undo);
    if Holds(g, undo) {
      UndoHeld(g, sent, step, w, undo);
      forall h | WellFormed(h) && Moves(g, h, sent)
        ensures PutBack(h, sent, step)
      {
        SettledStays(g, h, sent, step.target);
        SameWatermarkAt(g, h, step.target);
      }
    } else {
      SameMoves(g, sent);
      assert !Settled(g, sent, step.target);
    }
  }

  lemma UndoHeld(g: Graph, sent: set<Message>, step: PlannedStep, w: nat, undo: Message)
    requires WellFormed(g) && Undoing(g, sent, step, w, undo) && Holds(g, undo)
    ensures PutBack(g, sent, step) && Watermark(g, step.target) == w + 1
  {
    HoldsWatermark(g, undo);
  }

  lemma UndoLands(g: Graph, sent: set<Message>, step: PlannedStep, w: nat, undo: Message)
    requires WellFormed(g) && Undoing(g, sent, step, w, undo)
    ensures var h := Step(g, undo);
            WellFormed(h) && Moves(g, h, sent) && PutBack(h, sent, step) && Undoing(h, sent, step, w, undo)
  {
    var h := Step(g, undo);
    StepMoves(g, undo, undo.id);
    SameMoves(g, sent);
    MovesThenStep(g, g, sent, undo);
    if Holds(g, undo) {
      HoldsWatermark(g, undo);
      SameWatermarkAt(g, h, step.target);
      assert Holds(h, undo);
    }
    UndoHeld(h, sent, step, w, undo);
  }

  /** A run in which the plan is unwound and its target is not: the step's write landed,
      the restoring one is out and did not arrive in time. The rollback is logged as
      failed, and if that write is lost, the target stays other than the approver saw
      it exactly if the step changed anything. */
  lemma UndoMayNotLand(g: Graph, step: PlannedStep, m: Message, undo: Message)
    requires WellFormed(g) && Pristine(g, {}, step)
    requires m.id == step.target && m.sequence == Watermark(g, step.target) + 1
    requires Effect(step.preState.value.attrs, step.preState.value.rels, Step(g, m), step)
    requires Undoes(undo, step, m.sequence)
    ensures var h := Step(g, m);
            && Undoing(h, {m, undo}, step, m.sequence, undo) && !Confirmed(Read(h, step.target), undo.sequence)
            && Moves(h, h, {m, undo}) && (Restored(h, step) <==> !Changes(step))
  {
    StepMoves(g, m, m.id);
    var h := Step(g, m);
    HoldsWatermark(h, m);
    SameMoves(h, {m, undo});
  }

  lemma SameMoves(g: Graph, sent: set<Message>)
    ensures Moves(g, g, sent)
  {
    forall t
      ensures Same(g, g, t)
    {
    }
  }

  /** With nobody else writing, a settled resource stays as it is. */
  lemma SettledStays(g: Graph, h: Graph, sent: set<Message>, t: Id)
    requires WellFormed(g) && WellFormed(h) && Moves(g, h, sent) && Settled(g, sent, t)
    ensures Same(g, h, t) && Settled(h, sent, t)
  {
    assert Same(g, h, t);
    SameWatermarkAt(g, h, t);
  }

  /** With nobody else writing, a confirmed message is the one the node holds. */
  lemma ConfirmedIsOurs(g: Graph, h: Graph, sent: set<Message>, m: Message)
    requires WellFormed(g) && WellFormed(h) && Moves(g, h, sent + {m})
    requires Settled(g, sent, m.id) && m.sequence > Watermark(g, m.id)
    requires Confirmed(Read(h, m.id), m.sequence)
    ensures Holds(h, m) && Settled(h, sent + {m}, m.id)
  {
    if Same(g, h, m.id) {
      SameWatermarkAt(g, h, m.id);
      assert false;
    }
    var x :| x in sent + {m} && x.id == m.id && x.sequence > Watermark(g, m.id) && Holds(h, x);
    assert x == m;
    HoldsWatermark(h, m);
  }

  lemma MovesTransitive(f: Graph, g: Graph, h: Graph, sent: set<Message>)
    requires WellFormed(f) && WellFormed(g) && WellFormed(h) && Moves(f, g, sent) && Moves(g, h, sent)
    ensures Moves(f, h, sent)
  {
    forall t
      ensures Same(f, h, t) || exists m :: m in sent && m.id == t && m.sequence > Watermark(f, t) && Holds(h, m)
    {
      if Same(f, g, t) {
        SameWatermarkAt(f, g, t);
      } else {
        var m :| m in sent && m.id == t && m.sequence > Watermark(f, t) && Holds(g, m);
        HoldsWatermark(g, m);
        if Same(g, h, t) {
          assert Holds(h, m);
        }
      }
    }
  }

  // ------------------------------------------------------- the step machine

  datatype Status = Started | Succeeded | Failed | RolledBack | RolledBackFailed | Irreversible | Cancelled
  {
    predicate TerminalForward() { Succeeded? || Failed? || Cancelled? }

    predicate TerminalRollback() { RolledBack? || RolledBackFailed? || Irreversible? }
  }

  datatype StepEvent = StepEvent(index: nat, status: Status)

  /** The statuses logged for one step, oldest first. */
  function PerIndex(events: seq<StepEvent>, index: nat): seq<Status>
  {
    if events == [] then []
    else
      var e := events[|events| - 1];
      PerIndex(events[..|events| - 1], index) + if e.index == index then [e.status] else []
  }

  /** The three conditions under which logging an event is an error. */
  predicate GuardFires(events: seq<StepEvent>, index: nat, status: Status)
  {
    var mine := PerIndex(events, index);
    || (status.Started? && Started in mine)
    || (status.TerminalForward() && mine != [] && mine[|mine| - 1].TerminalForward())
    || (status.TerminalRollback() && exists s :: s in mine && s.TerminalRollback())
  }

  /** `k` steps that ran and succeeded. */
  function Forward(k: nat): seq<StepEvent>
  {
    if k == 0 then [] else Forward(k - 1) + [StepEvent(k - 1, Started), StepEvent(k - 1, Succeeded)]
  }

  /** Rollback events for `k - 1`, `k - 2`, …; `fate` lists them in that order. */
  function Backward(fate: seq<Status>, k: nat): seq<StepEvent>
    requires |fate| <= k
  {
    if fate == [] then []
    else Backward(fate[..|fate| - 1], k) + [StepEvent(k - |fate|, fate[|fate| - 1])]
  }

  datatype Ending = Completed | WasCancelled | StepFailed

  function Tail(end: Ending, k: nat): seq<StepEvent>
  {
    match end
    case Completed => []
    case WasCancelled => [StepEvent(k, Cancelled)]
    case StepFailed => [StepEvent(k, Started), StepEvent(k, Failed)]
  }

  /** The log of a run over `n` steps: `k` of them succeeded, and unless that was
      all, one cancel or failure at `k` and a full reverse unwind follow. */
  ghost predicate Log(events: seq<StepEvent>, n: nat, end: Ending, k: nat, fate: seq<Status>)
  {
    && |fate| == k && (!end.Completed? ==> forall s :: s in fate ==> s.TerminalRollback())
    && (if end.Completed? then k == n else k < n)
    && events == Forward(k) + Tail(end, k) + if end.Completed? then [] else Backward(fate, k)
  }

  lemma {:induction false} PerIndexConcat(a: seq<StepEvent>, b: seq<StepEvent>, index: nat)
    ensures PerIndex(a + b, index) == PerIndex(a, index) + PerIndex(b, index)
  {
    if b == [] {
      assert a + b == a;
    } else {
      assert (a + b)[..|a + b| - 1] == a + b[..|b| - 1];
      PerIndexConcat(a, b[..|b| - 1], index);
    }
  }

  lemma PerIndexPair(a: StepEvent, b: StepEvent, index: nat)
    ensures PerIndex([a], index) == if a.index == index then [a.status] else []
    ensures PerIndex([a, b], index) == PerIndex([a], index) + PerIndex([b], index)
  {
    assert [a][..0] == [];
    PerIndexConcat([a], [b], index);
    assert [a] + [b] == [a, b];
  }

  lemma PairPerIndex(k: nat, a: Status, b: Status, index: nat)
    ensures PerIndex([StepEvent(k, a), StepEvent(k, b)], index) == if index == k then [a, b] else []
  {
    PerIndexPair(StepEvent(k, a), StepEvent(k, b), index);
    PerIndexPair(StepEvent(k, b), StepEvent(k, a), index);
  }

  lemma {:induction false} ForwardPerIndex(k: nat, index: nat)
    ensures PerIndex(Forward(k), index) == if index < k then [Started, Succeeded] else []
  {
    if k > 0 {
      ForwardPerIndex(k - 1, index);
      PerIndexConcat(Forward(k - 1), [StepEvent(k - 1, Started), StepEvent(k - 1, Succeeded)], index);
      PairPerIndex(k - 1, Started, Succeeded, index);
    }
  }

  lemma {:induction false} BackwardPerIndex(fate: seq<Status>, k: nat, index: nat)
    requires |fate| <= k
    ensures PerIndex(Backward(fate, k), index) == if k - |fate| <= index < k then [fate[k - 1 - index]] else []
  {
    if fate != [] {
      BackwardPerIndex(fate[..|fate| - 1], k, index);
    }
  }

  lemma TailPerIndex(end: Ending, k: nat, index: nat)
    ensures PerIndex(Tail(end, k), index) ==
            if index != k || end.Completed? then [] else if end.WasCancelled? then [Cancelled] else [Started, Failed]
  {
    PerIndexPair(StepEvent(k, Started), StepEvent(k, Failed), index);
    PerIndexPair(StepEvent(k, Failed), StepEvent(k, Started), index);
    PerIndexPair(StepEvent(k, Cancelled), StepEvent(k, Started), index);
  }

  /** Each step's last event. */
  function Summary(events: seq<StepEvent>): map<nat, Status>
  {
    if events == [] then map[]
    else Summary(events[..|events| - 1])[events[|events| - 1].index := events[|events| - 1].status]
  }

  lemma {:induction false} SummaryIsLast(events: seq<StepEvent>, index: nat)
    ensures index in Summary(events) <==> PerIndex(events, index) != []
    ensures index in Summary(events) ==>
              Summary(events)[index] == PerIndex(events, index)[|PerIndex(events, index)| - 1]
  {
    if events != [] {
      SummaryIsLast(events[..|events| - 1], index);
    }
  }

  /** What the summary of a finished run says of every step. */
  lemma SummaryOfLog(events: seq<StepEvent>, n: nat, end: Ending, k: nat, fate: seq<Status>, index: nat)
    requires Log(events, n, end, k, fate)
    ensures index in Summary(events) <==> index < k || (index == k && !end.Completed?)
    ensures index < k ==> Summary(events)[index] == if end.Completed? then Succeeded else fate[k - 1 - index]
    ensures index == k && !end.Completed? ==> Summary(events)[index] == if end.WasCancelled? then Cancelled else Failed
  {
    var back := if end.Completed? then [] else Backward(fate, k);
    SummaryIsLast(events, index);
    ForwardPerIndex(k, index);
    TailPerIndex(end, k, index);
    BackwardPerIndex(fate, k, index);
    PerIndexConcat(Forward(k) + Tail(end, k), back, index);
    PerIndexConcat(Forward(k), Tail(end, k), index);
  }

  class StepMachine {
    const plan: seq<PlannedStep>
    const owner: string
    const rem: Remediator
    var events: seq<StepEvent>
    var cancelRequested: bool
    var finished: bool

    constructor (plan: seq<PlannedStep>, owner: string, rem: Remediator)
      ensures this.plan == plan && this.owner == owner && this.rem == rem
      ensures events == [] && !cancelRequested && !finished
    {
      this.plan, this.owner, this.rem := plan, owner, rem;
      events, cancelRequested, finished := [], false, false;
    }

    /** Only the owner may cancel; after completion it changes nothing. */
    method Cancel(requester: string) returns (permitted: bool)
      modifies this`cancelRequested
      ensures permitted <==> requester == owner
      ensures cancelRequested == (old(cancelRequested) || (requester == owner && !finished))
    {
      if requester != owner {
        return false;
      }
      permitted := true;
      if finished {
        return;
      }
      cancelRequested := true;
    }

    /** A signal may arrive at any moment. */
    method Interruptible()
      modifies this`cancelRequested
    {
      var arrives := *;
      if arrives {
        var _ := Cancel(owner);
      }
    }

    method Emit(index: nat, status: Status)
      requires index < |plan| && !GuardFires(events, index, status)
      modifies this`events
      ensures events == old(events) + [StepEvent(index, status)]
    {
      events := events + [StepEvent(index, status)];
    }

    /** What the approver was shown still holds: every target is a described node,
        its snapshot is its state, and nothing in flight concerns it. */
    ghost predicate CleanStart()
      reads rem, rem.net, rem.net.hot
    {
      && !rem.net.others && DistinctSteps(plan)
      && forall i :: 0 <= i < |plan| ==> Pristine(rem.net.hot.Contents(), rem.net.sent, plan[i])
    }

    /** The first `k` steps ran and nothing has touched their targets since. */
    ghost predicate AllRan(k: nat)
      requires k <= |plan|
      reads rem, rem.net, rem.net.hot
    {
      && !rem.net.others && DistinctSteps(plan)
      && forall i :: 0 <= i < k ==> Ran(rem.net.hot.Contents(), rem.net.sent, rem.written, plan[i], i)
    }

    /** The steps from `k` on have not run, but for what the `k`-th emitted. */
    ghost predicate Aside(k: nat, late: Option<Message>)
      reads rem, rem.net, rem.net.hot
    {
      forall j :: k <= j < |plan| ==>
        MayLand(rem.net.hot.Contents(), rem.net.sent, plan[j], if j == k then late else None)
    }

    /** Before step `index`: those before it ran, those from it on are as shown. */
    ghost predicate Ready(index: nat)
      requires index <= |plan|
      reads rem, rem.net, rem.net.hot
    {
      AllRan(index) && Aside(index, None)
    }

    method UnwindOne(i: nat) returns (status: Status)
      requires i < |plan| && rem.net.Valid() && PerIndex(events, i) == [Started, Succeeded]
      modifies this`events, this`cancelRequested, rem.net, rem.net.hot
      ensures rem.net.Valid() && status.TerminalRollback() && events == old(events) + [StepEvent(i, status)]
      ensures Sent(old(rem.net.sent), rem.net.sent, plan[i].target)
      ensures !rem.net.others ==> Moves(old(rem.net.hot.Contents()), rem.net.hot.Contents(), rem.net.sent)
      ensures status.Irreversible? <==> !old(Unmoved(rem.net.hot.Contents(), plan[i], rem.written, i))
      ensures !status.Irreversible? ==> exists undo :: undo in rem.net.sent && Undoes(undo, plan[i], rem.written[i])
      ensures status.RolledBack? <==>
                && !status.Irreversible? && rem.attempts > 0
                && Confirmed(Read(rem.net.hot.Contents(), plan[i].target), rem.written[i] + 1)
      ensures !rem.net.others && old(Ran(rem.net.hot.Contents(), rem.net.sent, rem.written, plan[i], i)) ==>
                Redeemed(rem.net.hot.Contents(), rem.net.sent, rem.written, plan[i], i, status)
    {
      Interruptible();
      var r: Unwound := CannotUndo;
      ghost var undo: Option<Message> := None;
      if plan[i].preState.None? {
        SameMoves(rem.net.hot.Contents(), rem.net.sent);
      } else {
        r, undo := rem.RollbackStep(plan[i], i);
      }
      status := match r case CannotUndo => Irreversible case UndoRaised => RolledBackFailed case Undone => RolledBack;
      Emit(i, status);
    }

    /** Reverse order, best effort, never stopping early. */
    method Unwind(k: nat, ghost late: Option<Message>) returns (ghost fate: seq<Status>)
      requires k <= |plan| && rem.net.Valid()
      requires forall i :: 0 <= i < k ==> PerIndex(events, i) == [Started, Succeeded]
      modifies this`events, this`cancelRequested, rem.net, rem.net.hot
      ensures rem.net.Valid() && |fate| == k && events == old(events) + Backward(fate, k)
      ensures forall s :: s in fate ==> s.TerminalRollback()
      ensures old(AllRan(k)) ==> forall i :: 0 <= i < k ==>
                Redeemed(rem.net.hot.Contents(), rem.net.sent, rem.written, plan[i], i, fate[k - 1 - i])
      ensures old(AllRan(k) && Aside(k, late)) ==> Aside(k, late)
    {
      ghost var clean, aside := AllRan(k), AllRan(k) && Aside(k, late);
      fate := [];
      for i := k downto 0
        invariant rem.net.Valid() && |fate| == k - i && events == old(events) + Backward(fate, k)
        invariant forall s :: s in fate ==> s.TerminalRollback()
        invariant clean ==> AllRan(i)
        invariant clean ==> forall j :: i <= j < k ==>
                    Redeemed(rem.net.hot.Contents(), rem.net.sent, rem.written, plan[j], j, fate[k - 1 - j])
        invariant aside ==> Aside(k, late)
      {
        ghost var g, before := rem.net.hot.Contents(), rem.net.sent;
        NoRollbackYet(old(events), fate, k, i);
        var status := UnwindOne(i);
        assert (fate + [status])[..|fate|] == fate;
        if clean {
          forall j | 0 <= j < k && j != i
            ensures j < i ==> Ran(rem.net.hot.Contents(), rem.net.sent, rem.written, plan[j], j)
            ensures j > i ==>
                      Redeemed(rem.net.hot.Contents(), rem.net.sent, rem.written, plan[j], j, fate[k - 1 - j])
          {
            StepAside(g, rem.net.hot.Contents(), before, rem.net.sent, rem.written, plan[j], j, plan[i].target);
          }
        }
        if aside {
          AsideStays(g, before, k, late, i);
        }
        fate := fate + [status];
      }
    }

    method ApplyOne(index: nat) returns (ok: bool, ghost late: Option<Message>)
      requires index < |plan| && rem.net.Valid()
      modifies rem, rem.net, rem.net.hot
      ensures rem.net.Valid()
      ensures old(Ready(index)) ==> if ok then Ready(index + 1) else AllRan(index) && Aside(index, late)
      ensures old(Ready(index)) ==> (late.None? <==> plan[index].action.Unknown?)
    {
      ghost var clean := Ready(index);
      ghost var g, before := rem.net.hot.Contents(), rem.net.sent;
      assert clean ==> MayLand(g, before, plan[index], None);
      var r;
      r, late := rem.ApplyStep(plan[index], index);
      ok := r.Landed?;
      if clean {
        forall j | 0 <= j < |plan| && j != index
          ensures j < index ==> Ran(rem.net.hot.Contents(), rem.net.sent, rem.written, plan[j], j)
          ensures j > index ==> MayLand(rem.net.hot.Contents(), rem.net.sent, plan[j], None)
        {
          assert j > index ==> MayLand(g, before, plan[j], None);
          StepAside(g, rem.net.hot.Contents(), before, rem.net.sent, rem.written, plan[j], j, plan[index].target);
        }
        if !ok {
          FailedMayLand(g, rem.net.hot.Contents(), before, rem.net.sent, plan[index], late);
        }
      }
    }

    method RunOne(index: nat) returns (ok: bool, ghost late: Option<Message>)
      requires index < |plan| && rem.net.Valid() && events == Forward(index)
      modifies this`events, this`cancelRequested, rem, rem.net, rem.net.hot
      ensures rem.net.Valid()
      ensures ok ==> events == Forward(index + 1)
      ensures !ok ==> events == Forward(index) + Tail(StepFailed, index)
      ensures old(Ready(index)) ==> if ok then Ready(index + 1) else AllRan(index) && Aside(index, late)
      ensures old(Ready(index)) ==> (late.None? <==> plan[index].action.Unknown?)
    {
      MayRun(index);
      Emit(index, Started);
      ok, late := ApplyOne(index);
      Interruptible();
      if ok {
        Emit(index, Succeeded);
      } else {
        Emit(index, Failed);
      }
    }

    /** Unwinding one target leaves the steps aside as they are. */
    lemma AsideStays(g: Graph, before: set<Message>, k: nat, late: Option<Message>, i: nat)
      requires i < k <= |plan| && DistinctSteps(plan) && WellFormed(g) && WellFormed(rem.net.hot.Contents())
      requires Moves(g, rem.net.hot.Contents(), rem.net.sent) && Sent(before, rem.net.sent, plan[i].target)
      requires forall j :: k <= j < |plan| ==> MayLand(g, before, plan[j], if j == k then late else None)
      ensures Aside(k, late)
    {
      forall j | k <= j < |plan|
        ensures MayLand(rem.net.hot.Contents(), rem.net.sent, plan[j], if j == k then late else None)
      {
        LandsAside(g, rem.net.hot.Contents(), before, rem.net.sent, plan[j],
                   if j == k then late else None, plan[i].target);
      }
    }

    /** Each step before `k` is restored if it is called rolled back and being restored
        if not, and none is called irreversible; those from `k` on are as shown, but for
        `late`. */
    ghost predicate Accounted(k: nat, fate: seq<Status>, late: Option<Message>)
      reads rem, rem.net, rem.net.hot
    {
      && |fate| == k <= |plan| && Aside(k, late)
      && forall i :: 0 <= i < k ==>
           Redeemed(rem.net.hot.Contents(), rem.net.sent, rem.written, plan[i], i, fate[k - 1 - i])
    }

    /** A run that was cancelled or failed at `k` unwinds what ran before. */
    method Abandon(end: Ending, k: nat, ghost late: Option<Message>) returns (ghost fate: seq<Status>)
      requires k < |plan| && rem.net.Valid() && !end.Completed? && events == Forward(k) + Tail(end, k)
      modifies this, rem.net, rem.net.hot
      ensures rem.net.Valid() && finished && Log(events, |plan|, end, k, fate)
      ensures old(AllRan(k) && Aside(k, late)) ==> Accounted(k, fate, late)
    {
      ForwardRan(k);
      StillRan(Forward(k), Tail(end, k), k);
      fate := Unwind(k, late);
      finished := true;
    }

    /** Run the plan. Whatever the timing of a cancel and the outcome of each apply
        and rollback, the log has the one legal shape and no guard ever fires. From
        a clean start with no other writer, a completed run leaves every target as its
        step makes it; otherwise each step the log calls rolled back is
        restored, for each whose rollback failed the restoring write is out, and none
        is called irreversible. Of the targets from the failing
        or cancelled step on, all stay as the approver saw them but the failing
        one's, on which the write it emitted may land. */
    method Execute() returns (ghost end: Ending, ghost k: nat, ghost fate: seq<Status>, ghost late: Option<Message>)
      requires rem.net.Valid() && events == [] && !finished
      modifies this, rem, rem.net, rem.net.hot
      ensures rem.net.Valid() && finished && Log(events, |plan|, end, k, fate)
      ensures old(CleanStart()) ==> if end.Completed? then AllRan(k) else Accounted(k, fate, late)
      ensures old(CleanStart()) ==> (late.Some? <==> end.StepFailed? && !plan[k].action.Unknown?)
    {
      ghost var clean := CleanStart();
      late := None;
      for index := 0 to |plan|
        invariant rem.net.Valid() && events == Forward(index)
        invariant clean ==> Ready(index)
      {
        k := index;
        Interruptible();
        if cancelRequested {
          ForwardPerIndex(index, index);
          Emit(index, Cancelled);
          end := WasCancelled;
          fate := Abandon(WasCancelled, index, None);
          return;
        }
        ghost var emitted;
        var ok;
        ok, emitted := RunOne(index);
        if !ok {
          end, late := StepFailed, emitted;
          fate := Abandon(StepFailed, index, emitted);
          return;
        }
      }
      finished, end, k := true, Completed, |plan|;
      fate := seq(|plan|, _ => Succeeded);
    }
  }

  /** No guard stands in the way of the next step's two events. */
  lemma MayRun(k: nat)
    ensures !GuardFires(Forward(k), k, Started)
    ensures var log := Forward(k) + [StepEvent(k, Started)];
            && !GuardFires(log, k, Succeeded) && !GuardFires(log, k, Failed)
            && log + [StepEvent(k, Succeeded)] == Forward(k + 1)
            && log + [StepEvent(k, Failed)] == Forward(k) + Tail(StepFailed, k)
  {
    ForwardPerIndex(k, k);
    PerIndexPair(StepEvent(k, Started), StepEvent(k, Failed), k);
    PerIndexConcat(Forward(k), [StepEvent(k, Started)], k);
    assert PerIndex(Forward(k) + [StepEvent(k, Started)], k) == [Started];
  }

  lemma ForwardRan(k: nat)
    ensures forall i :: 0 <= i < k ==> PerIndex(Forward(k), i) == [Started, Succeeded]
  {
    forall i | 0 <= i < k
      ensures PerIndex(Forward(k), i) == [Started, Succeeded]
    {
      ForwardPerIndex(k, i);
    }
  }

  lemma StillRan(front: seq<StepEvent>, tail: seq<StepEvent>, k: nat)
    requires forall i :: 0 <= i < k ==> PerIndex(front, i) == [Started, Succeeded]
    requires forall e :: e in tail ==> e.index == k
    ensures forall i :: 0 <= i < k ==> PerIndex(front + tail, i) == [Started, Succeeded]
  {
    forall i | 0 <= i < k
      ensures PerIndex(front + tail, i) == [Started, Succeeded]
    {
      PerIndexConcat(front, tail, i);
      NoneOf(tail, k, i);
    }
  }

  lemma {:induction false} NoneOf(tail: seq<StepEvent>, k: nat, i: nat)
    requires i != k && forall e :: e in tail ==> e.index == k
    ensures PerIndex(tail, i) == []
  {
    if tail != [] {
      NoneOf(tail[..|tail| - 1], k, i);
    }
  }

  ghost predicate DistinctSteps(plan: seq<PlannedStep>)
  {
    forall i, j :: 0 <= i < j < |plan| ==> plan[i].target != plan[j].target
  }

  /** Not yet run: the snapshot is the live state of a described node. */
  ghost predicate Pristine(g: Graph, sent: set<Message>, step: PlannedStep)
  {
    && step.preState.Some? && Snapshot(step.preState.value)
    && Read(g, step.target) == step.preState && Settled(g, sent, step.target)
  }

  /** A step that did not run, or raised after it emitted `late`: its target is as
      the approver saw it or holds that write, and nothing else is in flight. */
  ghost predicate MayLand(g: Graph, sent: set<Message>, step: PlannedStep, late: Option<Message>)
  {
    if late.None? then Pristine(g, sent, step)
    else
      && step.preState.Some? && Snapshot(step.preState.value) && late.value in sent && late.value.id == step.target
      && late.value.sequence == step.preState.value.appliedSeq.value + 1
      && (forall m :: m in sent && m.id == step.target && m != late.value ==>
            m.sequence <= step.preState.value.appliedSeq.value)
      && (Read(g, step.target) == step.preState || Holds(g, late.value))
  }

  lemma FailedMayLand(g: Graph, h: Graph, before: set<Message>, after: set<Message>, step: PlannedStep,
                      late: Option<Message>)
    requires WellFormed(g) && WellFormed(h) && Pristine(g, before, step)
    requires Emitted(g, before, after, step, late) && Moves(g, h, after)
    ensures MayLand(h, after, step, late)
  {
    if late.None? {
      SettledStays(g, h, after, step.target);
    } else if !Same(g, h, step.target) {
      var x :| x in after && x.id == step.target && x.sequence > Watermark(g, step.target) && Holds(h, x);
      assert x == late.value;
    }
  }

  /** A write to another target leaves it so. */
  lemma LandsAside(g: Graph, h: Graph, before: set<Message>, after: set<Message>, step: PlannedStep,
                   late: Option<Message>, busy: Id)
    requires WellFormed(g) && WellFormed(h) && Moves(g, h, after) && Sent(before, after, busy) && step.target != busy
    requires MayLand(g, before, step, late)
    ensures MayLand(h, after, step, late)
  {
    if late.None? {
      OthersStay(g, h, before, after, step.target, busy);
    } else if !Same(g, h, step.target) {
      var x :| x in after && x.id == step.target && x.sequence > Watermark(g, step.target) && Holds(h, x);
      assert x in before;
      if Read(g, step.target) == step.preState {
        assert x == late.value;
      } else {
        HoldsWatermark(g, late.value);
        assert false;
      }
    }
  }

  /** The target of a step that raised is as the approver saw it exactly while its
      watermark is, and is sure to stay so exactly if the step emitted nothing. */
  lemma FailedStaysExactly(g: Graph, sent: set<Message>, step: PlannedStep, late: Option<Message>)
    requires WellFormed(g) && MayLand(g, sent, step, late)
    ensures Read(g, step.target) == step.preState <==> Watermark(g, step.target) == step.preState.value.appliedSeq.value
    ensures (forall h :: WellFormed(h) && Moves(g, h, sent) ==> Read(h, step.target) == step.preState) <==> late.None?
  {
    if late.None? {
      forall h | WellFormed(h) && Moves(g, h, sent)
        ensures Read(h, step.target) == step.preState
      {
        SettledStays(g, h, sent, step.target);
      }
    } else {
      FailedWriteLands(g, sent, step, late.value);
    }
  }

  /** A run in which it does not: the write arrives after the step was logged as
      failed and everything before it was unwound, and nothing undoes it. */
  lemma FailedWriteLands(g: Graph, sent: set<Message>, step: PlannedStep, m: Message)
    requires WellFormed(g) && MayLand(g, sent, step, Some(m))
    ensures var h := Step(g, m);
            && WellFormed(h) && Moves(g, h, sent) && MayLand(h, sent, step, Some(m))
            && Holds(h, m) && Read(h, step.target) != step.preState
  {
    var h := Step(g, m);
    StepMoves(g, m, m.id);
    SameMoves(g, sent);
    MovesThenStep(g, g, sent, m);
    if Holds(g, m) {
      HoldsWatermark(g, m);
    }
    HoldsWatermark(h, m);
  }

  /** Ran, and its target untouched since. */
  ghost predicate Ran(g: Graph, sent: set<Message>, written: map<nat, nat>, step: PlannedStep, i: nat)
  {
    Ours(g, step, written, i) && Settled(g, sent, step.target)
  }

  /** What a step's last event says of its target: put back if it was rolled back, and
      if that failed the restoring write is out all the same. Nothing is irreversible. */
  ghost predicate Redeemed(g: Graph, sent: set<Message>, written: map<nat, nat>, step: PlannedStep, i: nat,
                           fate: Status)
  {
    && !fate.Irreversible? && i in written
    && (fate.RolledBack? ==> PutBack(g, sent, step))
    && (fate.RolledBackFailed? ==> exists undo :: undo in sent && Undoing(g, sent, step, written[i], undo))
  }

  /** So an executed target is as the approver saw it, with nothing left in flight,
      exactly if its rollback was reported or its watermark passed what the step wrote. */
  lemma PutBackExactly(g: Graph, sent: set<Message>, written: map<nat, nat>, step: PlannedStep, i: nat, fate: Status)
    requires WellFormed(g) && fate.TerminalRollback() && Redeemed(g, sent, written, step, i, fate)
    ensures PutBack(g, sent, step) <==> fate.RolledBack? || Watermark(g, step.target) > written[i]
  {
    if fate.RolledBackFailed? {
      var undo :| undo in sent && Undoing(g, sent, step, written[i], undo);
      UndoneExactly(g, sent, step, written[i], undo);
    }
  }

  /** A write to one target changes nothing about a step with another. */
  lemma StepAside(g: Graph, h: Graph, before: set<Message>, after: set<Message>, written: map<nat, nat>,
                  step: PlannedStep, i: nat, busy: Id)
    requires WellFormed(g) && WellFormed(h) && Moves(g, h, after) && Sent(before, after, busy) && step.target != busy
    ensures MayLand(g, before, step, None) ==> MayLand(h, after, step, None)
    ensures Ran(g, before, written, step, i) ==> Ran(h, after, written, step, i)
    ensures forall fate: Status ::
              Redeemed(g, before, written, step, i, fate) ==> Redeemed(h, after, written, step, i, fate)
  {
    if Settled(g, before, step.target) {
      OthersStay(g, h, before, after, step.target, busy);
      SameWatermarkAt(g, h, step.target);
    }
    if undo :| i in written && undo in before && Undoing(g, before, step, written[i], undo) {
      UndoingAside(g, h, before, after, step, written[i], undo, busy);
    }
  }

  lemma NoRollbackYet(events: seq<StepEvent>, fate: seq<Status>, k: nat, i: nat)
    requires |fate| <= k && i == k - |fate| - 1 && PerIndex(events, i) == [Started, Succeeded]
    ensures PerIndex(events + Backward(fate, k), i) == [Started, Succeeded]
  {
    PerIndexConcat(events, Backward(fate, k), i);
    BackwardPerIndex(fate, k, i);
  }

  /** A write to one target leaves the settled others alone. */
  lemma OthersStay(g: Graph, h: Graph, before: set<Message>, after: set<Message>, t: Id, busy: Id)
    requires WellFormed(g) && WellFormed(h) && Moves(g, h, after) && Sent(before, after, busy)
    requires t != busy && Settled(g, before, t)
    ensures Same(g, h, t) && Settled(h, after, t)
  {
    forall m | m in after && m.id == t
      ensures m.sequence <= Watermark(g, t)
    {
      assert m in before;
    }
    SettledStays(g, h, after, t);
  }

  // ------------------------------------------------------ what the guard means

  /** If no two writers ever give one resource the same sequence, the rollback's
      check that the watermark is the written one means the node is still ours. */
  lemma GuardIsExact(g: Graph, delivered: set<Message>, m: Message)
    requires Reflects(g, delivered) && Consistent(delivered + {m})
    requires Watermark(g, m.id) == m.sequence
    ensures g.nodes[m.id] == NodeOf(m) && forall e :: e in EdgesOf(m) ==> e in g.edges
  {
    assert Known(g, m.id);
    var x :| x in delivered && x.id == m.id;
    var top := LatestExists(delivered, x);
    assert top == m;
  }

  /** If a third party used the same sequence and came first, the step's write is
      discarded and still confirmed, the guard passes, and the rollback overwrites
      the third party's statement. */
  lemma SameSequenceIsClobbered(g: Graph, theirs: Message, ours: Message, undo: Message)
    requires WellFormed(g) && theirs.id == ours.id == undo.id
    requires theirs.sequence == ours.sequence == Watermark(g, ours.id) + 1 && ours.sequence >= 1
    requires undo.sequence == ours.sequence + 1
    ensures var h := Step(Step(g, theirs), ours);
            && Holds(h, theirs) && Confirmed(Read(h, ours.id), ours.sequence)
            && SeqOrNone(Read(h, ours.id)) == ours.sequence
            && Holds(Step(h, undo), undo)
  {
    StepMoves(g, theirs, theirs.id);
    var h := Step(g, theirs);
    HoldsWatermark(h, theirs);
    StepMoves(h, undo, undo.id);
  }
}
