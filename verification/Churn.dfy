/** The churn engine: a simulated clock, one sequence for the whole world, and a
    random mix of deletes, creates, relationship and attribute changes. */
module Churn {
  import opened Messages
  import opened Topology
  import opened World
  import Ingest
  import ColdStore

  const ATTEMPTS := 8

  /** Each message is newer than the last and names no relationship twice. */
  ghost predicate Orderly(log: seq<Message>)
  {
    && (forall i, j :: 0 <= i < j < |log| ==> log[i].sequence < log[j].sequence && log[i].time <= log[j].time)
    && (forall m :: m in log ==> DistinctTargets(m.rels))
  }

  lemma OrderlyExtends(log: seq<Message>, m: Message)
    requires Orderly(log) && DistinctTargets(m.rels)
    requires forall x :: x in log ==> x.sequence < m.sequence && x.time <= m.time
    ensures Orderly(log + [m])
  {
    forall i, j | 0 <= i < j < |log + [m]|
      ensures (log + [m])[i].sequence < (log + [m])[j].sequence && (log + [m])[i].time <= (log + [m])[j].time
    {
      assert (log + [m])[i] == log[i] && log[i] in log;
    }
  }

  /** A resource of a sound world, as a message, names no target twice. */
  lemma StatedOnce(w: World, id: Id)
    requires w.Valid() && id in w.resources
    ensures DistinctTargets(w.resources[id].rels)
  {
    assert Proper(id, w.resources[id]);
  }

  lemma StillPopulated(before: map<Kind, seq<Id>>, after: map<Kind, seq<Id>>, k: Kind)
    requires (forall t: Kind :: t in before && before[t] != []) && |before[k]| > Floor(k)
    requires forall t: Kind :: t in after && |after[t]| == |before[t]| - if t == k then 1 else 0
    ensures forall t: Kind :: t in after && after[t] != []
  {
    forall t: Kind
      ensures t in after && after[t] != []
    {
      assert t in before && before[t] != [];
    }
  }

  class Churn {
    const world: World
    var sequence: nat
    var now: int
    ghost var log: seq<Message>

    /** The world is consistent, every alive resource meets its table rows, every
        type is populated, and the emitted messages are in order. */
    ghost predicate Valid()
      reads this, world
    {
      && world.Thriving()
      && Orderly(log) && (forall m :: m in log ==> m.sequence <= sequence && m.time <= now)
    }

    constructor (world: World, epoch: int)
      requires world.Thriving()
      ensures Valid() && this.world == world && sequence == 0 && now == epoch && log == []
    {
      this.world := world;
      sequence, now, log := 0, epoch, [];
    }

    /** Mostly a hot resource, otherwise any alive one. */
    method PickTarget() returns (id: Id)
      requires world.Valid() && world.Populated()
      ensures AliveIn(world.resources, id)
    {
      var hot := *;
      if world.hotAlive != [] && hot {
        var i :| 0 <= i < |world.hotAlive|;
        return world.hotAlive[i];
      }
      assert world.aliveByType[Host] != [] && ListsAlive(world.resources, world.aliveByType[Host], Host);
      assert world.aliveByType[Host][0] in world.aliveByType[Host];
      assert world.aliveByType[Host][0] in world.aliveAll;
      var i :| 0 <= i < |world.aliveAll|;
      id := world.aliveAll[i];
    }

    function Statement(id: Id): Message
      requires id in world.resources
      reads this, world
    {
      var r := world.resources[id];
      Message(id, sequence, if r.deleted then Delete else Upsert, r.attrs, r.rels, now)
    }

    method NextMessage() returns (m: Message)
      requires Valid()
      modifies this, world
      ensures Valid() && log == old(log) + [m]
      ensures m.sequence == sequence == old(sequence) + 1 && m.time == now >= old(now)
      ensures m.id in world.resources && m == Statement(m.id)
    {
      sequence := sequence + 1;
      var wait: nat :| wait >= 0;
      now := now + wait;
      ghost var before := log;
      if {
        case true =>
          ghost var gone;
          m, gone := DeleteOne();
        case true => m := CreateOne();
        case true => m := RelChange();
        case true => m := AttrUpdate();
      }
      StatedOnce(world, m.id);
      OrderlyExtends(before, m);
      log := log + [m];
    }

    method AttrUpdate() returns (m: Message)
      requires world.Thriving()
      modifies world`resources
      ensures world.Thriving()
      ensures m.id in world.resources && m == Statement(m.id)
    {
      var id := PickTarget();
      var key: string, value: Value := *, *;
      world.SetAttr(id, key, value);
      m := Emit(id);
    }

    method RelChange() returns (m: Message)
      requires world.Thriving()
      modifies world
      ensures world.Thriving()
      ensures m.id in world.resources && m == Statement(m.id)
    {
      for i := 0 to ATTEMPTS
        invariant world.Thriving()
      {
        var id := PickTarget();
        if OwnsEdges(id.kind) {
          var rels := world.RollRelationships(id.kind);
          AllSupplied(world, id.kind);
          world.SetRelationships(id, rels);
          m := Emit(id);
          return;
        }
      }
      m := AttrUpdate();
    }

    method CreateOne() returns (m: Message)
      requires world.Thriving()
      modifies world
      ensures world.Thriving()
      ensures m.id in world.resources && m == Statement(m.id)
    {
      var k: Kind :| k in KINDS;
      var revive := *;
      var which: Option<Id> := None;
      if world.deletedByType[k] != [] && revive {
        var i :| 0 <= i < |world.deletedByType[k]|;
        which := Some(world.deletedByType[k][i]);
      }
      AllSupplied(world, k);
      var id := world.Grow(k, which);
      forall t: Kind
        ensures t in world.aliveByType && world.aliveByType[t] != []
      {
        assert |world.aliveByType[t]| >= |old(world.aliveByType)[t]|;
      }
      m := Emit(id);
    }

    method DeleteAbove(id: Id)
      requires world.Thriving() && AliveIn(world.resources, id) && |world.aliveByType[id.kind]| > Floor(id.kind)
      modifies world
      ensures world.Thriving() && id in world.resources && world.resources[id].deleted
      ensures forall t: Kind :: |world.aliveByType[t]| == |old(world.aliveByType)[t]| - if t == id.kind then 1 else 0
    {
      ghost var rs := world.resources;
      ghost var counts := world.aliveByType;
      world.Delete(id);
      StillPopulated(counts, world.aliveByType, id.kind);
      MeetsAfterDelete(world, rs, id);
    }

    /** At most one resource is deleted, and only above its type's floor, so repairs
        find a replacement. */
    method DeleteOne() returns (m: Message, ghost gone: Option<Kind>)
      requires world.Thriving()
      modifies world
      ensures world.Thriving()
      ensures gone.Some? ==> |old(world.aliveByType)[gone.value]| > Floor(gone.value)
      ensures gone.None? ==> world.aliveByType == old(world.aliveByType)
      ensures gone.Some? ==>
                forall t: Kind ::
                  |world.aliveByType[t]| == |old(world.aliveByType)[t]| - if t == gone.value then 1 else 0
      ensures m.id in world.resources && m == Statement(m.id)
    {
      for i := 0 to ATTEMPTS
        invariant world.Thriving() && world.aliveByType == old(world.aliveByType)
      {
        var id := PickTarget();
        if |world.aliveByType[id.kind]| > Floor(id.kind) {
          DeleteAbove(id);
          m := Emit(id);
          return m, Some(id.kind);
        }
      }
      m := AttrUpdate();
      gone := None;
    }

    /** The resource's whole state as the next message. */
    method Emit(id: Id) returns (m: Message)
      requires id in world.resources
      ensures m == Statement(id)
    {
      var r := world.resources[id];
      m := Message(id, sequence, if r.deleted then Delete else Upsert, r.attrs, r.rels, now);
    }
  }

  lemma AllSupplied(w: World, k: Kind)
    requires w.Populated()
    ensures w.Supplied(k)
  {
    forall kind | RuleFor(k, kind).Some? && RuleFor(k, kind).value.lo > 0
      ensures w.Offered(RuleFor(k, kind).value.targets)
    {
      var ts := RuleFor(k, kind).value.targets;
      assert ts[0] in ts && w.aliveByType[ts[0]] != [];
    }
  }

  /** What the floors are for: after a delete above the floor, every row that may
      point at the dead type still has more targets than a source can use. */
  lemma FloorsAreAmple(alive: map<Kind, seq<Id>>, src: Kind, dead: Kind)
    requires forall k: Kind :: k in alive && alive[k] != []
    requires |alive[dead]| >= Floor(dead)
    ensures Ample(alive, src, dead)
  {
    forall kind | RuleFor(src, kind).Some? && dead in RuleFor(src, kind).value.targets
      ensures AliveCount(alive, RuleFor(src, kind).value.targets) >= RuleFor(src, kind).value.hi
    {
      var ts := RuleFor(src, kind).value.targets;
      if |ts| == 1 {
        assert ts[..0] == [];
      } else {
        assert ts == [Vm, Container] && ts[..1] == [Vm] && ts[..1][..0] == [];
        assert AliveCount(alive, ts) == AliveCount(alive, [Vm]) + |alive[Container]|;
      }
    }
  }

  lemma MeetsAfterDelete(w: World, rs: Resources, dead: Id)
    requires w.Populated() && dead in w.resources && w.resources[dead].deleted
    requires |w.aliveByType[dead.kind]| >= Floor(dead.kind)
    requires AliveIn(rs, dead) && forall id :: AliveIn(rs, id) ==> Meets(id.kind, rs[id].rels)
    requires RepairedWorld(rs[dead := w.resources[dead]], w.resources, dead, {}, w.aliveByType)
    ensures w.AllMeet()
  {
    var rs' := rs[dead := w.resources[dead]];
    forall id | AliveIn(w.resources, id)
      ensures Meets(id.kind, w.resources[id].rels)
    {
      FloorsAreAmple(w.aliveByType, id.kind, dead.kind);
      assert RepairedSource(id, rs'[id], w.resources[id], dead, false, Ample(w.aliveByType, id.kind, dead.kind));
    }
  }

  /** A generated stream meets every assumption the two stores make of their
      input: no sequence is reused, time follows sequence, so that a snapshot may be
      taken at any time, and no relationship is listed twice. */
  lemma GeneratedStreamIsSafe(log: seq<Message>)
    requires Orderly(log)
    ensures Consistent(MsgSet(log)) && ColdStore.Ordered(log)
    ensures forall t :: ColdStore.Guarded(log, t)
    ensures forall m :: m in log ==> Ingest.Distinct(m.rels)
  {
    forall a, b | a in log && b in log && a.sequence <= b.sequence
      ensures a.time <= b.time && (a.sequence == b.sequence ==> a == b)
    {
      var i :| 0 <= i < |log| && log[i] == a;
      var j :| 0 <= j < |log| && log[j] == b;
      assert i <= j;
    }
    forall t {
      ColdStore.OrderedIsGuarded(log, t);
    }
  }
}
