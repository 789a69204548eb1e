/** The generator's world: resources, four kinds of incrementally kept sorted
    index, and a reverse-dependency index that makes repair after a delete
    proportional to the dependents. Random draws are arbitrary choices. */
module World {
  import opened Messages
  import opened Topology

  datatype Resource = Resource(kind: Kind, attrs: Attrs, rels: seq<Rel>, deleted: bool)

  type Resources = map<Id, Resource>

  const KINDS := {Asg, Container, Db, Host, Lb, Sg, Vm}

  predicate AliveIn(rs: Resources, id: Id)
  {
    id in rs && !rs[id].deleted
  }

  /** The sources that own an edge to `t`. */
  function Reverse(rs: Resources, t: Id): set<Id>
  {
    set s | s in rs && t in Targets(rs[s].rels)
  }

  function Deps(rdeps: map<Id, set<Id>>, t: Id): set<Id>
  {
    if t in rdeps then rdeps[t] else {}
  }

  predicate Proper(id: Id, r: Resource)
  {
    && r.kind == id.kind
    && (r.deleted ==> r.rels == [] && r.attrs == map[])
    && Fits(id.kind, r.rels)
  }

  /** `resources` alone: alive resources own fitting edges, and a dead resource
      owns none. An edge may point at the dead only from a source in `waiting`. */
  ghost predicate Sound(rs: Resources, dead: Option<Id>, waiting: set<Id>)
  {
    && (forall id :: id in rs ==> Proper(id, rs[id]))
    && (forall s, t :: s in rs && t in Targets(rs[s].rels) ==> AliveIn(rs, t) || (dead == Some(t) && s in waiting))
  }

  /** Every id was minted: numbers run from one to the kind's counter. */
  ghost predicate Numbered(rs: Resources, counters: map<Kind, nat>)
  {
    (forall k: Kind :: k in counters) && forall id :: id in rs ==> 1 <= id.num <= counters[id.kind]
  }

  ghost predicate ListsAlive(rs: Resources, ids: seq<Id>, k: Kind)
  {
    Sorted(ids) && forall id :: id in ids <==> AliveIn(rs, id) && id.kind == k
  }

  ghost predicate ListsDeleted(rs: Resources, ids: seq<Id>, k: Kind)
  {
    Sorted(ids) && forall id :: id in ids <==> id in rs && rs[id].deleted && id.kind == k
  }

  ghost predicate ListsHot(rs: Resources, hotSet: set<Id>, ids: seq<Id>)
  {
    && Sorted(ids) && (forall id :: id in ids <==> AliveIn(rs, id) && id in hotSet)
    && (forall id :: id in hotSet ==> id in rs)
  }

  ghost predicate ListsAll(rs: Resources, ids: seq<Id>)
  {
    Sorted(ids) && forall id :: id in ids <==> AliveIn(rs, id)
  }

  /** The lists index exactly the alive and the deleted resources. */
  ghost predicate Listed(rs: Resources, all: seq<Id>, alive: map<Kind, seq<Id>>, deleted: map<Kind, seq<Id>>,
                         hotSet: set<Id>, hotAlive: seq<Id>)
  {
    && ListsAll(rs, all) && ListsHot(rs, hotSet, hotAlive)
    && (forall k: Kind :: k in alive && ListsAlive(rs, alive[k], k))
    && (forall k: Kind :: k in deleted && ListsDeleted(rs, deleted[k], k))
  }

  /** One dependent before and after the repair: the edge to `dead` is retargeted
      to something not already taken, or dropped. */
  ghost predicate Repaired(before: seq<Rel>, after: seq<Rel>, dead: Id)
  {
    exists d :: 0 <= d < |before| && before[d].target == dead &&
      (after == before[..d] + before[d + 1..] ||
       exists id :: id !in Targets(before) && after == before[d := Rel(before[d].kind, id)])
  }

  function AliveCount(alive: map<Kind, seq<Id>>, targets: seq<Kind>): nat
    requires forall k: Kind :: k in alive
  {
    if targets == [] then 0
    else AliveCount(alive, targets[..|targets| - 1]) + |alive[targets[|targets| - 1]]|
  }

  /** Enough alive targets for a full row of edges, even after losing one. */
  predicate Ample(alive: map<Kind, seq<Id>>, src: Kind, dead: Kind)
    requires forall k: Kind :: k in alive
  {
    forall kind :: RuleFor(src, kind).Some? && dead in RuleFor(src, kind).value.targets ==>
      AliveCount(alive, RuleFor(src, kind).value.targets) >= RuleFor(src, kind).value.hi
  }

  class World {
    var resources: Resources
    var counters: map<Kind, nat>
    var aliveAll: seq<Id>
    var aliveByType: map<Kind, seq<Id>>
    var deletedByType: map<Kind, seq<Id>>
    var rdeps: map<Id, set<Id>>
    var hotSet: set<Id>
    var hotAlive: seq<Id>

    ghost predicate Indexed()
      reads this`resources, this`aliveAll, this`aliveByType, this`deletedByType, this`hotSet, this`hotAlive
    {
      Listed(resources, aliveAll, aliveByType, deletedByType, hotSet, hotAlive)
    }

    /** Everything the world promises between two calls: exact indexes, exact
        reverse dependencies, and no edge to a dead resource. */
    ghost predicate Valid()
      reads this
    {
      && Sound(resources, None, {}) && (forall k: Kind :: k in counters)
      && Indexed() && Traced()
    }

    /** The reverse index is exact. */
    ghost predicate Traced()
      reads this`resources, this`rdeps
    {
      forall t :: Deps(rdeps, t) == Reverse(resources, t)
    }

    /** Every alive resource owns, per table row, at least the row's minimum. */
    ghost predicate AllMeet()
      reads this`resources
    {
      forall id :: AliveIn(resources, id) ==> Meets(id.kind, resources[id].rels)
    }

    ghost predicate Populated()
      reads this
    {
      forall k: Kind :: k in aliveByType && aliveByType[k] != []
    }

    /** Valid, minted throughout, and within the table's minimums. */
    ghost predicate Founded()
      reads this
    {
      Valid() && AllMeet() && Numbered(resources, counters)
    }

    ghost predicate Thriving()
      reads this
    {
      Founded() && Populated()
    }

    /** At least one resource of each type, targets before sources, then the hot set. */
    constructor (sizes: Kind -> nat)
      ensures Thriving()
      ensures hotSet != {} && forall id :: id in hotSet ==> AliveIn(resources, id)
      ensures |hotSet| == if |aliveAll| / 20 > 1 then |aliveAll| / 20 else 1
    {
      resources, rdeps, aliveAll := map[], map[], [];
      counters := map k | k in KINDS :: 0;
      aliveByType := map k | k in KINDS :: [];
      deletedByType := map k | k in KINDS :: [];
      hotSet, hotAlive := {}, [];
      new;
      AllKinds();
      NothingListed();
      assert forall t :: Deps(rdeps, t) == {} && Reverse(resources, t) == {};
      SeedWorld(sizes);
      ChooseHot();
    }

    /** The hot twentieth, at least one. */
    method ChooseHot()
      requires Thriving()
      modifies this`hotSet, this`hotAlive
      ensures Thriving()
      ensures hotSet != {} && forall id :: id in hotSet ==> AliveIn(resources, id)
      ensures |hotSet| == if |aliveAll| / 20 > 1 then |aliveAll| / 20 else 1
    {
      assert ListsAlive(resources, aliveByType[Host], Host) && aliveByType[Host][0] in aliveByType[Host];
      assert aliveByType[Host][0] in aliveAll;
      hotAlive := Sample(aliveAll, if |aliveAll| / 20 > 1 then |aliveAll| / 20 else 1);
      hotSet := set id | id in hotAlive;
      SortedSize(hotAlive);
      assert hotAlive[0] in hotSet;
    }

    method SeedWorld(sizes: Kind -> nat)
      requires Founded() && hotSet == {}
      modifies this
      ensures Thriving() && hotSet == {}
    {
      for i := 0 to |CREATION_ORDER|
        invariant Founded() && hotSet == {}
        invariant forall j :: 0 <= j < i ==> aliveByType[CREATION_ORDER[j]] != []
      {
        var k := CREATION_ORDER[i];
        var n := if sizes(k) > 1 then sizes(k) else 1;
        TargetsComeFirst(i);
        for c := 0 to n
          invariant Founded() && hotSet == {}
          invariant forall j :: 0 <= j < i ==> aliveByType[CREATION_ORDER[j]] != []
          invariant c > 0 ==> aliveByType[k] != []
        {
          assert Supplied(k);
          var _ := Grow(k, None);
        }
      }
      forall k: Kind
        ensures k in aliveByType && aliveByType[k] != []
      {
        var j := PlaceInOrder(k);
      }
    }

    /** One more resource, new or revived, of a kind whose mandatory rows have targets. */
    method Grow(k: Kind, revive: Option<Id>) returns (rid: Id)
      requires Founded() && Supplied(k) && (revive.Some? ==> revive.value in deletedByType[k])
      modifies this
      ensures Founded() && hotSet == old(hotSet) && AliveIn(resources, rid)
      ensures forall t: Kind :: |aliveByType[t]| == |old(aliveByType)[t]| + if t == k then 1 else 0
    {
      NextIsFree(resources, counters, k);
      assert revive.Some? ==> ListsDeleted(resources, deletedByType[k], k);
      ghost var rs := resources;
      rid := Create(k, revive);
      assert Valid();
      OneMore(old(aliveByType), rid);
      StillNumbered(rs, resources, old(counters), counters, rid);
      assert AllMeet() by {
        forall id | AliveIn(resources, id)
          ensures Meets(id.kind, resources[id].rels)
        {
          assert id == rid || AliveIn(rs, id);
        }
      }
    }

    /** The alive resources of the listed types. */
    method AliveOf(targets: seq<Kind>) returns (pool: seq<Id>)
      requires Indexed()
      ensures Sorted(pool) && forall id :: id in pool <==> AliveIn(resources, id) && id.kind in targets
      ensures (forall i, j :: 0 <= i < j < |targets| ==> targets[i] != targets[j]) ==>
                |pool| == AliveCount(aliveByType, targets)
    {
      if |targets| == 1 {
        assert targets[..0] == [] && ListsAlive(resources, aliveByType[targets[0]], targets[0]);
        return aliveByType[targets[0]];
      }
      pool := [];
      for i := 0 to |targets|
        invariant Sorted(pool)
        invariant forall id :: id in pool <==> AliveIn(resources, id) && id.kind in targets[..i]
        invariant (forall a, b :: 0 <= a < b < |targets| ==> targets[a] != targets[b]) ==>
                    |pool| == AliveCount(aliveByType, targets[..i])
      {
        assert targets[..i + 1] == targets[..i] + [targets[i]];
        assert ListsAlive(resources, aliveByType[targets[i]], targets[i]);
        pool := MergeIn(pool, aliveByType[targets[i]]);
      }
      assert targets[..|targets|] == targets;
    }

    static method MergeIn(pool: seq<Id>, ids: seq<Id>) returns (merged: seq<Id>)
      requires Sorted(pool) && Sorted(ids)
      ensures Sorted(merged) && forall id :: id in merged <==> id in pool || id in ids
      ensures (forall id :: id in pool ==> id !in ids) ==> |merged| == |pool| + |ids|
    {
      merged := pool;
      for j := 0 to |ids|
        invariant Sorted(merged) && forall id :: id in merged <==> id in pool || id in ids[..j]
        invariant (forall id :: id in pool ==> id !in ids) ==> |merged| == |pool| + j
      {
        assert ids[..j + 1] == ids[..j] + [ids[j]];
        if ids[j] !in merged {
          merged := Insort(merged, ids[j]);
        }
      }
      assert ids[..|ids|] == ids;
    }

    /** `k` different members of the pool, sorted. */
    static method Sample(pool: seq<Id>, k: nat) returns (chosen: seq<Id>)
      requires Sorted(pool) && k <= |pool|
      ensures Sorted(chosen) && |chosen| == k && forall id :: id in chosen ==> id in pool
    {
      chosen := [];
      var rest := pool;
      while |chosen| < k
        invariant Sorted(chosen) && Sorted(rest) && |chosen| + |rest| == |pool| && |chosen| <= k
        invariant forall id :: id in chosen || id in rest ==> id in pool
        invariant forall id :: id in chosen ==> id !in rest
      {
        var i :| 0 <= i < |rest|;
        chosen, rest := Insort(chosen, rest[i]), Remove(rest, rest[i]);
      }
    }

    method IndexAdd(src: Id, rels: seq<Rel>)
      modifies this`rdeps
      ensures forall t :: Deps(rdeps, t) == Deps(old(rdeps), t) + if t in Targets(rels) then {src} else {}
    {
      for i := 0 to |rels|
        invariant forall t :: Deps(rdeps, t) == Deps(old(rdeps), t) + if t in Targets(rels[..i]) then {src} else {}
      {
        assert rels[..i + 1] == rels[..i] + [rels[i]];
        var t := rels[i].target;
        rdeps := rdeps[t := Deps(rdeps, t) + {src}];
      }
      assert rels[..|rels|] == rels;
    }

    method IndexRemove(src: Id, rels: seq<Rel>)
      modifies this`rdeps
      ensures forall t :: Deps(rdeps, t) == Deps(old(rdeps), t) - if t in Targets(rels) then {src} else {}
    {
      for i := 0 to |rels|
        invariant forall t :: Deps(rdeps, t) == Deps(old(rdeps), t) - if t in Targets(rels[..i]) then {src} else {}
      {
        assert rels[..i + 1] == rels[..i] + [rels[i]];
        var t := rels[i].target;
        if t in rdeps {
          rdeps := rdeps[t := rdeps[t] - {src}];
        }
      }
      assert rels[..|rels|] == rels;
    }

    /** Fresh edges for a resource of type `k`, table row by table row. Each row
        gets a count within its bounds unless its pool is empty. */
    method RollRelationships(k: Kind) returns (rels: seq<Rel>)
      requires Indexed()
      ensures Fits(k, rels) && forall t :: t in Targets(rels) ==> AliveIn(resources, t)
      ensures Supplied(k) ==> Meets(k, rels)
    {
      rels := [];
      for i := 0 to |REL_ORDER|
        invariant DistinctTargets(rels)
        invariant forall r :: r in rels ==> Allowed(k, r) && r.kind in REL_ORDER[..i] && AliveIn(resources, r.target)
        invariant forall kind :: kind !in REL_ORDER[..i] ==> Count(rels, kind) == 0
        invariant forall kind :: RuleFor(k, kind).Some? ==> Count(rels, kind) <= RuleFor(k, kind).value.hi
        invariant Supplied(k) ==> forall kind :: kind in REL_ORDER[..i] && RuleFor(k, kind).Some? ==>
                                    Count(rels, kind) >= RuleFor(k, kind).value.lo
      {
        var kind := REL_ORDER[i];
        assert REL_ORDER[..i + 1] == REL_ORDER[..i] + [kind];
        assert kind !in REL_ORDER[..i];
        if RuleFor(k, kind).Some? {
          rels := RollRow(k, kind, rels);
        }
      }
      assert REL_ORDER[..|REL_ORDER|] == REL_ORDER && forall kind :: kind in REL_ORDER;
    }

    /** Every row that demands an edge of a `k` has a target to offer. */
    ghost predicate Supplied(k: Kind)
      requires forall t: Kind :: t in aliveByType
      reads this`aliveByType
    {
      forall kind :: RuleFor(k, kind).Some? && RuleFor(k, kind).value.lo > 0 ==> Offered(RuleFor(k, kind).value.targets)
    }

    ghost predicate Offered(targets: seq<Kind>)
      requires forall t: Kind :: t in aliveByType
      reads this`aliveByType
    {
      exists t :: t in targets && aliveByType[t] != []
    }

    /** One table row: a random number of edges within its bounds, as far as the
        pool of alive targets goes. */
    method RollRow(k: Kind, kind: RelKind, rels: seq<Rel>) returns (out: seq<Rel>)
      requires Indexed() && RuleFor(k, kind).Some?
      requires DistinctTargets(rels)
      requires forall r :: r in rels ==> Allowed(k, r) && r.kind != kind && AliveIn(resources, r.target)
      ensures DistinctTargets(out)
      ensures forall r :: r in out ==> r in rels || (r.kind == kind && Allowed(k, r) && AliveIn(resources, r.target))
      ensures forall c :: c != kind ==> Count(out, c) == Count(rels, c)
      ensures Count(rels, kind) == 0 ==> Count(out, kind) <= RuleFor(k, kind).value.hi
      ensures RuleFor(k, kind).value.lo == 0 || Offered(RuleFor(k, kind).value.targets) ==>
                Count(out, kind) >= RuleFor(k, kind).value.lo
    {
      var rule := RuleFor(k, kind).value;
      var pool := AliveOf(rule.targets);
      var n: nat :| rule.lo <= n <= rule.hi;
      var chosen := Sample(pool, if n <= |pool| then n else |pool|);
      out := AddEdges(k, kind, rels, chosen);
      if Offered(rule.targets) {
        var t :| t in rule.targets && aliveByType[t] != [];
        assert aliveByType[t][0] in aliveByType[t];
        assert aliveByType[t][0] in pool;
        LowsAreSmall(k, kind);
      }
    }

    static method AddEdges(k: Kind, kind: RelKind, rels: seq<Rel>, chosen: seq<Id>) returns (out: seq<Rel>)
      requires RuleFor(k, kind).Some? && Sorted(chosen)
      requires forall id :: id in chosen ==> id.kind in RuleFor(k, kind).value.targets
      requires DistinctTargets(rels) && forall r :: r in rels ==> Allowed(k, r) && r.kind != kind
      ensures DistinctTargets(out)
      ensures forall r :: r in out <==> r in rels || (r.kind == kind && r.target in chosen)
      ensures forall c :: Count(out, c) == Count(rels, c) + if c == kind then |chosen| else 0
    {
      out := rels;
      for j := 0 to |chosen|
        invariant DistinctTargets(out)
        invariant forall r :: r in out <==> r in rels || (r.kind == kind && r.target in chosen[..j])
        invariant forall c :: Count(out, c) == Count(rels, c) + if c == kind then j else 0
      {
        assert chosen[..j + 1] == chosen[..j] + [chosen[j]];
        forall r | r in out
          ensures r.target != chosen[j]
        {
          if r in rels {
            TargetsApart(k, r, Rel(kind, chosen[j]));
          }
        }
        assert (out + [Rel(kind, chosen[j])])[..|out|] == out;
        out := out + [Rel(kind, chosen[j])];
      }
      assert chosen[..|chosen|] == chosen;
    }

    /** Replace the edges of an alive resource, index included. */
    method SetRelationships(id: Id, rels: seq<Rel>)
      requires Valid() && AliveIn(resources, id)
      requires Fits(id.kind, rels) && forall t :: t in Targets(rels) ==> AliveIn(resources, t)
      modifies this`resources, this`rdeps
      ensures Valid() && resources == old(resources)[id := old(resources)[id].(rels := rels)]
    {
      ghost var r := resources[id].(rels := rels);
      IndexRemove(id, resources[id].rels);
      resources := resources[id := resources[id].(rels := rels)];
      IndexAdd(id, rels);
      UpdateSound(old(resources), id, r);
      forall t
        ensures Deps(rdeps, t) == Reverse(resources, t)
      {
        UpdateReverse(old(resources), id, r, t);
      }
      UpdateListed(old(resources), id, r, aliveAll, aliveByType, deletedByType, hotSet, hotAlive);
    }

    method SetAttr(id: Id, key: string, value: Value)
      requires Valid() && AliveIn(resources, id)
      modifies this`resources
      ensures Valid()
      ensures resources == old(resources)[id := old(resources)[id].(attrs := old(resources)[id].attrs[key := value])]
    {
      ghost var r := resources[id].(attrs := resources[id].attrs[key := value]);
      resources := resources[id := resources[id].(attrs := resources[id].attrs[key := value])];
      UpdateSound(old(resources), id, r);
      forall t
        ensures Deps(rdeps, t) == Reverse(resources, t)
      {
        UpdateReverse(old(resources), id, r, t);
      }
      UpdateListed(old(resources), id, r, aliveAll, aliveByType, deletedByType, hotSet, hotAlive);
    }

    /** Mint a new resource, revive a deleted one under its own id, or create the id
        given. The next number of the kind is minted without a look at what is there:
        the world stays valid exactly if that number was free, as it is while every
        id was minted. A resource that had it is overwritten all the same, its old
        edges stay indexed, and the lists name it twice or as deleted too. */
    method Create(k: Kind, given: Option<Id>) returns (rid: Id)
      requires Valid()
      requires given.Some? ==> given.value.kind == k && !AliveIn(resources, given.value)
      modifies this`counters, this`resources, this`rdeps
      modifies this`deletedByType, this`hotAlive, this`aliveAll, this`aliveByType
      ensures rid == if given.Some? then given.value else Id(k, old(counters)[k] + 1)
      ensures counters == if given.Some? then old(counters) else old(counters)[k := old(counters)[k] + 1]
      ensures Valid() <==> given.Some? || rid !in old(resources)
      ensures AliveIn(resources, rid) && resources == old(resources)[rid := resources[rid]]
      ensures Sound(resources, None, {}) && (old(Supplied(k)) ==> Meets(k, resources[rid].rels))
      ensures Lined(old(aliveAll), old(aliveByType), rid) && Traces(old(rdeps), rid)
      ensures given.None? || rid !in old(resources) ==> deletedByType == old(deletedByType) && hotAlive == old(hotAlive)
    {
      var revived := given.Some? && given.value in resources;
      if given.None? {
        rid := Mint(k);
      } else {
        rid := given.value;
      }
      var r := Roll(k);
      Install(rid, r, revived);
    }

    method Mint(k: Kind) returns (rid: Id)
      requires k in counters
      modifies this`counters
      ensures counters == old(counters)[k := old(counters)[k] + 1] && rid == Id(k, counters[k])
    {
      counters := counters[k := counters[k] + 1];
      rid := Id(k, counters[k]);
    }

    /** How the alive lists of before took in `rid`. */
    ghost predicate Lined(all: seq<Id>, alive: map<Kind, seq<Id>>, rid: Id)
      reads this`aliveAll, this`aliveByType
    {
      && Sorted(all) && aliveAll == Insort(all, rid)
      && (forall t: Kind :: t in alive && t in aliveByType)
      && Sorted(alive[rid.kind]) && aliveByType == alive[rid.kind := Insort(alive[rid.kind], rid)]
    }

    /** How the reverse index of before took in the edges of `rid`. */
    ghost predicate Traces(deps: map<Id, set<Id>>, rid: Id)
      requires rid in resources
      reads this`resources, this`rdeps
    {
      forall t :: Deps(rdeps, t) == Deps(deps, t) + if t in Targets(resources[rid].rels) then {rid} else {}
    }

    /** Put a resource under `rid`, whatever is there, and enlist it. */
    method Install(rid: Id, r: Resource, revived: bool)
      requires Sound(resources, None, {}) && Indexed() && Traced()
      requires revived ==> rid in resources && !AliveIn(resources, rid)
      requires Proper(rid, r) && !r.deleted && forall t :: t in Targets(r.rels) ==> AliveIn(resources, t)
      modifies this`resources, this`rdeps, this`deletedByType, this`hotAlive, this`aliveAll, this`aliveByType
      ensures resources == old(resources)[rid := r] && Sound(resources, None, {})
      ensures (Indexed() <==> revived || rid !in old(resources)) && (!AliveIn(old(resources), rid) ==> Traced())
      ensures Lined(old(aliveAll), old(aliveByType), rid) && Traces(old(rdeps), rid)
      ensures !revived ==> deletedByType == old(deletedByType) && hotAlive == old(hotAlive)
    {
      Put(rid, r);
      EnlistCreated(rid, revived, old(resources));
    }

    /** A resource of kind `k` with arbitrary attributes and rolled edges. */
    method Roll(k: Kind) returns (r: Resource)
      requires Indexed()
      ensures Fits(k, r.rels) && r == Resource(k, r.attrs, r.rels, false)
      ensures (forall t :: t in Targets(r.rels) ==> AliveIn(resources, t)) && (Supplied(k) ==> Meets(k, r.rels))
    {
      var attrs: Attrs := *;
      var rels := RollRelationships(k);
      r := Resource(k, attrs, rels, false);
    }

    /** Store a resource and index its edges. The index stays exact where no alive
        resource is overwritten. */
    method Put(rid: Id, r: Resource)
      requires Sound(resources, None, {}) && Traced()
      requires Proper(rid, r) && !r.deleted && forall t :: t in Targets(r.rels) ==> AliveIn(resources, t)
      modifies this`resources, this`rdeps
      ensures resources == old(resources)[rid := r]
      ensures Traces(old(rdeps), rid) && Sound(resources, None, {})
      ensures !AliveIn(old(resources), rid) ==> Traced()
    {
      resources := resources[rid := r];
      IndexAdd(rid, r.rels);
      UpdateSound(old(resources), rid, r);
      if !AliveIn(old(resources), rid) {
        forall t
          ensures Deps(rdeps, t) == Reverse(resources, t)
        {
          UpdateReverse(old(resources), rid, r, t);
          assert rid !in Reverse(old(resources), t) by {
            if rid in old(resources) { assert Proper(rid, old(resources)[rid]); }
          }
        }
      }
    }

    /** Retarget the one edge of `src` that points at `dead`, or drop it if no
        free target is alive. */
    method RepairOne(src: Id, dead: Id)
      requires Indexed() && AliveIn(resources, src) && !AliveIn(resources, dead)
      requires Fits(src.kind, resources[src].rels) && dead in Targets(resources[src].rels)
      modifies this`resources, this`rdeps
      ensures AliveIn(resources, src)
      ensures resources == old(resources)[src := old(resources)[src].(rels := resources[src].rels)]
      ensures Repaired(old(resources)[src].rels, resources[src].rels, dead)
      ensures Ample(aliveByType, src.kind, dead.kind) ==> |resources[src].rels| == |old(resources)[src].rels|
      ensures forall r :: r in resources[src].rels && r !in old(resources)[src].rels ==>
                            Allowed(src.kind, r) && AliveIn(old(resources), r.target)
      ensures forall t :: Deps(rdeps, t) == Deps(old(rdeps), t) +
                            (if t in Targets(resources[src].rels) && t !in Targets(old(resources)[src].rels)
                             then {src} else {})
    {
      var rels := resources[src].rels;
      var repaired, d, repl := Rewire(src, rels, dead);
      RepairedTargets(rels, repaired, d, repl);
      resources := resources[src := resources[src].(rels := repaired)];
    }

    method Rewire(src: Id, rels: seq<Rel>, dead: Id) returns (repaired: seq<Rel>, ghost d: nat, ghost repl: Option<Id>)
      requires Indexed() && !AliveIn(resources, dead) && Fits(src.kind, rels) && dead in Targets(rels)
      modifies this`rdeps
      ensures d < |rels| && rels[d].target == dead
      ensures repl.None? ==> repaired == rels[..d] + rels[d + 1..] && !Ample(aliveByType, src.kind, dead.kind)
      ensures repl.Some? ==> repaired == rels[d := Rel(rels[d].kind, repl.value)] && repl.value !in Targets(rels)
      ensures repl.Some? ==> AliveIn(resources, repl.value) && Allowed(src.kind, Rel(rels[d].kind, repl.value))
      ensures forall t :: Deps(rdeps, t) == Deps(old(rdeps), t) + if repl == Some(t) then {src} else {}
    {
      repaired, repl := [], None;
      d :| 0 <= d < |rels| && rels[d].target == dead;
      for i := 0 to |rels|
        invariant i <= d ==> repl.None? && repaired == rels[..i]
        invariant i > d && repl.None? ==>
                    repaired == rels[..d] + rels[d + 1..i] && !Ample(aliveByType, src.kind, dead.kind)
        invariant i > d && repl.Some? ==> repaired == rels[..i][d := Rel(rels[d].kind, repl.value)]
        invariant repl.Some? ==> repl.value !in Targets(rels) && AliveIn(resources, repl.value)
                                 && Allowed(src.kind, Rel(rels[d].kind, repl.value))
        invariant rdeps ==
                    if repl.None? then old(rdeps) else old(rdeps)[repl.value := Deps(old(rdeps), repl.value) + {src}]
      {
        if rels[i].target != dead {
          repaired := repaired + [rels[i]];
        } else {
          assert i == d;
          var x := Draw(src.kind, rels, i);
          repl := x;
          if x.Some? {
            repaired := repaired + [Rel(rels[i].kind, x.value)];
            rdeps := rdeps[x.value := Deps(rdeps, x.value) + {src}];
          }
        }
      }
    }

    /** Any untaken target for the edge at `d`, none exactly where there is none. */
    method Draw(src: Kind, rels: seq<Rel>, d: nat) returns (x: Option<Id>)
      requires Indexed() && d < |rels| && Fits(src, rels) && !AliveIn(resources, rels[d].target)
      ensures x.Some? ==>
                AliveIn(resources, x.value) && x.value !in Targets(rels) && Allowed(src, Rel(rels[d].kind, x.value))
      ensures x.None? ==> !Ample(aliveByType, src, rels[d].target.kind)
    {
      var pool := Untaken(src, rels, d);
      if pool == [] {
        return None;
      }
      var j :| 0 <= j < |pool|;
      assert pool[j] in pool;
      x := Some(pool[j]);
    }

    /** Alive targets the row allows that the source does not already use. */
    method Untaken(src: Kind, rels: seq<Rel>, d: nat) returns (pool: seq<Id>)
      requires Indexed() && d < |rels| && Fits(src, rels) && !AliveIn(resources, rels[d].target)
      ensures forall id :: id in pool ==>
                AliveIn(resources, id) && id !in Targets(rels) && Allowed(src, Rel(rels[d].kind, id))
      ensures Ample(aliveByType, src, rels[d].target.kind) ==> pool != []
    {
      assert Allowed(src, rels[d]);
      var all := AliveOf(RuleFor(src, rels[d].kind).value.targets);
      pool := [];
      for i := 0 to |all|
        invariant forall id :: id in pool <==> id in all[..i] && id !in Targets(rels)
      {
        assert all[..i + 1] == all[..i] + [all[i]];
        if all[i] !in Targets(rels) {
          pool := pool + [all[i]];
        }
      }
      assert all[..|all|] == all;
      if Ample(aliveByType, src, rels[d].target.kind) {
        var x := SpareTarget(src, rels, d, all);
        assert x in pool;
      }
    }

    /** Repair every dependent of a resource that just died. */
    method RepairDangling(dead: Id)
      requires Indexed() && dead in resources && !AliveIn(resources, dead)
      requires Sound(resources, Some(dead), Reverse(resources, dead)) && forall k: Kind :: k in counters
      requires Traced()
      modifies this`resources, this`rdeps
      ensures Valid()
      ensures RepairedWorld(old(resources), resources, dead, {}, aliveByType)
    {
      var todo := Deps(rdeps, dead);
      rdeps := rdeps - {dead};
      NoneRepaired(resources, dead, todo, aliveByType);
      DepsWithout(old(rdeps), dead);
      RepairAll(dead, todo);
      assert Traced();
      NoneWaiting(resources, dead);
    }

    method RepairAll(dead: Id, dependents: set<Id>)
      requires Indexed() && !AliveIn(resources, dead) && Midway(dead, dependents)
      requires RepairedWorld(resources, resources, dead, dependents, aliveByType)
      modifies this`resources, this`rdeps
      ensures Indexed() && Midway(dead, {})
      ensures RepairedWorld(old(resources), resources, dead, {}, aliveByType)
    {
      var todo := dependents;
      while todo != {}
        invariant Indexed() && !AliveIn(resources, dead) && Midway(dead, todo)
        invariant RepairedWorld(old(resources), resources, dead, todo, aliveByType)
        decreases todo
      {
        var src :| src in todo;
        RepairOneMore(old(resources), src, dead, todo);
        todo := todo - {src};
      }
    }

    method RepairOneMore(ghost was: Resources, src: Id, dead: Id, ghost todo: set<Id>)
      requires Indexed() && !AliveIn(resources, dead) && Midway(dead, todo) && src in todo
      requires RepairedWorld(was, resources, dead, todo, aliveByType)
      modifies this`resources, this`rdeps
      ensures Indexed() && !AliveIn(resources, dead) && Midway(dead, todo - {src})
      ensures RepairedWorld(was, resources, dead, todo - {src}, aliveByType)
    {
      ghost var rs := resources;
      RepairNext(src, dead, todo);
      RepairedMore(was, rs, resources, dead, todo, src, aliveByType);
    }

    /** Between two repairs: exactly the sources in `todo` still point at `dead`. */
    ghost predicate Midway(dead: Id, todo: set<Id>)
      reads this
    {
      && Sound(resources, Some(dead), todo)
      && Deps(rdeps, dead) == {} && Reverse(resources, dead) == todo
      && forall t :: t != dead ==> Deps(rdeps, t) == Reverse(resources, t)
    }

    method RepairNext(src: Id, dead: Id, ghost todo: set<Id>)
      requires Indexed() && !AliveIn(resources, dead) && Midway(dead, todo) && src in todo
      modifies this`resources, this`rdeps
      ensures Indexed() && !AliveIn(resources, dead) && Midway(dead, todo - {src})
      ensures AliveIn(resources, src) && resources == old(resources)[src := resources[src]]
      ensures RepairedSource(src, old(resources)[src], resources[src], dead, false,
                             Ample(aliveByType, src.kind, dead.kind))
    {
      ghost var rs := resources;
      assert Proper(src, rs[src]);
      RepairOne(src, dead);
      ghost var r := resources[src];
      RepairedFits(src.kind, rs[src].rels, r.rels, dead);
      RepairSound(rs, dead, todo, src, r);
      UpdateListed(rs, src, r, aliveAll, aliveByType, deletedByType, hotSet, hotAlive);
      forall t
        ensures Reverse(resources, t) == if t == dead then todo - {src} else Deps(rdeps, t)
      {
        UpdateReverse(rs, src, r, t);
      }
    }

    /** Tombstone an alive resource; its dependents are repaired at once. */
    method Delete(rid: Id)
      requires Valid() && AliveIn(resources, rid)
      modifies this
      ensures Valid() && hotSet == old(hotSet) && counters == old(counters)
      ensures rid in resources && resources[rid] == Resource(rid.kind, map[], [], true)
      ensures RepairedWorld(old(resources)[rid := resources[rid]], resources, rid, {}, aliveByType)
      ensures forall t: Kind ::
                t in aliveByType && |aliveByType[t]| == |old(aliveByType)[t]| - if t == rid.kind then 1 else 0
    {
      assert Proper(rid, resources[rid]);
      ghost var r := Resource(rid.kind, map[], [], true);
      IndexRemove(rid, resources[rid].rels);
      resources := resources[rid := resources[rid].(deleted := true, attrs := map[], rels := [])];
      forall t
        ensures Deps(rdeps, t) == Reverse(resources, t)
      {
        UpdateReverse(old(resources), rid, r, t);
      }
      DelistDeleted(rid, old(resources));
      BurySound(old(resources), rid, r);
      RepairDangling(rid);
    }

    /** The index half of a deletion. */
    method DelistDeleted(rid: Id, ghost rs: Resources)
      requires AliveIn(rs, rid) && rid in resources && resources[rid].deleted
      requires resources == rs[rid := resources[rid]]
      requires Listed(rs, aliveAll, aliveByType, deletedByType, hotSet, hotAlive)
      modifies this`deletedByType, this`hotAlive, this`aliveAll, this`aliveByType
      ensures Indexed()
      ensures forall t: Kind :: t in aliveByType
                && |aliveByType[t]| == |old(aliveByType)[t]| - if t == rid.kind then 1 else 0
    {
      ghost var k0 := rid.kind;
      assert ListsAlive(rs, aliveByType[k0], k0) && ListsDeleted(rs, deletedByType[k0], k0);
      aliveAll := Remove(aliveAll, rid);
      aliveByType := aliveByType[rid.kind := Remove(aliveByType[rid.kind], rid)];
      if rid in hotSet {
        hotAlive := Remove(hotAlive, rid);
      }
      deletedByType := deletedByType[rid.kind := Insort(deletedByType[rid.kind], rid)];
      DelistAll(rs, resources, rid, old(aliveAll), hotSet, old(hotAlive));
      forall k: Kind
        ensures ListsAlive(resources, aliveByType[k], k) && ListsDeleted(resources, deletedByType[k], k)
      {
        DelistKind(rs, resources, rid, old(aliveByType)[k], old(deletedByType)[k], k);
      }
    }

    /** The index half of a creation: exact again exactly if nothing was overwritten
        that the lists already name. */
    method EnlistCreated(rid: Id, revived: bool, ghost rs: Resources)
      requires AliveIn(resources, rid) && (revived ==> rid in rs && !AliveIn(rs, rid))
      requires resources == rs[rid := resources[rid]]
      requires Listed(rs, aliveAll, aliveByType, deletedByType, hotSet, hotAlive)
      modifies this`deletedByType, this`hotAlive, this`aliveAll, this`aliveByType
      ensures Indexed() <==> revived || rid !in rs
      ensures Lined(old(aliveAll), old(aliveByType), rid)
      ensures !revived ==> deletedByType == old(deletedByType) && hotAlive == old(hotAlive)
    {
      Enlisted(rs, resources, rid, revived, aliveAll, aliveByType, deletedByType, hotSet, hotAlive);
      if revived {
        deletedByType := deletedByType[rid.kind := Remove(deletedByType[rid.kind], rid)];
        if rid in hotSet {
          hotAlive := Insort(hotAlive, rid);
        }
      }
      aliveAll := Insort(aliveAll, rid);
      aliveByType := aliveByType[rid.kind := Insort(aliveByType[rid.kind], rid)];
    }
  }

  /** The lists after a creation index the resources exactly if nothing was
      overwritten that they already name. */
  lemma Enlisted(rs: Resources, rs': Resources, x: Id, revived: bool, all: seq<Id>, alive: map<Kind, seq<Id>>,
                 deleted: map<Kind, seq<Id>>, hotSet: set<Id>, hot: seq<Id>)
    requires AliveIn(rs', x) && rs' == rs[x := rs'[x]] && (revived ==> x in rs && !AliveIn(rs, x))
    requires Listed(rs, all, alive, deleted, hotSet, hot)
    ensures Sorted(all) && Sorted(hot) && ListsAlive(rs, alive[x.kind], x.kind)
    ensures Sorted(deleted[x.kind]) && (revived ==> x in deleted[x.kind])
    ensures revived || x !in rs <==>
              Listed(rs', Insort(all, x), alive[x.kind := Insort(alive[x.kind], x)],
                     if revived then deleted[x.kind := Remove(deleted[x.kind], x)] else deleted,
                     hotSet, if revived && x in hotSet then Insort(hot, x) else hot)
  {
    assert ListsAlive(rs, alive[x.kind], x.kind) && ListsDeleted(rs, deleted[x.kind], x.kind);
    var alive' := alive[x.kind := Insort(alive[x.kind], x)];
    if x in rs && !revived {
      OverwrittenTwice(rs, rs', x, all, deleted[x.kind]);
      assert !Listed(rs', Insort(all, x), alive', deleted, hotSet, hot);
    } else {
      EnlistedFree(rs, rs', x, all, alive, deleted, hotSet, hot, alive',
                   if revived then deleted[x.kind := Remove(deleted[x.kind], x)] else deleted,
                   if revived && x in hotSet then Insort(hot, x) else hot);
    }
  }

  lemma EnlistedFree(rs: Resources, rs': Resources, x: Id, all: seq<Id>, alive: map<Kind, seq<Id>>,
                     deleted: map<Kind, seq<Id>>, hotSet: set<Id>, hot: seq<Id>,
                     alive': map<Kind, seq<Id>>, deleted': map<Kind, seq<Id>>, hot': seq<Id>)
    requires !AliveIn(rs, x) && AliveIn(rs', x) && rs' == rs[x := rs'[x]]
    requires Listed(rs, all, alive, deleted, hotSet, hot)
    requires Sorted(alive[x.kind]) && alive' == alive[x.kind := Insort(alive[x.kind], x)]
    requires Sorted(deleted[x.kind]) && (x in rs ==> x in deleted[x.kind])
    requires deleted' == if x in rs then deleted[x.kind := Remove(deleted[x.kind], x)] else deleted
    requires hot' == if x in rs && x in hotSet then Insort(hot, x) else hot
    ensures Listed(rs', Insort(all, x), alive', deleted', hotSet, hot')
  {
    EnlistAll(rs, rs', x, all, hotSet, hot);
    forall k: Kind
      ensures k in alive' && ListsAlive(rs', alive'[k], k) && k in deleted' && ListsDeleted(rs', deleted'[k], k)
    {
      assert ListsAlive(rs, alive[k], k) && ListsDeleted(rs, deleted[k], k);
      EnlistKind(rs, rs', x, alive[k], deleted[k], k);
    }
  }

  /** An id that is there already ends up listed alive twice, or alive and deleted. */
  lemma OverwrittenTwice(rs: Resources, rs': Resources, x: Id, all: seq<Id>, deleted: seq<Id>)
    requires x in rs && AliveIn(rs', x) && ListsAll(rs, all) && ListsDeleted(rs, deleted, x.kind)
    ensures !Sorted(Insort(all, x)) || !ListsDeleted(rs', deleted, x.kind)
  {
    if AliveIn(rs, x) {
      assert x in all;
    } else {
      assert x in deleted;
    }
  }

  lemma StillNumbered(rs: Resources, rs': Resources, counters: map<Kind, nat>, counters': map<Kind, nat>, x: Id)
    requires Numbered(rs, counters) && rs'.Keys == rs.Keys + {x}
    requires (forall k: Kind :: k in counters' && counters'[k] >= counters[k])
    requires x in rs || (x.num == counters'[x.kind] && x.num >= 1)
    ensures Numbered(rs', counters')
  {
  }

  lemma OneMore(alive: map<Kind, seq<Id>>, x: Id)
    requires (forall t: Kind :: t in alive) && Sorted(alive[x.kind])
    ensures var alive' := alive[x.kind := Insort(alive[x.kind], x)];
            forall t: Kind :: t in alive' && |alive'[t]| == |alive[t]| + if t == x.kind then 1 else 0
  {
  }

  lemma NothingListed()
    ensures Listed(map[], [], map k | k in KINDS :: [], map k | k in KINDS :: [], {}, [])
  {
    AllKinds();
  }

  /** While every id was minted, the next number is free. */
  lemma NextIsFree(rs: Resources, counters: map<Kind, nat>, k: Kind)
    requires Numbered(rs, counters)
    ensures Id(k, counters[k] + 1) !in rs
  {
  }

  lemma EnlistAll(rs: Resources, rs': Resources, x: Id, all: seq<Id>, hotSet: set<Id>, hot: seq<Id>)
    requires !AliveIn(rs, x) && AliveIn(rs', x) && rs' == rs[x := rs'[x]]
    requires ListsAll(rs, all) && ListsHot(rs, hotSet, hot)
    ensures ListsAll(rs', Insort(all, x)) && ListsHot(rs', hotSet, if x in hotSet then Insort(hot, x) else hot)
    ensures x in hotSet ==> x in rs
  {
    assert forall id :: AliveIn(rs', id) <==> AliveIn(rs, id) || id == x;
  }

  lemma EnlistKind(rs: Resources, rs': Resources, x: Id, alive: seq<Id>, deleted: seq<Id>, k: Kind)
    requires !AliveIn(rs, x) && AliveIn(rs', x) && rs' == rs[x := rs'[x]]
    requires ListsAlive(rs, alive, k) && ListsDeleted(rs, deleted, k)
    ensures ListsAlive(rs', if k == x.kind then Insort(alive, x) else alive, k)
    ensures ListsDeleted(rs', if k == x.kind && x in rs then Remove(deleted, x) else deleted, k)
  {
    assert forall id :: AliveIn(rs', id) <==> AliveIn(rs, id) || id == x;
    assert forall id :: id in rs' && rs'[id].deleted <==> id in rs && rs[id].deleted && id != x;
  }

  lemma RepairedTargets(rels: seq<Rel>, repaired: seq<Rel>, d: nat, repl: Option<Id>)
    requires d < |rels| && DistinctTargets(rels)
    requires repl.None? ==> repaired == rels[..d] + rels[d + 1..]
    requires repl.Some? ==> repaired == rels[d := Rel(rels[d].kind, repl.value)] && repl.value !in Targets(rels)
    ensures Repaired(rels, repaired, rels[d].target)
    ensures forall t :: t in Targets(repaired) <==> (t in Targets(rels) && t != rels[d].target) || repl == Some(t)
    ensures forall r :: r in repaired <==>
              (r in rels && r != rels[d]) || (repl.Some? && r == Rel(rels[d].kind, repl.value))
  {
    forall r
      ensures r in repaired <==> (r in rels && r != rels[d]) || (repl.Some? && r == Rel(rels[d].kind, repl.value))
    {
      if r in rels && r != rels[d] {
        var i :| 0 <= i < |rels| && rels[i] == r;
        assert r == if repl.Some? || i < d then repaired[i] else repaired[i - 1];
      }
      if r in repaired {
        var i :| 0 <= i < |repaired| && repaired[i] == r;
      }
      if repl.Some? {
        assert repaired[d] == Rel(rels[d].kind, repl.value);
      }
    }
    forall t
      ensures t in Targets(repaired) <==> (t in Targets(rels) && t != rels[d].target) || repl == Some(t)
    {
      if t in Targets(rels) && t != rels[d].target {
        var r :| r in rels && r.target == t;
        assert r in repaired;
      }
      if repl == Some(t) {
        assert Rel(rels[d].kind, t) in repaired;
      }
    }
  }

  lemma RepairedDistinct(rels: seq<Rel>, repaired: seq<Rel>, d: nat, repl: Option<Id>)
    requires d < |rels| && DistinctTargets(rels)
    requires repl.None? ==> repaired == rels[..d] + rels[d + 1..]
    requires repl.Some? ==> repaired == rels[d := Rel(rels[d].kind, repl.value)] && repl.value !in Targets(rels)
    ensures DistinctTargets(repaired)
  {
    assert forall i :: 0 <= i < |rels| ==> rels[i].target in Targets(rels);
    if repl.None? {
      assert forall i :: 0 <= i < |repaired| ==> repaired[i] == if i < d then rels[i] else rels[i + 1];
    }
  }

  lemma {:induction false} SortedSize(ids: seq<Id>)
    requires Sorted(ids)
    ensures |set id | id in ids| == |ids|
  {
    var S := set id | id in ids;
    if ids != [] {
      var k := |ids| - 1;
      assert ids == ids[..k] + [ids[k]];
      SortedSize(ids[..k]);
      assert ids[k] !in ids[..k];
      assert S == (set id | id in ids[..k]) + {ids[k]};
    }
  }

  /** A full pool always offers a target the source does not use yet. */
  lemma SpareTarget(src: Kind, rels: seq<Rel>, d: nat, pool: seq<Id>) returns (x: Id)
    requires d < |rels| && Fits(src, rels) && Sorted(pool) && rels[d].target !in pool
    requires RuleFor(src, rels[d].kind).Some? && |pool| >= RuleFor(src, rels[d].kind).value.hi
    requires forall id :: id in pool ==> id.kind in RuleFor(src, rels[d].kind).value.targets
    ensures x in pool && x !in Targets(rels)
  {
    var kind := rels[d].kind;
    var P := set id | id in pool;
    var R := set r | r in rels && r.kind == kind :: r.target;
    SortedSize(pool);
    TargetsOfKind(rels, kind);
    assert rels[d] in rels;
    if P <= R - {rels[d].target} {
      SubsetSize(P, R - {rels[d].target});
      assert false;
    }
    x :| x in P && x !in R;
    if x in Targets(rels) {
      var r :| r in rels && r.target == x;
      TargetsApart(src, r, Rel(kind, x));
    }
  }

  lemma SubsetSize<T>(a: set<T>, b: set<T>)
    requires a <= b
    ensures |a| <= |b|
  {
    assert b == a + (b - a);
  }

  /** What each kind of list needs when `x` dies. */
  lemma DelistKind(rs: Resources, rs': Resources, x: Id, alive: seq<Id>, deleted: seq<Id>, k: Kind)
    requires AliveIn(rs, x) && x in rs' && rs'[x].deleted && rs' == rs[x := rs'[x]]
    requires ListsAlive(rs, alive, k) && ListsDeleted(rs, deleted, k)
    ensures ListsAlive(rs', if k == x.kind then Remove(alive, x) else alive, k)
    ensures ListsDeleted(rs', if k == x.kind then Insort(deleted, x) else deleted, k)
  {
    assert forall id :: AliveIn(rs', id) <==> AliveIn(rs, id) && id != x;
  }

  lemma DelistAll(rs: Resources, rs': Resources, x: Id, all: seq<Id>, hotSet: set<Id>, hot: seq<Id>)
    requires AliveIn(rs, x) && x in rs' && rs'[x].deleted && rs' == rs[x := rs'[x]]
    requires ListsAll(rs, all) && ListsHot(rs, hotSet, hot)
    ensures ListsAll(rs', Remove(all, x)) && ListsHot(rs', hotSet, if x in hotSet then Remove(hot, x) else hot)
  {
    assert forall id :: AliveIn(rs', id) <==> AliveIn(rs, id) && id != x;
  }

  /** Who changed, and how, when `dead` was repaired away; `todo` is still to come. */
  ghost predicate RepairedWorld(rs: Resources, rs': Resources, dead: Id, todo: set<Id>, alive: map<Kind, seq<Id>>)
  {
    && (forall k: Kind :: k in alive)
    && rs'.Keys == rs.Keys
    && forall s :: s in rs ==> RepairedSource(s, rs[s], rs'[s], dead, s in todo, Ample(alive, s.kind, dead.kind))
  }

  ghost predicate RepairedSource(s: Id, r: Resource, r': Resource, dead: Id, waiting: bool, ample: bool)
  {
    if dead !in Targets(r.rels) || waiting then r' == r
    else
      && r' == r.(rels := r'.rels) && Repaired(r.rels, r'.rels, dead)
      && (ample ==> forall kind :: Count(r'.rels, kind) == Count(r.rels, kind))
  }

  lemma RepairedMore(rs0: Resources, rs: Resources, rs': Resources, dead: Id, todo: set<Id>, src: Id,
                     alive: map<Kind, seq<Id>>)
    requires RepairedWorld(rs0, rs, dead, todo, alive) && src in todo && src in rs && src in rs'
    requires rs' == rs[src := rs'[src]] && dead in Targets(rs[src].rels)
    requires RepairedSource(src, rs[src], rs'[src], dead, false, Ample(alive, src.kind, dead.kind))
    ensures RepairedWorld(rs0, rs', dead, todo - {src}, alive)
  {
    forall s | s in rs0
      ensures RepairedSource(s, rs0[s], rs'[s], dead, s in todo - {src}, Ample(alive, s.kind, dead.kind))
    {
      assert RepairedSource(s, rs0[s], rs[s], dead, s in todo, Ample(alive, s.kind, dead.kind));
    }
  }

  lemma RepairedFits(k: Kind, before: seq<Rel>, after: seq<Rel>, dead: Id)
    requires Fits(k, before) && Repaired(before, after, dead)
    requires forall r :: r in after && r !in before ==> Allowed(k, r)
    ensures Fits(k, after)
    ensures forall t :: t in Targets(before) ==> t == dead || t in Targets(after)
    ensures dead !in Targets(after)
    ensures |after| == |before| ==> forall kind :: Count(after, kind) == Count(before, kind)
    ensures forall t :: t in Targets(after) && t !in Targets(before) ==>
              exists r :: r in after && r !in before && r.target == t
  {
    var d :| 0 <= d < |before| && before[d].target == dead &&
      (after == before[..d] + before[d + 1..] ||
       exists id :: id !in Targets(before) && after == before[d := Rel(before[d].kind, id)]);
    var repl: Option<Id> := None;
    if |after| == |before| {
      var id :| id !in Targets(before) && after == before[d := Rel(before[d].kind, id)];
      repl := Some(id);
    }
    RepairedTargets(before, after, d, repl);
    RepairedDistinct(before, after, d, repl);
    forall kind
      ensures Count(after, kind) <= Count(before, kind)
      ensures |after| == |before| ==> Count(after, kind) == Count(before, kind)
    {
      CountReplace(before, d, if repl.Some? then repl.value else dead, kind);
    }
    assert forall i :: 0 <= i < |before| ==> before[i].target in Targets(before);
  }

  lemma DepsWithout(rdeps: map<Id, set<Id>>, dead: Id)
    ensures Deps(rdeps - {dead}, dead) == {} && forall t :: t != dead ==> Deps(rdeps - {dead}, t) == Deps(rdeps, t)
  {
  }

  lemma NoneRepaired(rs: Resources, dead: Id, todo: set<Id>, alive: map<Kind, seq<Id>>)
    requires (forall k: Kind :: k in alive) && todo == Reverse(rs, dead)
    ensures RepairedWorld(rs, rs, dead, todo, alive)
  {
  }

  lemma NoneWaiting(rs: Resources, dead: Id)
    requires Sound(rs, Some(dead), {})
    ensures Sound(rs, None, {})
  {
  }

  lemma RepairSound(rs: Resources, dead: Id, todo: set<Id>, src: Id, r: Resource)
    requires Sound(rs, Some(dead), todo) && AliveIn(rs, src)
    requires r == rs[src].(rels := r.rels) && Fits(src.kind, r.rels) && dead !in Targets(r.rels)
    requires forall t :: t in Targets(r.rels) && t !in Targets(rs[src].rels) ==> AliveIn(rs, t)
    ensures Sound(rs[src := r], Some(dead), todo - {src})
  {
    var rs' := rs[src := r];
    assert forall t :: AliveIn(rs, t) ==> AliveIn(rs', t);
    forall s | s in rs'
      ensures Proper(s, rs'[s])
    {
      assert Proper(s, rs[s]);
    }
  }

  lemma BurySound(rs: Resources, dead: Id, r: Resource)
    requires Sound(rs, None, {}) && AliveIn(rs, dead)
    requires r == Resource(dead.kind, map[], [], true)
    ensures Sound(rs[dead := r], Some(dead), Reverse(rs[dead := r], dead))
  {
    var rs' := rs[dead := r];
    assert Proper(dead, rs[dead]);
    forall s | s in rs'
      ensures Proper(s, rs'[s])
    {
      if s != dead {
        assert Proper(s, rs[s]);
      }
    }
    forall s, t | s in rs' && t in Targets(rs'[s].rels)
      ensures AliveIn(rs', t) || (t == dead && s in Reverse(rs', dead))
    {
      assert s != dead && t in Targets(rs[s].rels);
      assert AliveIn(rs, t);
    }
  }

  lemma AllKinds()
    ensures forall k: Kind :: k in KINDS
  {
    forall k: Kind
      ensures k in KINDS
    {
      var j := PlaceInOrder(k);
    }
  }

  lemma PlaceInOrder(k: Kind) returns (j: nat)
    ensures j < |CREATION_ORDER| && CREATION_ORDER[j] == k
  {
    j := match k
      case Host => 0
      case Sg => 1
      case Asg => 2
      case Vm => 3
      case Container => 4
      case Db => 5
      case Lb => 6;
  }

  /** The creation order offers each demanded row a target created earlier. */
  lemma TargetsComeFirst(i: nat)
    requires i < |CREATION_ORDER|
    ensures forall kind :: RuleFor(CREATION_ORDER[i], kind).Some? && RuleFor(CREATION_ORDER[i], kind).value.lo > 0 ==>
              exists j :: 0 <= j < i && CREATION_ORDER[j] in RuleFor(CREATION_ORDER[i], kind).value.targets
  {
    assert CREATION_ORDER[0] == Host && CREATION_ORDER[1] == Sg && CREATION_ORDER[3] == Vm;
  }

  lemma LowsAreSmall(k: Kind, kind: RelKind)
    requires RuleFor(k, kind).Some?
    ensures RuleFor(k, kind).value.lo <= 1
  {
  }

  /** Writing one resource changes the reverse edges of that source only. */
  lemma UpdateReverse(rs: Resources, id: Id, r: Resource, t: Id)
    ensures Reverse(rs[id := r], t) == (Reverse(rs, t) - {id}) + if t in Targets(r.rels) then {id} else {}
  {
  }

  lemma UpdateSound(rs: Resources, id: Id, r: Resource)
    requires Sound(rs, None, {}) && Proper(id, r) && !r.deleted
    requires forall t :: t in Targets(r.rels) ==> AliveIn(rs, t)
    ensures Sound(rs[id := r], None, {})
  {
    var rs' := rs[id := r];
    forall s | s in rs'
      ensures Proper(s, rs'[s])
    {
      if s != id {
        assert Proper(s, rs[s]);
      }
    }
    assert forall t :: AliveIn(rs, t) ==> AliveIn(rs', t);
  }

  /** An update that keeps a resource alive concerns no list. */
  lemma UpdateListed(rs: Resources, id: Id, r: Resource, all: seq<Id>, alive: map<Kind, seq<Id>>,
                     deleted: map<Kind, seq<Id>>,
                     hotSet: set<Id>, hotAlive: seq<Id>)
    requires Listed(rs, all, alive, deleted, hotSet, hotAlive) && AliveIn(rs, id) && !r.deleted
    ensures Listed(rs[id := r], all, alive, deleted, hotSet, hotAlive)
  {
    assert forall x :: AliveIn(rs, x) <==> AliveIn(rs[id := r], x);
  }

  /** Different rows of one source type never share a target type. */
  lemma TargetsApart(src: Kind, a: Rel, b: Rel)
    requires Allowed(src, a) && Allowed(src, b) && a.kind != b.kind
    ensures a.target.kind != b.target.kind
  {
  }
}
