/** Which edges a generated resource owns, and the sorted id lists the world
    keeps its indexes in. */
module Topology {
  import opened Messages

  datatype Rule = Rule(targets: seq<Kind>, lo: nat, hi: nat)

  /** (source type, relationship) to (allowed target types, lo, hi). */
  function RuleFor(src: Kind, rel: RelKind): Option<Rule>
  {
    match src
    case Vm => (
      match rel
      case RunsOn => Some(Rule([Host], 1, 1))
      case MemberOf => Some(Rule([Asg], 0, 1))
      case AttachedTo => Some(Rule([Sg], 1, 3))
      case RoutesTo => None
    )
    case Container => if rel == RunsOn then Some(Rule([Vm], 1, 1)) else None
    case Db => (
      match rel
      case RunsOn => Some(Rule([Host], 1, 1))
      case AttachedTo => Some(Rule([Sg], 1, 2))
      case MemberOf => None
      case RoutesTo => None
    )
    case Lb => if rel == RoutesTo then Some(Rule([Vm, Container], 1, 4)) else None
    case Asg => None
    case Host => None
    case Sg => None
  }

  /** The table is walked sorted by relationship name. */
  const REL_ORDER := [AttachedTo, MemberOf, RoutesTo, RunsOn]

  /** Targets before their sources. */
  const CREATION_ORDER := [Host, Sg, Asg, Vm, Container, Db, Lb]

  /** No type is churned below its floor. */
  function Floor(k: Kind): nat
  {
    match k
    case Host => 3
    case Sg => 4
    case Vm => 3
    case Container => 3
    case Asg => 2
    case Db => 1
    case Lb => 1
  }

  predicate OwnsEdges(k: Kind)
  {
    k == Vm || k == Container || k == Db || k == Lb
  }

  function Count(rels: seq<Rel>, kind: RelKind): nat
  {
    if rels == [] then 0
    else Count(rels[..|rels| - 1], kind) + if rels[|rels| - 1].kind == kind then 1 else 0
  }

  function Targets(rels: seq<Rel>): set<Id>
  {
    set r | r in rels :: r.target
  }

  predicate DistinctTargets(rels: seq<Rel>)
  {
    forall i, j :: 0 <= i < j < |rels| ==> rels[i].target != rels[j].target
  }

  predicate Allowed(src: Kind, r: Rel)
  {
    RuleFor(src, r.kind).Some? && r.target.kind in RuleFor(src, r.kind).value.targets
  }

  /** Well-typed, duplicate-free, and within every upper bound. */
  predicate Fits(src: Kind, rels: seq<Rel>)
  {
    && DistinctTargets(rels)
    && (forall r :: r in rels ==> Allowed(src, r))
    && (forall kind :: RuleFor(src, kind).Some? ==> Count(rels, kind) <= RuleFor(src, kind).value.hi)
  }

  /** Every lower bound is met too. */
  predicate Meets(src: Kind, rels: seq<Rel>)
  {
    forall kind :: RuleFor(src, kind).Some? ==> Count(rels, kind) >= RuleFor(src, kind).value.lo
  }

  lemma {:induction false} CountConcat(a: seq<Rel>, b: seq<Rel>, kind: RelKind)
    ensures Count(a + b, kind) == Count(a, kind) + Count(b, kind)
  {
    if b == [] {
      assert a + b == a;
    } else {
      assert (a + b)[..|a + b| - 1] == a + b[..|b| - 1];
      CountConcat(a, b[..|b| - 1], kind);
    }
  }

  /** Replacing one edge's target changes no count. */
  lemma CountReplace(rels: seq<Rel>, d: nat, id: Id, kind: RelKind)
    requires d < |rels|
    ensures Count(rels[d := Rel(rels[d].kind, id)], kind) == Count(rels, kind)
    ensures Count(rels[..d] + rels[d + 1..], kind) <= Count(rels, kind)
  {
    var r := Rel(rels[d].kind, id);
    assert rels == rels[..d] + [rels[d]] + rels[d + 1..];
    assert rels[d := r] == rels[..d] + [r] + rels[d + 1..];
    CountConcat(rels[..d] + [rels[d]], rels[d + 1..], kind);
    CountConcat(rels[..d], [rels[d]], kind);
    CountConcat(rels[..d] + [r], rels[d + 1..], kind);
    CountConcat(rels[..d], [r], kind);
    CountConcat(rels[..d], rels[d + 1..], kind);
    assert [r][..0] == [] && [rels[d]][..0] == [];
  }

  /** The targets of one kind of edge are no more than the edges. */
  lemma {:induction false} TargetsOfKind(rels: seq<Rel>, kind: RelKind)
    ensures |set r | r in rels && r.kind == kind :: r.target| <= Count(rels, kind)
  {
    var S := set r | r in rels && r.kind == kind :: r.target;
    if rels != [] {
      var k := |rels| - 1;
      assert rels == rels[..k] + [rels[k]];
      TargetsOfKind(rels[..k], kind);
      var T := set r | r in rels[..k] && r.kind == kind :: r.target;
      if rels[k].kind == kind {
        assert S == T + {rels[k].target};
      } else {
        assert S == T;
      }
    }
  }

  // ---------------------------------------------------------- sorted id lists

  function KindRank(k: Kind): nat
  {
    match k
    case Asg => 0
    case Container => 1
    case Db => 2
    case Host => 3
    case Lb => 4
    case Sg => 5
    case Vm => 6
  }

  predicate Before(a: Id, b: Id)
  {
    KindRank(a.kind) < KindRank(b.kind) || (a.kind == b.kind && a.num < b.num)
  }

  predicate Sorted(ids: seq<Id>)
  {
    forall i, j :: 0 <= i < j < |ids| ==> Before(ids[i], ids[j])
  }

  lemma Trichotomy(a: Id, b: Id)
    ensures a == b || Before(a, b) || Before(b, a)
  {
  }

  /** Insert into a sorted list, after whatever is not behind `x`. The list stays
      strictly sorted exactly if `x` was not in it. */
  function Insort(ids: seq<Id>, x: Id): (r: seq<Id>)
    requires Sorted(ids)
    ensures Sorted(r) <==> x !in ids
    ensures |r| == |ids| + 1 && forall y :: y in r <==> y == x || y in ids
  {
    if ids == [] then [x]
    else
      var k := |ids| - 1;
      assert ids == ids[..k] + [ids[k]];
      Trichotomy(ids[k], x);
      if !Before(x, ids[k]) then
        InsortLast(ids, x);
        ids + [x]
      else
        var rest := Insort(ids[..k], x);
        assert forall y :: y in rest ==> Before(y, ids[k]);
        var r := rest + [ids[k]];
        assert r[..|rest|] == rest;
        r
  }

  lemma InsortLast(ids: seq<Id>, x: Id)
    requires Sorted(ids) && ids != [] && !Before(x, ids[|ids| - 1])
    ensures Sorted(ids + [x]) <==> x !in ids
  {
    var k := |ids| - 1;
    Trichotomy(ids[k], x);
    assert (ids + [x])[k] == ids[k] && (ids + [x])[k + 1] == x;
  }

  /** Remove the one occurrence of `x`. */
  function Remove(ids: seq<Id>, x: Id): (r: seq<Id>)
    requires Sorted(ids) && x in ids
    ensures Sorted(r) && |r| == |ids| - 1
    ensures forall y :: y in r <==> y != x && y in ids
  {
    var k := |ids| - 1;
    assert ids == ids[..k] + [ids[k]];
    if ids[k] == x then
      ids[..k]
    else
      var rest := Remove(ids[..k], x);
      assert forall y :: y in rest ==> Before(y, ids[k]);
      rest + [ids[k]]
  }
}
