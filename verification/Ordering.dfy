/** The order in which an alias's endpoints are tried: free ones first by
    standing, then priced ones group by group, each group in lottery order. */
module Ordering {
  import opened Dispatch

  /** What the gateway knows of one endpoint when it orders candidates. */
  datatype Facts = Facts(price: real, missed: bool, standing: Standing)
  {
    predicate Free() { price == 0.0 }

    /** (misses a preference, failing lately, not healthy) */
    function Group(): (bool, bool, bool) { (missed, standing.soft, standing.unhealthy) }
  }

  /** Sort keys compared left to right; False sorts first. */
  predicate GroupBefore(a: (bool, bool, bool), b: (bool, bool, bool))
  {
    if a.0 != b.0 then b.0 else if a.1 != b.1 then b.1 else b.2 && !a.2
  }

  predicate FreeBefore(a: Facts, b: Facts)
  {
    if a.missed != b.missed then b.missed else Before(a.standing, b.standing)
  }

  const GROUPS := [(false, false, false), (false, false, true), (false, true, false), (false, true, true),
                   (true, false, false), (true, false, true), (true, true, false), (true, true, true)]

  // ------------------------------------------------------------- the lottery

  function Weight(price: real): real
    requires price > 0.0
  {
    1.0 / (price * price)
  }

  /** Weight falls with the square of the price: thrice the price, a ninth of the chance. */
  lemma InverseSquare(price: real, factor: real)
    requires price > 0.0 && factor > 0.0
    ensures factor * price > 0.0 && Weight(price) == factor * factor * Weight(factor * price)
  {
    var p2, f2 := price * price, factor * factor;
    assert factor * price > 0.0 && p2 > 0.0 && f2 > 0.0;
    assert (factor * price) * (factor * price) == f2 * p2;
    assert f2 * (1.0 / (f2 * p2)) == 1.0 / p2;
  }

  function Sum(ws: seq<real>): real
  {
    if ws == [] then 0.0 else Sum(ws[..|ws| - 1]) + ws[|ws| - 1]
  }

  /** The first position whose running sum reaches the draw; the last if none does. */
  function Pick(ws: seq<real>, draw: real, acc: real): (i: nat)
    requires ws != []
    ensures i < |ws|
  {
    if draw <= acc + ws[0] || |ws| == 1 then 0 else 1 + Pick(ws[1..], draw, acc + ws[0])
  }

  lemma {:induction false} SumSplit(ws: seq<real>, i: nat)
    requires 0 < i <= |ws|
    ensures Sum(ws[..i]) == ws[0] + Sum(ws[1..i])
  {
    if i > 1 {
      SumSplit(ws, i - 1);
      assert ws[..i][..i - 1] == ws[..i - 1] && ws[1..i][..i - 2] == ws[1..i - 1];
    } else {
      assert ws[..1][..0] == [] && ws[1..1] == [];
    }
  }

  predicate Positive(ws: seq<real>)
  {
    forall i :: 0 <= i < |ws| ==> ws[i] > 0.0
  }

  lemma {:induction false} SumPositive(ws: seq<real>)
    requires Positive(ws)
    ensures Sum(ws) >= 0.0 && (ws != [] ==> Sum(ws) > 0.0)
  {
    if ws != [] {
      SumPositive(ws[..|ws| - 1]);
    }
  }

  /** Each candidate owns an interval of draws as wide as its weight: chances are
      proportional to the weights, and nobody's interval is empty. */
  lemma {:induction false} PickInterval(ws: seq<real>, draw: real, acc: real, i: nat)
    requires i < |ws| && Positive(ws)
    requires acc < draw <= acc + Sum(ws)
    ensures Pick(ws, draw, acc) == i <==> acc + Sum(ws[..i]) < draw <= acc + Sum(ws[..i + 1])
    decreases |ws|
  {
    var rest := ws[1..];
    assert ws[..0] == [] && ws[..1][..0] == [] && ws[..|ws|] == ws;
    SumSplit(ws, i + 1);
    SumSplit(ws, |ws|);
    if i > 0 {
      SumSplit(ws, i);
      assert rest[..i] == ws[1..i + 1] && rest[..i - 1] == ws[1..i];
    }
    SumPositive(ws[1..i + 1]);
    SumPositive(if i > 0 then ws[1..i] else []);
    if draw <= acc + ws[0] {
      assert Pick(ws, draw, acc) == 0;
    } else if |ws| > 1 {
      assert ws[1..|ws|] == rest;
      if i > 0 {
        PickInterval(rest, draw, acc + ws[0], i - 1);
      }
    }
  }

  /** A weighted order without replacement, for any sequence of draws. */
  method Lottery(eids: seq<string>, facts: map<string, Facts>) returns (out: seq<string>)
    requires forall e :: e in eids ==> e in facts && facts[e].price > 0.0
    ensures multiset(out) == multiset(eids)
  {
    var pool := eids;
    out := [];
    while pool != []
      invariant multiset(out) + multiset(pool) == multiset(eids)
      decreases |pool|
    {
      forall e | e in pool
        ensures e in facts && facts[e].price > 0.0
      {
        assert e in multiset(pool);
        assert e in multiset(eids);
      }
      var ws :=
        seq(|pool|, i requires 0 <= i < |pool| && pool[i] in facts && facts[pool[i]].price > 0.0 =>
                      Weight(facts[pool[i]].price));
      var draw: real := *;
      var i := Pick(ws, draw, 0.0);
      assert pool == pool[..i] + [pool[i]] + pool[i + 1..];
      out, pool := out + [pool[i]], pool[..i] + pool[i + 1..];
    }
  }

  // ------------------------------------------------------------- the order

  predicate AllKnown(es: seq<string>, facts: map<string, Facts>)
  {
    forall e :: e in es ==> e in facts
  }

  predicate FreeSorted(es: seq<string>, facts: map<string, Facts>)
    requires forall e :: e in es ==> e in facts
  {
    forall i, j :: 0 <= i < j < |es| ==> !FreeBefore(facts[es[j]], facts[es[i]])
  }

  lemma FreeOrder(a: Facts, b: Facts, c: Facts)
    ensures !FreeBefore(b, a) && !FreeBefore(c, b) ==> !FreeBefore(c, a)
    ensures FreeBefore(a, b) ==> !FreeBefore(b, a)
  {
  }

  /** After everything that does not sort after it: equal keys keep their order. */
  method InsertFree(es: seq<string>, x: string, facts: map<string, Facts>) returns (out: seq<string>)
    requires AllKnown(es, facts) && x in facts && FreeSorted(es, facts)
    ensures multiset(out) == multiset(es) + multiset{x}
    ensures (forall e :: e in out <==> e in es || e == x) && FreeSorted(out, facts)
  {
    var k: int := |es|;
    while k > 0 && FreeBefore(facts[x], facts[es[k - 1]])
      invariant 0 <= k <= |es|
      invariant forall j :: k <= j < |es| ==> FreeBefore(facts[x], facts[es[j]])
    {
      k := k - 1;
    }
    forall j | 0 <= j < k
      ensures !FreeBefore(facts[x], facts[es[j]])
    {
      FreeOrder(facts[es[j]], facts[es[k - 1]], facts[x]);
    }
    out := es[..k] + [x] + es[k..];
    InsertedParts(es, x, k);
    InsertedSorted(es, x, k, facts);
  }

  lemma InsertedParts(es: seq<string>, x: string, k: nat)
    requires k <= |es|
    ensures var out := es[..k] + [x] + es[k..];
            multiset(out) == multiset(es) + multiset{x} && forall e :: e in out <==> e in es || e == x
  {
    assert es == es[..k] + es[k..];
  }

  lemma InsertedSorted(es: seq<string>, x: string, k: nat, facts: map<string, Facts>)
    requires k <= |es| && AllKnown(es, facts) && x in facts && FreeSorted(es, facts)
    requires forall j :: 0 <= j < k ==> !FreeBefore(facts[x], facts[es[j]])
    requires forall j :: k <= j < |es| ==> FreeBefore(facts[x], facts[es[j]])
    ensures AllKnown(es[..k] + [x] + es[k..], facts) && FreeSorted(es[..k] + [x] + es[k..], facts)
  {
    var out := es[..k] + [x] + es[k..];
    InsertedParts(es, x, k);
    forall i, j | 0 <= i < j < |out|
      ensures !FreeBefore(facts[out[j]], facts[out[i]])
    {
      if i == k {
        FreeOrder(facts[x], facts[es[j - 1]], facts[x]);
      }
    }
  }

  method SortFree(es: seq<string>, facts: map<string, Facts>) returns (out: seq<string>)
    requires AllKnown(es, facts)
    ensures multiset(out) == multiset(es) && (forall e :: e in out <==> e in es) && FreeSorted(out, facts)
  {
    out := [];
    for i := 0 to |es|
      invariant multiset(out) == multiset(es[..i]) && (forall e :: e in out <==> e in es[..i]) && FreeSorted(out, facts)
    {
      assert es[..i + 1] == es[..i] + [es[i]];
      out := InsertFree(out, es[i], facts);
    }
    assert es[..|es|] == es;
  }

  /** What the order promises, for every draw. */
  ghost predicate Ordered(out: seq<string>, facts: map<string, Facts>)
    requires AllKnown(out, facts)
  {
    forall i, j :: 0 <= i < j < |out| ==> InOrder(facts[out[i]], facts[out[j]])
  }

  predicate InOrder(a: Facts, b: Facts)
  {
    if a.Free() && b.Free() then !FreeBefore(b, a)
    else if a.Free() != b.Free() then a.Free()
    else !GroupBefore(b.Group(), a.Group())
  }

  /** The members of one group, and the others, both in input order. */
  method SplitGroup(es: seq<string>, facts: map<string, Facts>, g: (bool, bool, bool))
    returns (members: seq<string>, others: seq<string>)
    requires AllKnown(es, facts)
    ensures multiset(members) + multiset(others) == multiset(es)
    ensures forall e :: e in members ==> e in es && facts[e].Group() == g
    ensures forall e :: e in others ==> e in es && facts[e].Group() != g
  {
    members, others := [], [];
    for i := 0 to |es|
      invariant multiset(members) + multiset(others) == multiset(es[..i])
      invariant forall e :: e in members ==> e in es && facts[e].Group() == g
      invariant forall e :: e in others ==> e in es && facts[e].Group() != g
    {
      assert es[..i + 1] == es[..i] + [es[i]];
      if facts[es[i]].Group() == g {
        members := members + [es[i]];
      } else {
        others := others + [es[i]];
      }
    }
    assert es[..|es|] == es;
  }

  method SplitFree(es: seq<string>, facts: map<string, Facts>) returns (free: seq<string>, priced: seq<string>)
    requires forall e :: e in es ==> e in facts && facts[e].price >= 0.0
    ensures multiset(free) + multiset(priced) == multiset(es)
    ensures forall e :: e in free ==> e in facts && facts[e].Free()
    ensures forall e :: e in priced ==> e in facts && facts[e].price > 0.0
  {
    free, priced := [], [];
    for i := 0 to |es|
      invariant multiset(free) + multiset(priced) == multiset(es[..i])
      invariant forall e :: e in free ==> e in facts && facts[e].Free()
      invariant forall e :: e in priced ==> e in facts && facts[e].price > 0.0
    {
      assert es[..i + 1] == es[..i] + [es[i]];
      if facts[es[i]].Free() {
        free := free + [es[i]];
      } else {
        priced := priced + [es[i]];
      }
    }
    assert es[..|es|] == es;
  }

  /** Draw one group and put it behind what is ordered already. */
  method NextGroup(done: seq<string>, todo: seq<string>, facts: map<string, Facts>, k: nat)
    returns (out: seq<string>, rest: seq<string>)
    requires k < |GROUPS| && (forall e :: e in todo ==> e in facts && facts[e].price > 0.0)
    requires AllKnown(done, facts) && Ordered(done, facts)
    requires forall e :: e in done ==> facts[e].Free() || facts[e].Group() in GROUPS[..k]
    ensures multiset(out) + multiset(rest) == multiset(done) + multiset(todo)
    ensures forall e :: e in out ==> e in done || (e in todo && e in facts && facts[e].Group() == GROUPS[k])
    ensures forall e :: e in rest ==> e in todo && e in facts && facts[e].Group() != GROUPS[k]
    ensures AllKnown(out, facts) && Ordered(out, facts)
  {
    var members;
    members, rest := SplitGroup(todo, facts, GROUPS[k]);
    var drawn := Lottery(members, facts);
    SameMembers(drawn, members);
    AppendGroup(done, drawn, facts, k);
    out := done + drawn;
  }

  /** Every candidate exactly once: free first, then the groups in order. */
  method OrderCandidates(eids: seq<string>, facts: map<string, Facts>) returns (out: seq<string>)
    requires forall e :: e in eids ==> e in facts && facts[e].price >= 0.0
    ensures multiset(out) == multiset(eids)
    ensures AllKnown(out, facts) && Ordered(out, facts)
  {
    var free, rest := SplitFree(eids, facts);
    out := SortFree(free, facts);
    AllGroups();
    for k := 0 to |GROUPS|
      invariant multiset(out) + multiset(rest) == multiset(eids)
      invariant forall e :: e in out ==> e in facts && (facts[e].Free() || facts[e].Group() in GROUPS[..k])
      invariant forall e :: e in rest ==> e in facts && facts[e].price > 0.0 && facts[e].Group() in GROUPS[k..]
      invariant Ordered(out, facts)
    {
      out, rest := NextGroup(out, rest, facts, k);
      assert GROUPS[..k + 1] == GROUPS[..k] + [GROUPS[k]];
      assert GROUPS[k..] == [GROUPS[k]] + GROUPS[k + 1..];
    }
    assert GROUPS[|GROUPS|..] == [];
    NoneLeft(rest);
  }

  lemma Member<T>(s: seq<T>) returns (x: T)
    requires s != []
    ensures x in s
  {
    x := s[0];
  }

  lemma NoneLeft<T(!new)>(s: seq<T>)
    requires forall x :: x !in s
    ensures s == []
  {
    if s != [] {
      var x := Member(s);
    }
  }

  lemma SameMembers(a: seq<string>, b: seq<string>)
    requires multiset(a) == multiset(b)
    ensures forall e :: e in a <==> e in b
  {
    forall e
      ensures e in a <==> e in b
    {
      assert e in a <==> e in multiset(a);
      assert e in b <==> e in multiset(b);
    }
  }

  lemma AppendGroup(out: seq<string>, drawn: seq<string>, facts: map<string, Facts>, k: nat)
    requires k < |GROUPS| && AllKnown(out, facts) && Ordered(out, facts)
    requires forall e :: e in out ==> facts[e].Free() || facts[e].Group() in GROUPS[..k]
    requires forall e :: e in drawn ==> e in facts && !facts[e].Free() && facts[e].Group() == GROUPS[k]
    ensures AllKnown(out + drawn, facts) && Ordered(out + drawn, facts)
  {
    GroupsAscend(k);
    forall i, j | 0 <= i < j < |out + drawn|
      ensures InOrder(facts[(out + drawn)[i]], facts[(out + drawn)[j]])
    {
      if j >= |out| {
        assert drawn[j - |out|] in drawn;
        if i < |out| {
          assert out[i] in out;
        } else {
          assert drawn[i - |out|] in drawn;
        }
      }
    }
  }

  lemma AllGroups()
    ensures GROUPS[0..] == GROUPS && forall g :: g in GROUPS
  {
    forall g: (bool, bool, bool)
      ensures g in GROUPS
    {
      assert GROUPS[(if g.0 then 4 else 0) + (if g.1 then 2 else 0) + (if g.2 then 1 else 0)] == g;
    }
  }

  lemma GroupsAscend(k: nat)
    requires k < |GROUPS|
    ensures forall g :: g in GROUPS[..k] ==> !GroupBefore(GROUPS[k], g)
  {
  }
}
