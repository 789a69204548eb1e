/** The failover walk: an attempt that fails before any output hops first to the
    alias's remaining endpoints and then across models, one untried backend after
    the other. */
module Walk {
  import opened Messages
  import opened Dispatch
  import opened Registry

  /** The part of a chain entry before its first colon. */
  function Head(s: string): string
  {
    if s == "" || s[0] == ':' then "" else [s[0]] + Head(s[1..])
  }

  /** A recorded backend is recognised as tried exactly if its name has no colon. */
  lemma {:induction false} HeadOfHop(name: string, alias: string)
    ensures Head(name + ":" + alias) == name <==> ':' !in name
    ensures Head(name + ":" + alias) == Head(name)
  {
    if name != "" && name[0] != ':' {
      assert (name + ":" + alias)[1..] == name[1..] + ":" + alias;
      HeadOfHop(name[1..], alias);
      assert name == [name[0]] + name[1..];
    } else if name != "" {
      assert (name + ":" + alias)[0] == ':';
    }
  }

  function Hop(name: string, alias: string): string
  {
    name + ":" + alias
  }

  function Tried(chain: seq<string>): set<string>
  {
    set c | c in chain :: Head(c)
  }

  datatype Outcome = Served | QueueFull | HttpError | Failed

  datatype Answer = Ok(alias: string) | Busy429 | Passed | Pinned502 | Exhausted503(budgetBlocked: bool)

  /** What ends a walk at once: an answer, or the one failure a pin allows. */
  function Verdict(o: Outcome, alias: string): Answer
  {
    match o
    case Served => Answer.Ok(alias)
    case QueueFull => Busy429
    case HttpError => Passed
    case Failed => Pinned502
  }

  ghost predicate AllSetUp(r: Registry, es: seq<string>)
  {
    forall e :: e in es ==> e in r.setups
  }

  /** The chain, one entry longer per failed attempt, in order. */
  ghost function Hops(r: Registry, base: seq<string>, visited: seq<string>): seq<string>
    requires AllSetUp(r, visited)
  {
    if visited == [] then base
    else var k := |visited| - 1; Hops(r, base, visited[..k]) + [Hop(r.Key(visited[k]), visited[k])]
  }

  lemma HopsGrow(r: Registry, base: seq<string>, visited: seq<string>, e: string)
    requires AllSetUp(r, visited) && e in r.setups
    ensures AllSetUp(r, visited + [e]) && Hops(r, base, visited + [e]) == Hops(r, base, visited) + [Hop(r.Key(e), e)]
  {
    assert (visited + [e])[..|visited|] == visited;
  }

  lemma TriedAfter(chain: seq<string>, name: string, alias: string)
    ensures Tried(chain + [Hop(name, alias)]) == Tried(chain) + {Head(name)}
    ensures ':' !in name ==> Head(name) == name
  {
    HeadOfHop(name, alias);
    var longer := chain + [Hop(name, alias)];
    assert longer[|chain|] in longer;
    assert forall c :: c in chain ==> c in longer;
  }

  // ---------------------------------------------- names with and without colons

  lemma {:induction false} HeadHasNoColon(s: string)
    ensures ':' !in Head(s)
  {
    if s != "" && s[0] != ':' {
      HeadHasNoColon(s[1..]);
    }
  }

  lemma TriedHasNoColon(chain: seq<string>, name: string)
    requires ':' in name
    ensures name !in Tried(chain)
  {
    forall c | c in chain
      ensures Head(c) != name
    {
      HeadHasNoColon(c);
    }
  }

  /** A provider whose name has a colon is never recognised: after its failure was
      recorded it is exactly as eligible as before. */
  lemma ColonStaysEligible(r: Registry, m: Moment, p: string, chain: seq<string>, ignoreBudget: bool)
    requires r.Valid() && r.Covers(m) && ':' in p
    requires r.Eligible(m, r.Routes(m), p, Tried(chain), ignoreBudget) && '@' !in r.Routes(m).to[p]
    ensures r.Key(r.Routes(m).to[p]) == p
    ensures r.Eligible(m, r.Routes(m), p, Tried(chain + [Hop(p, r.Routes(m).to[p])]), ignoreBudget)
  {
    r.TableMeans(r.Served(m, |r.routes|));
    TriedHasNoColon(chain + [Hop(p, r.Routes(m).to[p])], p);
  }

  /** And its failure takes out a provider that was never tried: the one named by the
      part before the colon. */
  lemma ColonSkipsAnother(r: Registry, m: Moment, name: string, alias: string, chain: seq<string>)
    requires r.Valid() && r.Covers(m) && ':' in name
    ensures Head(name) != name && !r.Eligible(m, r.Routes(m), Head(name), Tried(chain + [Hop(name, alias)]), true)
  {
    TriedAfter(chain, name, alias);
    HeadHasNoColon(name);
  }

  /** The attempts of a walk: the moment each endpoint was settled on, and which. */
  datatype Trail = Nil | On(before: Trail, m: Moment, eid: string)

  function Visited(t: Trail): seq<string>
  {
    match t
    case Nil => []
    case On(before, _, e) => Visited(before) + [e]
  }

  /** Where a walk goes next: through its plan of endpoints, then to what the search
      gives at the moment, for the chain so far. */
  ghost predicate Leads(r: Registry, base: seq<string>, plan: seq<string>, before: seq<string>, m: Moment, e: string)
    requires r.Valid() && AllSetUp(r, before)
  {
    if |before| < |plan| then e == plan[|before|]
    else r.Covers(m) && r.Next(m, Tried(Hops(r, base, before)), false) == Some(e)
  }

  ghost predicate Led(r: Registry, base: seq<string>, plan: seq<string>, t: Trail)
    requires r.Valid()
  {
    match t
    case Nil => true
    case On(before, m, e) =>
      && Led(r, base, plan, before) && AllSetUp(r, Visited(before)) && e in r.setups
      && Leads(r, base, plan, Visited(before), m, e)
  }

  lemma {:induction false} LedSetUp(r: Registry, base: seq<string>, plan: seq<string>, t: Trail)
    requires r.Valid() && Led(r, base, plan, t)
    ensures AllSetUp(r, Visited(t))
  {
  }

  /** The backends hopped to after the plan was used up. */
  ghost function HoppedTo(r: Registry, base: seq<string>, plan: seq<string>, t: Trail): set<string>
    requires r.Valid() && Led(r, base, plan, t)
  {
    match t
    case Nil => {}
    case On(before, _, e) => HoppedTo(r, base, plan, before) + if |Visited(before)| < |plan| then {} else {r.Key(e)}
  }

  function Routable(r: Registry): set<string>
    requires r.Valid()
  {
    set a, e | a in r.routes && e in r.Candidates(a) :: r.Key(e)
  }

  /** The i-th route has an endpoint that shares its provider's dispatch state. */
  predicate Offers(r: Registry, i: nat, p: string)
    requires r.Valid() && i < |r.routes|
  {
    exists e :: e in r.Candidates(r.routes[i]) && '@' !in e && r.setups[e].provider == p
  }

  /** The j-th route is served by an expanded endpoint of the provider whatever the
      moment: it has no other endpoint. */
  predicate Swallows(r: Registry, j: nat, p: string)
    requires r.Valid() && j < |r.routes|
  {
    && r.Candidates(r.routes[j]) != []
    && forall e :: e in r.Candidates(r.routes[j]) ==> '@' in e && r.setups[e].provider == p
  }

  /** A walk may return to `p` for ever: its failures are not recognised, some route
      offers it, and no earlier route always enters it at an expanded endpoint, on
      which the search ends. */
  ghost predicate CanLoop(r: Registry, p: string)
    requires r.Valid()
  {
    ':' in p && exists i: nat :: i < |r.routes| && Offers(r, i, p) && forall j: nat :: j < i ==> !Swallows(r, j, p)
  }

  ghost predicate Loopless(r: Registry)
    requires r.Valid()
  {
    forall p :: !CanLoop(r, p)
  }

  /** Every hop of a loopless registry is recognised once it failed. */
  lemma HopHasNoColon(r: Registry, m: Moment, tried: set<string>)
    requires r.Valid() && r.Covers(m) && Loopless(r) && r.Next(m, tried, false).Some?
    ensures ':' !in r.Key(r.Next(m, tried, false).value)
  {
    r.NextExactly(m, tried, false);
    var p := r.BestProvider(m, tried, false).value;
    r.RoutesMean(m, p);
    EnteredLoops(r, m, p);
    assert !CanLoop(r, p);
  }

  /** The route at which the table entered a provider: the first it serves. */
  lemma EnteredAt(r: Registry, m: Moment, p: string) returns (i: nat)
    requires r.Valid() && r.Covers(m) && p in r.Routes(m).to
    ensures i < |r.routes| && r.Serving(m, r.routes[i]) == Some(r.Routes(m).to[p])
    ensures forall j: nat :: j < i && r.Serving(m, r.routes[j]).Some? ==>
              r.setups[r.Serving(m, r.routes[j]).value].provider != p
  {
    var served := r.Served(m, |r.routes|);
    r.TableMeans(served);
    assert r.First(served, p, r.Routes(m).to[p]);
    i :| i < |served| && served[i] == Some(r.Routes(m).to[p]) && r.FirstAt(served, i, p);
    forall j: nat | j < i && r.Serving(m, r.routes[j]).Some?
      ensures r.setups[r.Serving(m, r.routes[j]).value].provider != p
    {
      assert served[j] == r.Serving(m, r.routes[j]);
    }
  }

  /** A provider entered at an endpoint that is not expanded can be returned to, but
      for the colon. */
  lemma EnteredLoops(r: Registry, m: Moment, p: string)
    requires r.Valid() && r.Covers(m) && p in r.Routes(m).to && '@' !in r.Routes(m).to[p]
    ensures ':' in p ==> CanLoop(r, p)
  {
    r.RoutesMean(m, p);
    var i := EnteredAt(r, m, p);
    assert Offers(r, i, p);
    forall j: nat | j < i
      ensures !Swallows(r, j, p)
    {
      if Swallows(r, j, p) {
        r.ServingMeans(m, r.routes[j]);
      }
    }
  }

  /** A hop goes to a serving endpoint of a route. */
  lemma NextIsRoutable(r: Registry, m: Moment, tried: set<string>)
    requires r.Valid() && r.Covers(m) && r.Next(m, tried, false).Some?
    ensures r.Next(m, tried, false).value in r.setups && r.Key(r.Next(m, tried, false).value) in Routable(r)
  {
    r.NextExactly(m, tried, false);
    var p := r.BestProvider(m, tried, false).value;
    r.RoutesMean(m, p);
    var a :| a in r.routes && r.Routes(m).to[p] in r.Candidates(a);
  }

  lemma TriedGrows(r: Registry, base: seq<string>, visited: seq<string>, e: string)
    requires AllSetUp(r, visited) && e in r.setups
    ensures AllSetUp(r, visited + [e])
    ensures Tried(Hops(r, base, visited + [e])) == Tried(Hops(r, base, visited)) + {Head(r.Key(e))}
    ensures ':' !in r.Key(e) ==> Head(r.Key(e)) == r.Key(e)
  {
    HopsGrow(r, base, visited, e);
    TriedAfter(Hops(r, base, visited), r.Key(e), e);
  }

  lemma OneMore(H: set<string>, tried: set<string>, R: set<string>, k: string)
    requires H <= tried && H <= R && k !in tried && k in R
    ensures H + {k} <= tried + {k} && H + {k} <= R && |H + {k}| == |H| + 1
  {
  }

  /** No backend is hopped to twice: as many backends as hops. */
  lemma {:induction false} HopsDiffer(r: Registry, base: seq<string>, plan: seq<string>, t: Trail)
    requires r.Valid() && Loopless(r) && Led(r, base, plan, t)
    ensures AllSetUp(r, Visited(t)) && HoppedTo(r, base, plan, t) <= Tried(Hops(r, base, Visited(t)))
    ensures HoppedTo(r, base, plan, t) <= Routable(r)
    ensures |Visited(t)| <= |plan| + |HoppedTo(r, base, plan, t)|
  {
    LedSetUp(r, base, plan, t);
    match t
    case Nil =>
    case On(before, m, e) =>
      var tried := Tried(Hops(r, base, Visited(before)));
      HopsDiffer(r, base, plan, before);
      TriedGrows(r, base, Visited(before), e);
      if |Visited(before)| >= |plan| {
        r.NextIsNew(m, tried, false);
        NextIsRoutable(r, m, tried);
        HopHasNoColon(r, m, tried);
        OneMore(HoppedTo(r, base, plan, before), tried, Routable(r), r.Key(e));
      }
  }

  /** So such a walk makes at most as many hops as there are backends to hop to. */
  lemma HopsAreBounded(r: Registry, base: seq<string>, plan: seq<string>, t: Trail)
    requires r.Valid() && Loopless(r) && Led(r, base, plan, t)
    ensures |Visited(t)| <= |plan| + |Routable(r)|
  {
    HopsDiffer(r, base, plan, t);
    Smaller(HoppedTo(r, base, plan, t), Routable(r));
  }

  ghost predicate KeysDiffer(r: Registry, es: seq<string>)
  {
    forall i, j :: 0 <= i < j < |es| ==> es[i] in r.setups && es[j] in r.setups ==> r.Key(es[i]) != r.Key(es[j])
  }

  lemma {:induction false} ThroughPlan(r: Registry, base: seq<string>, plan: seq<string>, t: Trail)
    requires r.Valid() && Led(r, base, plan, t) && |Visited(t)| <= |plan|
    ensures Visited(t) == plan[..|Visited(t)|]
  {
    if t.On? {
      ThroughPlan(r, base, plan, t.before);
    }
  }

  lemma {:induction false} VisitedAreTried(r: Registry, base: seq<string>, t: Trail, i: nat)
    requires AllSetUp(r, Visited(t)) && i < |Visited(t)| && ':' !in r.Key(Visited(t)[i])
    ensures r.Key(Visited(t)[i]) in Tried(Hops(r, base, Visited(t)))
  {
    assert AllSetUp(r, Visited(t.before)) && t.eid in r.setups by {
      assert t.eid in Visited(t) && forall e :: e in Visited(t.before) ==> e in Visited(t);
    }
    TriedGrows(r, base, Visited(t.before), t.eid);
    if i < |Visited(t.before)| {
      VisitedAreTried(r, base, t.before, i);
    }
  }

  /** The whole walk tries no backend twice if its plan does not. */
  lemma {:induction false} NoRetry(r: Registry, base: seq<string>, plan: seq<string>, t: Trail)
    requires r.Valid() && Loopless(r) && Led(r, base, plan, t) && KeysDiffer(r, plan)
    ensures KeysDiffer(r, Visited(t))
  {
    match t
    case Nil =>
    case On(before, m, e) =>
      NoRetry(r, base, plan, before);
      if |Visited(before)| < |plan| {
        ThroughPlan(r, base, plan, t);
      } else {
        var tried := Tried(Hops(r, base, Visited(before)));
        r.NextIsNew(m, tried, false);
        HopHasNoColon(r, m, tried);
        forall i | 0 <= i < |Visited(before)|
          ensures r.Key(Visited(before)[i]) != r.Key(e)
        {
          if ':' !in r.Key(Visited(before)[i]) {
            VisitedAreTried(r, base, before, i);
          }
        }
      }
  }

  lemma {:induction false} Smaller(A: set<string>, B: set<string>)
    requires A <= B
    ensures |A| <= |B|
  {
    if A != {} {
      var x :| x in A;
      Smaller(A - {x}, B - {x});
    }
  }

  /** Only the expanded endpoints of `p` are down, nobody stands as well as `p`, and
      paid hops are allowed. */
  ghost predicate Favours(r: Registry, m: Moment, p: string)
  {
    && r.Covers(m) && m.allows && p in m.looks && !m.looks[p].state.Down?
    && (forall k :: k in m.looks && k != p ==> Before(m.looks[p].standing, m.looks[k].standing))
    && (forall e :: e in r.setups ==> (m.looks[r.Key(e)].state.Down? <==> '@' in e && r.setups[e].provider == p))
  }

  /** An endpoint keyed by `p` is one of the provider, and not expanded. */
  lemma KeyedBy(r: Registry, e: string, x: string, p: string)
    requires r.Valid() && e in r.setups && r.setups[e].provider == p && x in r.setups
    ensures r.Key(x) == p <==> '@' !in x && r.setups[x].provider == p
  {
  }

  /** A route that offers the favoured provider is served by it. */
  lemma ServesFavoured(r: Registry, m: Moment, p: string, i: nat)
    requires r.Valid() && Favours(r, m, p) && i < |r.routes| && Offers(r, i, p)
    ensures r.Serving(m, r.routes[i]).Some? && r.Key(r.Serving(m, r.routes[i]).value) == p
  {
    var e :| e in r.Candidates(r.routes[i]) && '@' !in e && r.setups[e].provider == p;
    r.ServingMeans(m, r.routes[i]);
    if |r.Candidates(r.routes[i])| == 1 {
      assert r.Candidates(r.routes[i])[0] == e;
    } else {
      assert !m.looks[r.Key(e)].state.Down?;
    }
  }

  /** A route served by an expanded endpoint of the provider has no other. */
  lemma DownMeansSwallowed(r: Registry, m: Moment, p: string, j: nat, e: string)
    requires r.Valid() && Favours(r, m, p) && j < |r.routes| && e in r.setups && r.setups[e].provider == p
    requires r.Serving(m, r.routes[j]).Some?
    requires var x := r.Serving(m, r.routes[j]).value; '@' in x && r.setups[x].provider == p
    ensures Swallows(r, j, p)
  {
    var ids, x := r.Candidates(r.routes[j]), r.Serving(m, r.routes[j]).value;
    r.ServingMeans(m, r.routes[j]);
    if |ids| == 1 {
      assert ids[0] == x;
    } else {
      forall c | c in ids
        ensures '@' in c && r.setups[c].provider == p
      {
        assert m.looks[r.Key(c)].state.Down?;
      }
    }
  }

  /** So the provider is entered at an endpoint that shares its dispatch state. */
  lemma RoutedFavoured(r: Registry, m: Moment, p: string)
    requires r.Valid() && Favours(r, m, p) && CanLoop(r, p)
    ensures p in r.Routes(m).to && r.Key(r.Routes(m).to[p]) == p && '@' !in r.Routes(m).to[p]
  {
    var i: nat :| i < |r.routes| && Offers(r, i, p) && forall j: nat :: j < i ==> !Swallows(r, j, p);
    var e :| e in r.Candidates(r.routes[i]) && '@' !in e && r.setups[e].provider == p;
    ServesFavoured(r, m, p, i);
    KeyedBy(r, e, r.Serving(m, r.routes[i]).value, p);
    ServingIsRouted(r, m, i);
    var x := r.Routes(m).to[p];
    r.RoutesMean(m, p);
    var j := EnteredAt(r, m, p);
    assert j <= i;
    if '@' in x {
      DownMeansSwallowed(r, m, p, j, e);
    }
    KeyedBy(r, e, x, p);
  }

  lemma ServingIsRouted(r: Registry, m: Moment, i: nat)
    requires r.Valid() && r.Covers(m) && i < |r.routes| && r.Serving(m, r.routes[i]).Some?
    ensures r.setups[r.Serving(m, r.routes[i]).value].provider in r.Routes(m).to
  {
    var served := r.Served(m, |r.routes|);
    r.TableMeans(served);
    assert served[i] == r.Serving(m, r.routes[i]);
  }

  /** And it is the next hop, whatever failed before. */
  lemma NextFavoured(r: Registry, m: Moment, p: string, tried: set<string>)
    requires r.Valid() && Favours(r, m, p) && CanLoop(r, p) && p !in tried
    ensures p in r.Routes(m).to && r.Next(m, tried, false) == Some(r.Routes(m).to[p])
    ensures r.Routes(m).to[p] in r.setups && r.Key(r.Routes(m).to[p]) == p
  {
    RoutedFavoured(r, m, p);
    r.RoutesMean(m, p);
    assert r.Eligible(m, r.Routes(m), p, tried, false);
    r.BestProviderMeans(m, tried, false);
    r.NextExactly(m, tried, false);
    var best := r.BestProvider(m, tried, false).value;
    r.RoutesMean(m, best);
    KeyedBy(r, r.Routes(m).to[p], r.Routes(m).to[best], p);
  }

  /** Whatever chain it continues and plan it goes through first, a walk returns to a
      provider with a colon in its name, if it can be returned to, any number of times,
      while nobody stands as well. */
  lemma {:induction false} Forever(r: Registry, m: Moment, p: string, base: seq<string>, plan: seq<string>, n: nat)
    returns (t: Trail)
    requires r.Valid() && Favours(r, m, p) && CanLoop(r, p) && AllSetUp(r, plan)
    ensures Led(r, base, plan, t) && |Visited(t)| == n && HoppedTo(r, base, plan, t) <= {p}
  {
    if n == 0 {
      t := Nil;
    } else {
      t := Forever(r, m, p, base, plan, n - 1);
      LedSetUp(r, base, plan, t);
      var e := Returned(r, m, p, plan, n - 1, Hops(r, base, Visited(t)));
      t := On(t, m, e);
    }
  }

  /** Where such a walk goes next: through its plan, and then to that provider. */
  lemma Returned(r: Registry, m: Moment, p: string, plan: seq<string>, n: nat, chain: seq<string>) returns (e: string)
    requires r.Valid() && Favours(r, m, p) && CanLoop(r, p) && AllSetUp(r, plan)
    ensures e in r.setups
    ensures if n < |plan| then e == plan[n] else r.Next(m, Tried(chain), false) == Some(e) && r.Key(e) == p
  {
    if n < |plan| {
      e := plan[n];
    } else {
      TriedHasNoColon(chain, p);
      NextFavoured(r, m, p, Tried(chain));
      e := r.Routes(m).to[p];
    }
  }

  ghost predicate HopsAtMost(r: Registry, base: seq<string>, plan: seq<string>, bound: nat)
    requires r.Valid()
  {
    forall t :: Led(r, base, plan, t) ==> |Visited(t)| <= |plan| + bound
  }

  /** Whatever chain a walk continues and plan it goes through first, its hops are
      bounded, however backends fail and look at each hop, if and only if no provider
      with a colon in its name can be returned to. */
  lemma WalksEnd(r: Registry, base: seq<string>, plan: seq<string>)
    requires r.Valid() && AllSetUp(r, plan)
    ensures (exists bound: nat :: HopsAtMost(r, base, plan, bound)) <==> Loopless(r)
  {
    if Loopless(r) {
      forall t | Led(r, base, plan, t)
        ensures |Visited(t)| <= |plan| + |Routable(r)|
      {
        HopsAreBounded(r, base, plan, t);
      }
      assert HopsAtMost(r, base, plan, |Routable(r)|);
    } else {
      forall bound: nat
        ensures !HopsAtMost(r, base, plan, bound)
      {
        var p, m := Favourite(r, set x | x in r.setups :: r.Key(x));
        var t := Forever(r, m, p, base, plan, |plan| + bound + 1);
        assert Led(r, base, plan, t);
      }
    }
  }

  /** In a registry that is not loopless some moment favours a provider that can be
      returned to. */
  lemma Favourite(r: Registry, names: set<string>) returns (p: string, m: Moment)
    requires r.Valid() && !Loopless(r) && forall e :: e in r.setups ==> r.Key(e) in names
    ensures CanLoop(r, p) && Favours(r, m, p) && m.looks.Keys == names
  {
    p :| CanLoop(r, p);
    var i: nat :| i < |r.routes| && Offers(r, i, p);
    var e :| e in r.Candidates(r.routes[i]) && '@' !in e && r.setups[e].provider == p;
    var expanded := set x | x in r.setups && '@' in x && r.setups[x].provider == p;
    m := Moment(map k | k in names ::
                  Looks(if k in expanded then Down else Healthy, Standing(k != p, false, false, 0.0)), true);
    assert r.Key(e) == p && p !in expanded;
    forall x | x in r.setups
      ensures r.Key(x) in names && (r.Key(x) in expanded <==> x in expanded)
    {
    }
  }

  /** A colon alone does no harm: here the one provider with a colon is always
      entered at an expanded endpoint first, and every walk ends. */
  lemma ColonBehindExpanded(plain: string, eid: string, p: string)
    requires plain != eid && '@' in eid && '@' !in plain && '@' !in p && ':' in p
    ensures var r := Registry(map[plain := Setup(p, false), eid := Setup(p, false)], map[], [eid, plain], false);
            r.Valid() && p in Routable(r) && Loopless(r)
  {
    var r := Registry(map[plain := Setup(p, false), eid := Setup(p, false)], map[], [eid, plain], false);
    assert r.Candidates(eid) == [eid] && r.Candidates(plain) == [plain];
    assert r.routes[1] == plain && r.Key(plain) == p;
    assert plain in r.routes && plain in r.Candidates(plain);
    forall q
      ensures !CanLoop(r, q)
    {
      assert Swallows(r, 0, p) && !Offers(r, 0, q);
    }
  }
}
