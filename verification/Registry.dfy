/** Routing as data: which endpoints exist, which of them serves a model at a given
    moment, and where a failed request hops next. */
module Registry {
  import opened Messages
  import opened Dispatch

  datatype Setup = Setup(provider: string, paid: bool)

  /** What routing depends on at one moment: how each backend looks and whether the
      budget allows paid hops. */
  datatype Moment = Moment(looks: map<string, Looks>, allows: bool)

  /** provider to serving endpoint, in the order the providers were entered. */
  datatype Table = Table(keys: seq<string>, to: map<string, string>)

  /** `setups` by endpoint id, `aliases` to endpoint ids, `routes` the served models
      in registry order. */
  datatype Registry = Registry(setups: map<string, Setup>, aliases: map<string, seq<string>>, routes: seq<string>,
                               hasBudget: bool)
  {
    /** An expanded endpoint has its own dispatch state, others share by provider. */
    function Key(eid: string): string
      requires eid in setups
    {
      if '@' in eid then eid else setups[eid].provider
    }

    /** No provider bears the name of an expanded endpoint, which would share its
        dispatch state. */
    ghost predicate Valid()
    {
      && (forall e, p :: e in setups && p in setups && '@' in e ==> setups[p].provider != e)
      && (forall a :: a in aliases ==> forall e :: e in aliases[a] ==> e in setups)
    }

    ghost predicate Covers(m: Moment)
    {
      forall e :: e in setups ==> Key(e) in m.looks
    }

    /** The endpoint ids serving an alias; an endpoint id names itself. */
    function Candidates(alias: string): (ids: seq<string>)
      requires Valid()
      ensures forall e :: e in ids ==> e in setups
    {
      if alias in aliases then aliases[alias] else if alias in setups then [alias] else []
    }

    function LooksAt(m: Moment, eids: seq<string>): (looks: seq<Looks>)
      requires Covers(m) && forall e :: e in eids ==> e in setups
      ensures |looks| == |eids| && forall i :: 0 <= i < |eids| ==> looks[i] == m.looks[Key(eids[i])]
    {
      if eids == [] then []
      else LooksAt(m, eids[..|eids| - 1]) + [m.looks[Key(eids[|eids| - 1])]]
    }

    /** The endpoint that would serve this alias now. */
    function Serving(m: Moment, alias: string): (eid: Option<string>)
      requires Valid() && Covers(m)
      ensures eid.Some? ==> eid.value in Candidates(alias) && eid.value in setups
    {
      var ids := Candidates(alias);
      if ids == [] then None
      else
        var c := Pick(LooksAt(m, ids));
        Some(if |ids| == 1 || c.None? then ids[0] else ids[c.value])
    }

    /** A provider's first serving endpoint wins. */
    function Enter(t: Table, eid: Option<string>): Table
      requires eid.Some? ==> eid.value in setups
    {
      if eid.None? || setups[eid.value].provider in t.to then t
      else Table(t.keys + [setups[eid.value].provider], t.to[setups[eid.value].provider := eid.value])
    }

    ghost predicate AllSetUp(served: seq<Option<string>>)
    {
      forall i :: 0 <= i < |served| && served[i].Some? ==> served[i].value in setups
    }

    function TableOf(served: seq<Option<string>>): (t: Table)
      requires AllSetUp(served)
      ensures forall p :: p in t.to ==> t.to[p] in setups
    {
      if served == [] then Table([], map[]) else Enter(TableOf(served[..|served| - 1]), served[|served| - 1])
    }

    /** The serving endpoint of each route. */
    function Served(m: Moment, n: nat): (served: seq<Option<string>>)
      requires Valid() && Covers(m) && n <= |routes|
      ensures |served| == n && AllSetUp(served)
    {
      seq(n, i requires 0 <= i < n <= |routes| && Valid() && Covers(m) => Serving(m, routes[i]))
    }

    /** The routing table of the moment. */
    function Routes(m: Moment): (t: Table)
      requires Valid() && Covers(m)
      ensures forall p :: p in t.to ==> t.to[p] in setups
    {
      TableOf(Served(m, |routes|))
    }

    /** A routed, untried, affordable backend that is not down. */
    predicate Eligible(m: Moment, t: Table, p: string, tried: set<string>, ignoreBudget: bool)
      requires Covers(m)
    {
      && p in t.to && t.to[p] in setups && p !in tried && Key(t.to[p]) !in tried
      && (ignoreBudget || !hasBudget || !setups[t.to[p]].paid || m.allows)
      && !m.looks[Key(t.to[p])].state.Down?
    }

    /** The eligible providers, in table order. */
    function Options(m: Moment, t: Table, keys: seq<string>, tried: set<string>, ignoreBudget: bool): (ps: seq<string>)
      requires Covers(m)
      ensures forall p :: p in ps <==> p in keys && Eligible(m, t, p, tried, ignoreBudget)
    {
      if keys == [] then []
      else
        var k := |keys| - 1;
        assert keys == keys[..k] + [keys[k]];
        Options(m, t, keys[..k], tried, ignoreBudget) +
        if Eligible(m, t, keys[k], tried, ignoreBudget) then [keys[k]] else []
    }

    function Endpoints(t: Table, ps: seq<string>): (eids: seq<string>)
      requires forall p :: p in ps ==> p in t.to && t.to[p] in setups
      ensures |eids| == |ps| && forall i :: 0 <= i < |ps| ==> eids[i] == t.to[ps[i]]
      ensures forall e :: e in eids ==> e in setups
    {
      if ps == [] then []
      else
        var k := |ps| - 1;
        assert ps == ps[..k] + [ps[k]];
        Endpoints(t, ps[..k]) + [t.to[ps[k]]]
    }

    /** The eligible provider of best standing, the earliest such in the table. */
    function BestProvider(m: Moment, tried: set<string>, ignoreBudget: bool): Option<string>
      requires Valid() && Covers(m)
    {
      var t := Routes(m);
      var ps := Options(m, t, t.keys, tried, ignoreBudget);
      match Pick(LooksAt(m, Endpoints(t, ps)))
      case None => None
      case Some(i) => Some(ps[i])
    }

    /** The name of the backend dispatch prefers among those of some endpoints. */
    function Preferred(m: Moment, eids: seq<string>): Option<string>
      requires Covers(m) && forall e :: e in eids ==> e in setups
    {
      match Pick(LooksAt(m, eids))
      case None => None
      case Some(i) => Some(Key(eids[i]))
    }

    /** The next hop of a walk: the preferred eligible backend, looked up by its own
        name. */
    function Next(m: Moment, tried: set<string>, ignoreBudget: bool): (eid: Option<string>)
      requires Valid() && Covers(m)
      ensures eid.Some? ==> eid.value in setups
    {
      var t := Routes(m);
      match Preferred(m, Endpoints(t, Options(m, t, t.keys, tried, ignoreBudget)))
      case None => None
      case Some(name) => if name in t.to then Some(t.to[name]) else None
    }

    // ------------------------------------------------------ what these mean

    /** `eid` has the best standing among the alias's endpoints that are not down;
        of a fully-down alias it is the first. */
    lemma ServingMeans(m: Moment, alias: string)
      requires Valid() && Covers(m)
      ensures Serving(m, alias).None? <==> Candidates(alias) == []
      ensures Serving(m, alias).Some? && |Candidates(alias)| > 1 ==>
                var ids, eid := Candidates(alias), Serving(m, alias).value;
                if forall e :: e in ids ==> m.looks[Key(e)].state.Down? then eid == ids[0]
                else !m.looks[Key(eid)].state.Down?
                     && forall e :: e in ids && !m.looks[Key(e)].state.Down? ==>
                          !Before(m.looks[Key(e)].standing, m.looks[Key(eid)].standing)
    {
      var ids := Candidates(alias);
      if |ids| > 1 {
        var looks := LooksAt(m, ids);
        PickMeans(looks);
        forall e | e in ids
          ensures exists i :: 0 <= i < |ids| && ids[i] == e && looks[i] == m.looks[Key(e)]
        {
          var i :| 0 <= i < |ids| && ids[i] == e;
          assert looks[i] == m.looks[Key(e)];
        }
      }
    }

    ghost predicate Keyed(t: Table)
    {
      && (forall p :: p in t.keys <==> p in t.to)
      && (forall i, j :: 0 <= i < j < |t.keys| ==> t.keys[i] != t.keys[j])
      && (forall p :: p in t.to ==> t.to[p] in setups && setups[t.to[p]].provider == p)
    }

    lemma EnterKeeps(t: Table, eid: Option<string>)
      requires Keyed(t) && (eid.Some? ==> eid.value in setups)
      ensures Keyed(Enter(t, eid)) && t.to.Keys <= Enter(t, eid).to.Keys
      ensures eid.Some? ==> setups[eid.value].provider in Enter(t, eid).to
    {
      assert forall i :: 0 <= i < |t.keys| ==> t.keys[i] in t.keys;
    }

    /** `eid` serves some route, and no earlier one is served by its provider. */
    ghost predicate First(served: seq<Option<string>>, p: string, eid: string)
      requires AllSetUp(served)
    {
      exists i :: 0 <= i < |served| && served[i] == Some(eid) && FirstAt(served, i, p)
    }

    ghost predicate FirstAt(served: seq<Option<string>>, i: nat, p: string)
      requires AllSetUp(served) && i <= |served|
    {
      forall j :: 0 <= j < i && served[j].Some? ==> setups[served[j].value].provider != p
    }

    /** The table lists its keys once each, maps a provider to an endpoint of its
        own, and enters exactly the providers that serve one of the routes, each at
        the endpoint of its first such route. */
    ghost predicate Lists(t: Table, served: seq<Option<string>>)
      requires AllSetUp(served)
    {
      && Keyed(t)
      && (forall p :: p in t.to ==> First(served, p, t.to[p]))
      && (forall i :: 0 <= i < |served| && served[i].Some? ==> setups[served[i].value].provider in t.to)
    }

    lemma FirstStays(served: seq<Option<string>>, p: string, eid: string)
      requires served != [] && AllSetUp(served) && First(served[..|served| - 1], p, eid)
      ensures First(served, p, eid)
    {
      var before := served[..|served| - 1];
      var i :| 0 <= i < |before| && before[i] == Some(eid) && FirstAt(before, i, p);
      assert forall j :: 0 <= j < |before| ==> before[j] == served[j];
      assert served[i] == Some(eid) && FirstAt(served, i, p);
    }

    lemma FirstComes(served: seq<Option<string>>, t: Table, p: string)
      requires served != [] && AllSetUp(served) && Lists(t, served[..|served| - 1]) && p !in t.to
      requires served[|served| - 1].Some? && setups[served[|served| - 1].value].provider == p
      ensures First(served, p, served[|served| - 1].value)
    {
      var k := |served| - 1;
      assert forall j :: 0 <= j < k ==> served[..k][j] == served[j];
      assert FirstAt(served, k, p);
    }

    lemma {:induction false} TableMeans(served: seq<Option<string>>)
      requires AllSetUp(served)
      ensures Lists(TableOf(served), served)
    {
      if served != [] {
        var k := |served| - 1;
        var before, t := TableOf(served[..k]), TableOf(served);
        TableMeans(served[..k]);
        EnterKeeps(before, served[k]);
        forall p | p in t.to
          ensures First(served, p, t.to[p])
        {
          if p in before.to {
            FirstStays(served, p, before.to[p]);
          } else {
            FirstComes(served, before, p);
          }
        }
        forall i | 0 <= i < |served| && served[i].Some?
          ensures setups[served[i].value].provider in t.to
        {
          if i < k {
            assert served[..k][i] == served[i];
          }
        }
      }
    }

    /** The table's endpoints serve routes, each of its own provider. */
    lemma RoutesMean(m: Moment, p: string)
      requires Valid() && Covers(m) && p in Routes(m).to
      ensures Routes(m).to[p] in setups && setups[Routes(m).to[p]].provider == p
      ensures exists a :: a in routes && Routes(m).to[p] in Candidates(a)
    {
      var served := Served(m, |routes|);
      TableMeans(served);
      var i :| 0 <= i < |served| && served[i] == Some(Routes(m).to[p]);
      assert routes[i] in routes;
    }

    ghost predicate NoneEligible(m: Moment, tried: set<string>, ignoreBudget: bool)
      requires Valid() && Covers(m)
    {
      forall p :: !Eligible(m, Routes(m), p, tried, ignoreBudget)
    }

    /** Nobody eligible has a better standing than `p`. */
    ghost predicate Best(m: Moment, p: string, tried: set<string>, ignoreBudget: bool)
      requires Valid() && Covers(m)
    {
      var t := Routes(m);
      && Eligible(m, t, p, tried, ignoreBudget)
      && forall q :: Eligible(m, t, q, tried, ignoreBudget) ==>
           !Before(m.looks[Key(t.to[q])].standing, m.looks[Key(t.to[p])].standing)
    }

    lemma PickedAmong(m: Moment, t: Table, ps: seq<string>)
      requires Covers(m) && forall p :: p in ps ==> p in t.to && t.to[p] in setups && !m.looks[Key(t.to[p])].state.Down?
      ensures var c := Pick(LooksAt(m, Endpoints(t, ps)));
              if c.None? then ps == []
              else c.value < |ps| && ps[c.value] in ps
                   && forall q :: q in ps ==>
                        !Before(m.looks[Key(t.to[q])].standing, m.looks[Key(t.to[ps[c.value]])].standing)
    {
      var looks := LooksAt(m, Endpoints(t, ps));
      PickMeans(looks);
      if ps != [] {
        assert ps[0] in ps && looks[0] == m.looks[Key(t.to[ps[0]])];
        var c := Pick(looks).value;
        assert looks[c] == m.looks[Key(t.to[ps[c]])];
        forall q | q in ps
          ensures !Before(m.looks[Key(t.to[q])].standing, looks[c].standing)
        {
          var i :| 0 <= i < |ps| && ps[i] == q;
          assert looks[i] == m.looks[Key(t.to[q])];
        }
      }
    }

    lemma BestProviderMeans(m: Moment, tried: set<string>, ignoreBudget: bool)
      requires Valid() && Covers(m)
      ensures BestProvider(m, tried, ignoreBudget).None? <==> NoneEligible(m, tried, ignoreBudget)
      ensures BestProvider(m, tried, ignoreBudget).Some? ==>
                Best(m, BestProvider(m, tried, ignoreBudget).value, tried, ignoreBudget)
    {
      TableMeans(Served(m, |routes|));
      var t := Routes(m);
      var ps := Options(m, t, t.keys, tried, ignoreBudget);
      forall p
        ensures Eligible(m, t, p, tried, ignoreBudget) <==> p in ps
      {
        assert p in t.to ==> p in t.keys;
      }
      PickedAmong(m, t, ps);
    }

    lemma PickedName(m: Moment, t: Table, ps: seq<string>)
      requires Covers(m) && forall p :: p in ps ==> p in t.to && t.to[p] in setups
      ensures var at := Pick(LooksAt(m, Endpoints(t, ps)));
              if at.None? then Preferred(m, Endpoints(t, ps)) == None
              else ps[at.value] in ps && Preferred(m, Endpoints(t, ps)) == Some(Key(t.to[ps[at.value]]))
    {
      var eids := Endpoints(t, ps);
      var at := Pick(LooksAt(m, eids));
      if at.Some? {
        assert ps[at.value] in ps && eids[at.value] == t.to[ps[at.value]];
      }
    }

    /** The preferred backend is that of the best provider. */
    lemma PreferredIsBest(m: Moment, tried: set<string>, ignoreBudget: bool)
      requires Valid() && Covers(m)
      ensures var t, best := Routes(m), BestProvider(m, tried, ignoreBudget);
              && (best.Some? ==> best.value in t.to && t.to[best.value] in setups)
              && Preferred(m, Endpoints(t, Options(m, t, t.keys, tried, ignoreBudget)))
                 == if best.None? then None else Some(Key(t.to[best.value]))
    {
      var t := Routes(m);
      PickedName(m, t, Options(m, t, t.keys, tried, ignoreBudget));
    }

    /** The exact condition: a hop is missing if and only if nothing is eligible or
        the best eligible backend is endpoint-keyed, its name being no provider. */
    lemma NextExactly(m: Moment, tried: set<string>, ignoreBudget: bool)
      requires Valid() && Covers(m)
      ensures var best := BestProvider(m, tried, ignoreBudget);
              var to := Routes(m).to;
              && (best.Some? ==> best.value in to && to[best.value] in setups)
              && Next(m, tried, ignoreBudget) ==
                if best.None? || '@' in to[best.value] then None else Some(to[best.value])
    {
      PreferredIsBest(m, tried, ignoreBudget);
      var best := BestProvider(m, tried, ignoreBudget);
      if best.Some? {
        RoutesMean(m, best.value);
        if '@' in Routes(m).to[best.value] {
          EndpointIsNoProvider(m, Routes(m).to[best.value]);
        }
      }
    }

    lemma EndpointIsNoProvider(m: Moment, eid: string)
      requires Valid() && Covers(m) && '@' in eid && eid in setups
      ensures eid !in Routes(m).to
    {
      if eid in Routes(m).to {
        RoutesMean(m, eid);
      }
    }

    lemma NextIsNew(m: Moment, tried: set<string>, ignoreBudget: bool)
      requires Valid() && Covers(m) && Next(m, tried, ignoreBudget).Some?
      ensures var eid := Next(m, tried, ignoreBudget).value; eid in setups && Key(eid) !in tried && '@' !in eid
    {
      BestProviderMeans(m, tried, ignoreBudget);
      NextExactly(m, tried, ignoreBudget);
    }

    /** No served model has an expanded endpoint. */
    predicate ProviderKeyed()
      requires Valid()
    {
      forall a :: a in routes ==> forall e :: e in Candidates(a) ==> '@' !in e
    }

    /** Without them the table's backends are its providers. */
    lemma KeyedByProvider(m: Moment, p: string)
      requires Valid() && ProviderKeyed() && Covers(m) && p in Routes(m).to
      ensures Routes(m).to[p] in setups && Key(Routes(m).to[p]) == p && '@' !in Routes(m).to[p]
    {
      RoutesMean(m, p);
    }

    /** And the search is complete. */
    lemma ProviderKeyedIsComplete(m: Moment, tried: set<string>, ignoreBudget: bool)
      requires Valid() && Covers(m) && ProviderKeyed()
      ensures Next(m, tried, ignoreBudget).None? <==> NoneEligible(m, tried, ignoreBudget)
    {
      BestProviderMeans(m, tried, ignoreBudget);
      NextExactly(m, tried, ignoreBudget);
      var best := BestProvider(m, tried, ignoreBudget);
      if best.Some? {
        KeyedByProvider(m, best.value);
      }
    }
  }

  const UP := Looks(Healthy, Standing(false, false, false, 0.0))

  /** Two routed models: `plain` on provider `acme`, and `model`, whose one endpoint
      is the expanded `eid` on provider `beta`. */
  function TwoModels(plain: string, model: string, eid: string, acme: string, beta: string): Registry
  {
    Registry(map[plain := Setup(acme, false), eid := Setup(beta, false)], map[model := [eid]], [plain, model], false)
  }

  lemma TwoModelsServed(plain: string, model: string, eid: string, acme: string, beta: string, m: Moment)
    requires plain != model && plain != eid && acme != beta && acme != eid
    requires '@' in eid && '@' !in plain && '@' !in acme && '@' !in beta
    requires acme in m.looks && eid in m.looks
    ensures var r := TwoModels(plain, model, eid, acme, beta);
            r.Valid() && r.Covers(m) && r.Served(m, 2) == [Some(plain), Some(eid)]
  {
    var r := TwoModels(plain, model, eid, acme, beta);
    assert r.Candidates(plain) == [plain] && r.Candidates(model) == [eid];
    assert r.Serving(m, plain) == Some(plain) && r.Serving(m, model) == Some(eid);
  }

  lemma TwoModelsRoutes(plain: string, model: string, eid: string, acme: string, beta: string, m: Moment)
    requires plain != model && plain != eid && acme != beta && acme != eid
    requires '@' in eid && '@' !in plain && '@' !in acme && '@' !in beta
    requires acme in m.looks && eid in m.looks
    ensures var r := TwoModels(plain, model, eid, acme, beta);
            r.Valid() && r.Covers(m) && r.Routes(m).to == map[acme := plain, beta := eid]
  {
    var r := TwoModels(plain, model, eid, acme, beta);
    TwoModelsServed(plain, model, eid, acme, beta, m);
    var served := [Some(plain), Some(eid)];
    assert served[..1] == [Some(plain)] && [Some(plain)][..0] == [];
    assert r.TableOf([Some(plain)]) == Table([acme], map[acme := plain]);
  }

  /** A gateway state in which the walk ends too early: the first of two models just
      failed, the other is up, untried and affordable, but its endpoint is expanded. */
  lemma ExpandedEndsTheWalk(plain: string, model: string, eid: string, acme: string, beta: string, m: Moment)
    requires plain != model && plain != eid && acme != beta && acme != eid
    requires '@' in eid && '@' !in plain && '@' !in acme && '@' !in beta
    requires acme in m.looks && eid in m.looks && !m.looks[eid].state.Down?
    ensures var r := TwoModels(plain, model, eid, acme, beta);
            && r.Valid() && r.Covers(m)
            && r.Eligible(m, r.Routes(m), beta, {acme}, false) && r.Next(m, {acme}, false) == None
  {
    var r := TwoModels(plain, model, eid, acme, beta);
    TwoModelsRoutes(plain, model, eid, acme, beta, m);
    assert r.Eligible(m, r.Routes(m), beta, {acme}, false);
    r.BestProviderMeans(m, {acme}, false);
    assert !r.Eligible(m, r.Routes(m), acme, {acme}, false);
    r.NextExactly(m, {acme}, false);
  }

  /** Once the first model failed, no moment offers a hop. */
  lemma ExpandedIsNeverFound(plain: string, model: string, eid: string, acme: string, beta: string, m: Moment,
                             tried: set<string>)
    requires plain != model && plain != eid && acme != beta && acme != eid
    requires '@' in eid && '@' !in plain && '@' !in acme && '@' !in beta
    requires acme in m.looks && eid in m.looks && acme in tried
    ensures var r := TwoModels(plain, model, eid, acme, beta);
            r.Valid() && r.Covers(m) && r.Next(m, tried, false) == None
  {
    var r := TwoModels(plain, model, eid, acme, beta);
    TwoModelsRoutes(plain, model, eid, acme, beta, m);
    r.BestProviderMeans(m, tried, false);
    r.NextExactly(m, tried, false);
    assert !r.Eligible(m, r.Routes(m), acme, tried, false);
  }

  lemma EndpointKeyedEndsTheWalk()
    ensures exists r: Registry, m: Moment, p: string, tried: set<string> ::
              r.Valid() && r.Covers(m) && r.Eligible(m, r.Routes(m), p, tried, false) && r.Next(m, tried, false) == None
  {
    var plain, model, eid, acme, beta := "a", "b", "c@d", "e", "f";
    assert |eid| == 3 && eid[1] == '@';
    var m := Moment(map[acme := UP, eid := UP], true);
    ExpandedEndsTheWalk(plain, model, eid, acme, beta, m);
    var r := TwoModels(plain, model, eid, acme, beta);
    assert r.Valid() && r.Covers(m);
    assert r.Eligible(m, r.Routes(m), beta, {acme}, false) && r.Next(m, {acme}, false) == None;
  }
}
