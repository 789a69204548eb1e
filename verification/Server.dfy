/** The gateway itself: its dispatch state, its routing decisions of the moment, and
    the walk it drives for a request. */
module Server {
  import opened Messages
  import opened Dispatch
  import opened Registry
  import opened Walk

  /** What is left of the endpoint plan after `n` attempts. */
  function Left(plan: seq<string>, n: nat): seq<string>
  {
    if n <= |plan| then plan[n..] else []
  }

  lemma LeftOver(plan: seq<string>, n: nat)
    requires Left(plan, n) != []
    ensures n < |plan| && Left(plan, n)[0] == plan[n] && plan[n] in plan && Left(plan, n)[1..] == Left(plan, n + 1)
  {
  }

  /** A request as the walk sees it: the slots held and the moment when it came, what
      each attempt would come to and the moment after it, the chain to continue and
      the endpoints to go through first. Opening a replacement stream takes every
      failure for a hop. */
  datatype Course = Course(held: map<string, nat>, now: Moment, fates: seq<Outcome>, later: seq<Moment>,
                           fallbackAllowed: bool, base: seq<string>, plan: seq<string>, reopening: bool)
  {
    /** An attempt with this outcome is a failed hop. */
    predicate Goes(o: Outcome)
    {
      if reopening then !o.Served? else o.Failed?
    }

    predicate GoesOn(o: Outcome)
    {
      Goes(o) && fallbackAllowed
    }
  }

  class Gateway {
    const reg: Registry
    const backends: map<string, Backend>      // dispatch state by backend name
    var allows: bool                          // the budget's word on paid hops

    ghost predicate Valid()
    {
      && reg.Valid()
      && (forall e :: e in reg.setups ==> reg.Key(e) in backends)
      && (forall k :: k in backends ==> backends[k].name == k)
    }

    function Slots(): set<Backend>
    {
      set k | k in backends :: backends[k]
    }

    function Now(): (m: Moment)
      reads this, Slots()
      ensures m.looks.Keys == backends.Keys && m.allows == allows
    {
      Moment(map k | k in backends :: Looks(backends[k].health.state, backends[k].standing), allows)
    }

    /** Slots held per backend. */
    function Held(): map<string, nat>
      reads Slots()
    {
      map k | k in backends :: backends[k].inFlight
    }

    /** One more slot held on the alias's backend, if it was gained. */
    ghost function Grown(held: map<string, nat>, alias: string, gained: bool): map<string, nat>
      requires alias in reg.setups && reg.Key(alias) in held
    {
      if gained then held[reg.Key(alias) := held[reg.Key(alias)] + 1] else held
    }

    function BackendsOf(eids: seq<string>): (bs: seq<Backend>)
      requires Valid() && AllSetUp(reg, eids)
      ensures |bs| == |eids| && forall i :: 0 <= i < |eids| ==> bs[i] == backends[reg.Key(eids[i])]
    {
      seq(|eids|, i requires 0 <= i < |eids| && Valid() && AllSetUp(reg, eids) => backends[reg.Key(eids[i])])
    }

    lemma SameLooks(eids: seq<string>)
      requires Valid() && AllSetUp(reg, eids)
      ensures LooksOf(BackendsOf(eids)) == reg.LooksAt(Now(), eids)
    {
    }

    /** The name of the backend dispatch prefers among those of some endpoints. */
    function Preferred(eids: seq<string>): (name: Option<string>)
      requires Valid() && AllSetUp(reg, eids)
      reads this, Slots()
      ensures name == reg.Preferred(Now(), eids)
    {
      SameLooks(eids);
      match Choose(BackendsOf(eids))
      case None => None
      case Some(i) => Some(backends[reg.Key(eids[i])].name)
    }

    /** No earlier endpoint shares the preferred one's backend. */
    lemma FirstOfName(m: Moment, eids: seq<string>, i: nat)
      requires Valid() && AllSetUp(reg, eids) && reg.Covers(m)
      requires var at := Pick(reg.LooksAt(m, eids));
               at.Some? && i <= at.value && reg.Key(eids[i]) == reg.Key(eids[at.value])
      ensures i == Pick(reg.LooksAt(m, eids)).value
    {
      var looks := reg.LooksAt(m, eids);
      PickMeans(looks);
      assert looks[i] == looks[Pick(looks).value];
    }

    /** The first endpoint on the preferred backend; the first of all if none is up. */
    method FirstPreferred(ids: seq<string>) returns (e: string)
      requires Valid() && AllSetUp(reg, ids) && ids != []
      ensures Now() == old(Now())
      ensures var at := Pick(reg.LooksAt(Now(), ids)); e == if at.None? then ids[0] else ids[at.value]
    {
      var name := Preferred(ids);
      if name.None? {
        return ids[0];
      }
      ghost var at := Pick(reg.LooksAt(Now(), ids));
      for i := 0 to |ids|
        invariant i <= at.value
      {
        if backends[reg.Key(ids[i])].name == name.value {
          FirstOfName(Now(), ids, i);
          return ids[i];
        }
      }
      assert false;
    }

    /** The endpoint that would serve this alias now. */
    method ServingEndpoint(alias: string) returns (r: Option<string>)
      requires Valid()
      ensures Now() == old(Now()) && r == reg.Serving(Now(), alias)
    {
      var ids := reg.Candidates(alias);
      if ids == [] {
        return None;
      }
      if |ids| == 1 {
        return Some(ids[0]);
      }
      var e := FirstPreferred(ids);
      r := Some(e);
    }

    lemma OneMoreServed(m: Moment, i: nat)
      requires Valid() && reg.Covers(m) && i < |reg.routes|
      ensures reg.TableOf(reg.Served(m, i + 1)) ==
              reg.Enter(reg.TableOf(reg.Served(m, i)), reg.Serving(m, reg.routes[i]))
    {
      var longer := reg.Served(m, i + 1);
      assert longer[..i] == reg.Served(m, i);
    }

    /** provider to serving endpoint; the first route of a provider wins. */
    method Routed() returns (t: Table)
      requires Valid()
      ensures Now() == old(Now()) && t == reg.Routes(Now())
    {
      t := Table([], map[]);
      ghost var m := Now();
      for i := 0 to |reg.routes|
        invariant Now() == m && t == reg.TableOf(reg.Served(m, i))
      {
        var eid := ServingEndpoint(reg.routes[i]);
        OneMoreServed(m, i);
        if eid.Some? && reg.setups[eid.value].provider !in t.to {
          t := Table(t.keys + [reg.setups[eid.value].provider], t.to[reg.setups[eid.value].provider := eid.value]);
        }
      }
    }

    predicate Open(t: Table, p: string, tried: set<string>, ignoreBudget: bool)
      requires Valid()
      reads this, Slots()
    {
      && p in t.to && t.to[p] in reg.setups && p !in tried && backends[reg.Key(t.to[p])].name !in tried
      && (ignoreBudget || !reg.hasBudget || !reg.setups[t.to[p]].paid || allows)
      && !backends[reg.Key(t.to[p])].health.state.Down?
    }

    /** The providers a hop may go to, in table order. */
    method Eligibles(t: Table, tried: set<string>, ignoreBudget: bool) returns (ps: seq<string>)
      requires Valid()
      ensures Now() == old(Now()) && ps == reg.Options(Now(), t, t.keys, tried, ignoreBudget)
    {
      ps := [];
      ghost var m := Now();
      for i := 0 to |t.keys|
        invariant Now() == m && ps == reg.Options(m, t, t.keys[..i], tried, ignoreBudget)
      {
        assert t.keys[..i + 1][..i] == t.keys[..i];
        if Open(t, t.keys[i], tried, ignoreBudget) {
          ps := ps + [t.keys[i]];
        }
      }
      assert t.keys[..|t.keys|] == t.keys;
    }

    /** The next hop: the best eligible backend, looked up by its own name. */
    method NextAlias(chain: seq<string>, ignoreBudget: bool) returns (next: Option<string>)
      requires Valid()
      ensures Now() == old(Now()) && next == reg.Next(Now(), Tried(chain), ignoreBudget)
    {
      var t := Routed();
      var ps := Eligibles(t, Tried(chain), ignoreBudget);
      var name := Preferred(reg.Endpoints(t, ps));
      if name.None? {
        return None;
      }
      t := Routed();
      next := if name.value in t.to then Some(t.to[name.value]) else None;
    }

    /** What an attempt comes to: refused while the queue is full, else its fate. */
    ghost function Comes(held: map<string, nat>, e: string, fate: Outcome): Outcome
      requires Valid() && e in reg.setups && held.Keys == backends.Keys
    {
      if held[reg.Key(e)] >= backends[reg.Key(e)].queueMax then QueueFull else fate
    }

    /** Open a stream, or make a whole call; only an opened stream keeps its slot. */
    method Attempt(alias: string, streaming: bool, fate: Outcome) returns (o: Outcome)
      requires Valid() && alias in reg.setups
      modifies this`allows, Slots()
      ensures o == Comes(old(Held()), alias, fate)
      ensures Held() == Grown(old(Held()), alias, o.Served? && streaming)
    {
      var b := backends[reg.Key(alias)];
      var admitted := b.Admit();
      assert forall k :: k in backends && k != reg.Key(alias) ==> backends[k] != b;
      if !admitted {
        return QueueFull;
      }
      allows := *;
      o := fate;
      if !(o.Served? && streaming) {
        b.Release();
      }
    }

    method RecordHop(alias: string, chain: seq<string>) returns (longer: seq<string>)
      requires Valid() && alias in reg.setups
      modifies Slots()
      ensures Held() == old(Held())
      ensures longer == chain + [Hop(reg.Key(alias), alias)]
    {
      var b := backends[reg.Key(alias)];
      b.ObserveOutcome(false);
      longer := chain + [Hop(b.name, alias)];
    }

    /** The refusal blames the budget exactly where lifting it would find a hop. */
    ghost function Refusal(m: Moment, chain: seq<string>): Answer
      requires Valid() && reg.Covers(m)
    {
      Exhausted503(reg.hasBudget && !m.allows && reg.Next(m, Tried(chain), true).Some?)
    }

    method GiveUp(chain: seq<string>) returns (a: Answer)
      requires Valid()
      ensures Now() == old(Now()) && a == Refusal(Now(), chain)
    {
      var blocked := false;
      if reg.hasBudget && !allows {
        var next := NextAlias(chain, true);
        blocked := next.Some?;
      }
      a := Exhausted503(blocked);
    }

    function Fate(fates: seq<Outcome>, n: nat): Outcome
    {
      if n < |fates| then fates[n] else Failed
    }

    ghost predicate Fits(c: Course)
    {
      Valid() && c.held.Keys == backends.Keys && c.now.looks.Keys == backends.Keys
    }

    /** The course begins with the state there is. */
    ghost predicate Begins(c: Course)
      reads this, Slots()
    {
      Fits(c) && c.held == Held() && c.now == Now()
    }

    /** A moment as this gateway can look. */
    function Shaped(m: Moment): (s: Moment)
      ensures s.looks.Keys == backends.Keys
    {
      Moment(map k | k in backends :: if k in m.looks then m.looks[k] else UP, m.allows)
    }

    /** The moment after `n` failed attempts. */
    function Meanwhile(c: Course, n: nat): (m: Moment)
      ensures c.now.looks.Keys == backends.Keys ==> m.looks.Keys == backends.Keys
    {
      if 0 < n <= |c.later| then Shaped(c.later[n - 1]) else c.now
    }

    /** Time passes: every backend may look different, and the budget too. */
    method Elapse(m: Moment)
      requires Valid() && m.looks.Keys == backends.Keys
      modifies this`allows, Slots()
      ensures Now() == m && Held() == old(Held())
    {
      allows := m.allows;
      var todo := backends.Keys;
      while todo != {}
        invariant todo <= backends.Keys && allows == m.allows
        invariant forall k :: k in backends ==> backends[k].inFlight == old(backends[k].inFlight)
        invariant forall k :: k in backends && k !in todo ==>
                    Looks(backends[k].health.state, backends[k].standing) == m.looks[k]
        decreases todo
      {
        var k :| k in todo;
        assert forall j :: j in backends && j != k ==> backends[j] != backends[k];
        backends[k].Turn(m.looks[k]);
        todo := todo - {k};
      }
    }

    /** What the n-th attempt comes to. */
    ghost function ComesTo(c: Course, n: nat, e: string): Outcome
      requires Fits(c) && e in reg.setups
    {
      Comes(c.held, e, Fate(c.fates, n))
    }

    /** Every attempt so far made the walk go on. */
    ghost predicate AllFailed(c: Course, t: Trail)
      requires Fits(c)
    {
      match t
      case Nil => true
      case On(before, _, e) => AllFailed(c, before) && e in reg.setups && c.Goes(ComesTo(c, |Visited(before)|, e))
    }

    /** Each attempt was decided at the moment there was. */
    ghost predicate Timely(c: Course, t: Trail)
    {
      match t
      case Nil => true
      case On(before, m, _) => Timely(c, before) && m == Meanwhile(c, |Visited(before)|)
    }

    /** A walk so far: led through its plan and on, and every attempt failed. */
    ghost predicate Walked(c: Course, t: Trail, chain: seq<string>)
      requires Fits(c)
    {
      && Led(reg, c.base, c.plan, t) && Timely(c, t) && AllFailed(c, t) && (t.On? ==> c.fallbackAllowed)
      && AllSetUp(reg, Visited(t)) && chain == Hops(reg, c.base, Visited(t))
      && c.base <= chain && |chain| == |c.base| + |Visited(t)|
    }

    /** The last attempt ended the walk and is not in the chain. */
    ghost predicate Ended(c: Course, t: Trail, chain: seq<string>)
      requires Fits(c)
    {
      t.On? && Led(reg, c.base, c.plan, t) && Timely(c, t) && t.eid in reg.setups && Walked(c, t.before, chain)
    }

    ghost function Last(c: Course, t: Trail): Outcome
      requires Fits(c) && t.On? && t.eid in reg.setups
    {
      ComesTo(c, |Visited(t.before)|, t.eid)
    }

    /** The last attempt's outcome is the answer: it succeeded, ends every walk, or
        failed where no failure is allowed. */
    ghost predicate Settled(c: Course, t: Trail, chain: seq<string>, a: Answer)
      requires Fits(c)
    {
      Ended(c, t, chain) && !c.GoesOn(Last(c, t)) && a == Verdict(Last(c, t), t.eid)
    }

    /** All attempts failed, the plan is used up, and the moment offers no hop. */
    ghost predicate Stuck(c: Course, t: Trail, chain: seq<string>)
      requires Fits(c)
    {
      && Walked(c, t, chain) && |Visited(t)| >= |c.plan|
      && reg.Next(Meanwhile(c, |Visited(t)|), Tried(chain), false).None?
    }

    /** All attempts failed, and there is a hop to go on to. */
    ghost predicate Walking(c: Course, t: Trail, chain: seq<string>)
      requires Fits(c)
    {
      && Walked(c, t, chain)
      && exists e :: e in reg.setups && Leads(reg, c.base, c.plan, Visited(t), Meanwhile(c, |Visited(t)|), e)
    }

    /** A finished walk: settled by its last attempt, or stuck and refused. */
    ghost predicate Finished(c: Course, t: Trail, chain: seq<string>, a: Answer)
      requires Fits(c)
    {
      if a.Exhausted503? then t.On? && Stuck(c, t, chain) && a == Refusal(Meanwhile(c, |Visited(t)|), chain)
      else Settled(c, t, chain, a)
    }

    lemma FinishedIsLed(c: Course, t: Trail, chain: seq<string>, a: Answer)
      requires Fits(c) && Finished(c, t, chain, a)
      ensures t.On? && Led(reg, c.base, c.plan, t) && t.eid in reg.setups
      ensures Loopless(reg) && KeysDiffer(reg, c.plan) ==> KeysDiffer(reg, Visited(t))
    {
      if Loopless(reg) && KeysDiffer(reg, c.plan) {
        NoRetry(reg, c.base, c.plan, t);
      }
    }

    /** In a loopless registry a walk that still has a hop has not used up the
        backends to hop to. */
    lemma WalkingIsShort(c: Course, t: Trail, chain: seq<string>)
      requires Fits(c) && Walking(c, t, chain) && Loopless(reg)
      ensures |Visited(t)| < |c.plan| + |Routable(reg)|
    {
      var m := Meanwhile(c, |Visited(t)|);
      var e :| e in reg.setups && Leads(reg, c.base, c.plan, Visited(t), m, e);
      HopsAreBounded(reg, c.base, c.plan, On(t, m, e));
    }

    /** Two walks of one course agree as far as the shorter one goes. */
    lemma {:induction false} WalksAgree(c: Course, t: Trail, u: Trail)
      requires Fits(c) && Led(reg, c.base, c.plan, t) && Led(reg, c.base, c.plan, u) && Timely(c, t) && Timely(c, u)
      requires |Visited(t)| == |Visited(u)|
      ensures t == u
    {
      if t.On? {
        WalksAgree(c, t.before, u.before);
      }
    }

    /** A course has one finish: a walk that finished had no way to go on. */
    lemma {:induction false} FinishesOnce(c: Course, t: Trail, chain: seq<string>, a: Answer,
                                          u: Trail, longer: seq<string>, b: Answer)
      requires Fits(c) && Finished(c, t, chain, a) && Finished(c, u, longer, b)
      ensures t == u && chain == longer && a == b
    {
      if |Visited(t)| < |Visited(u)| {
        NoneLonger(c, t, chain, a, u);
      } else if |Visited(u)| < |Visited(t)| {
        NoneLonger(c, u, longer, b, t);
      } else {
        WalksAgree(c, t, u);
      }
    }

    lemma {:induction false} NoneLonger(c: Course, t: Trail, chain: seq<string>, a: Answer, u: Trail)
      requires Fits(c) && Finished(c, t, chain, a)
      requires u.On? && Led(reg, c.base, c.plan, u) && Timely(c, u) && AllFailed(c, u.before)
      requires u.before.On? ==> c.fallbackAllowed
      ensures |Visited(u)| <= |Visited(t)|
    {
      if |Visited(u)| > |Visited(t)| {
        if |Visited(u.before)| > |Visited(t)| {
          NoneLonger(c, t, chain, a, u.before);
        } else {
          WalksAgree(c, t, u.before);
        }
      }
    }

    /** Without expanded endpoints a refusal means that nothing is eligible, and blames
        the budget exactly where lifting it would make something eligible. */
    lemma RefusalMeans(m: Moment, chain: seq<string>)
      requires Valid() && reg.Covers(m) && reg.ProviderKeyed() && reg.Next(m, Tried(chain), false).None?
      ensures reg.NoneEligible(m, Tried(chain), false)
      ensures Refusal(m, chain).budgetBlocked <==>
                reg.hasBudget && !m.allows && !reg.NoneEligible(m, Tried(chain), true)
    {
      reg.ProviderKeyedIsComplete(m, Tried(chain), false);
      reg.ProviderKeyedIsComplete(m, Tried(chain), true);
    }

    lemma Fails(c: Course, t: Trail, chain: seq<string>, m: Moment, e: string)
      requires Fits(c) && Walked(c, t, chain) && c.fallbackAllowed
      requires m == Meanwhile(c, |Visited(t)|) && e in reg.setups
      requires Leads(reg, c.base, c.plan, Visited(t), m, e) && c.Goes(ComesTo(c, |Visited(t)|, e))
      ensures Walked(c, On(t, m, e), chain + [Hop(reg.Key(e), e)])
    {
      HopsGrow(reg, c.base, Visited(t), e);
      var u := On(t, m, e);
      assert Visited(u) == Visited(t) + [e];
      assert Led(reg, c.base, c.plan, u) && Timely(c, u) && AllFailed(c, u);
    }

    /** A walk of any length, while every attempt fails and nothing changes at a moment
        that favours a provider it can return to. */
    lemma {:induction false} GoesOnFor(c: Course, p: string, n: nat) returns (t: Trail, chain: seq<string>)
      requires Fits(c) && AllSetUp(reg, c.plan) && c.fallbackAllowed && c.later == []
      requires Favours(reg, c.now, p) && CanLoop(reg, p)
      requires forall i: nat, e :: e in reg.setups ==> ComesTo(c, i, e).Failed?
      ensures Walked(c, t, chain) && |Visited(t)| == n
    {
      if n == 0 {
        t, chain := Nil, c.base;
      } else {
        t, chain := GoesOnFor(c, p, n - 1);
        var e := LeadsOn(c, p, t, chain);
        Fails(c, t, chain, c.now, e);
        t, chain := On(t, c.now, e), chain + [Hop(reg.Key(e), e)];
      }
    }

    lemma LeadsOn(c: Course, p: string, t: Trail, chain: seq<string>) returns (e: string)
      requires Fits(c) && AllSetUp(reg, c.plan) && Walked(c, t, chain)
      requires Favours(reg, c.now, p) && CanLoop(reg, p)
      ensures e in reg.setups && Leads(reg, c.base, c.plan, Visited(t), c.now, e)
    {
      e := Returned(reg, c.now, p, c.plan, |Visited(t)|, chain);
    }

    /** After so many rounds the request may still be walking. */
    ghost predicate WalksOn(c: Course, rounds: nat)
      requires Fits(c)
    {
      exists t, chain :: Walking(c, t, chain) && |Visited(t)| == rounds
    }

    lemma WalksFor(c: Course, p: string, rounds: nat)
      requires Fits(c) && AllSetUp(reg, c.plan) && c.fallbackAllowed && c.later == []
      requires Favours(reg, c.now, p) && CanLoop(reg, p)
      requires forall i: nat, e :: e in reg.setups ==> ComesTo(c, i, e).Failed?
      ensures WalksOn(c, rounds)
    {
      var t, chain := GoesOnFor(c, p, rounds);
      var e := LeadsOn(c, p, t, chain);
      assert Meanwhile(c, |Visited(t)|) == c.now;
      assert Walking(c, t, chain);
    }

    /** Where the registry is not loopless and the backends have room, a request may walk
        for ever, whatever chain it continues and endpoints it goes through first: after
        any number of rounds it is still walking, and no walk of it finishes. */
    lemma NeverAnswered(held: map<string, nat>, base: seq<string>, plan: seq<string>, reopening: bool)
      returns (c: Course)
      requires Valid() && !Loopless(reg) && AllSetUp(reg, plan)
      requires held.Keys == backends.Keys && forall k :: k in backends ==> held[k] < backends[k].queueMax
      ensures Fits(c) && c.held == held && c.base == base && c.plan == plan && c.reopening == reopening
      ensures forall rounds: nat :: WalksOn(c, rounds)
      ensures forall t, chain :: !Stuck(c, t, chain) && (Ended(c, t, chain) ==> c.GoesOn(Last(c, t)))
      ensures forall t, chain, a :: !Finished(c, t, chain, a)
    {
      var p, m := Favourite(reg, backends.Keys);
      c := Course(held, m, [], [], true, base, plan, reopening);
      forall rounds: nat
        ensures WalksOn(c, rounds)
      {
        WalksFor(c, p, rounds);
      }
      forall t, chain
        ensures !Stuck(c, t, chain)
      {
        if Stuck(c, t, chain) {
          var e := Returned(reg, m, p, plan, |Visited(t)|, chain);
        }
      }
    }

    /** Where the walk stands: an alias to try and what is left of the plan after it,
        or nothing left of the plan. */
    ghost predicate Ready(c: Course, t: Trail, m: Moment, alias: Option<string>, within: seq<string>)
      requires Fits(c) && AllSetUp(reg, Visited(t))
    {
      if alias.None? then |Visited(t)| >= |c.plan|
      else
        && alias.value in reg.setups && Leads(reg, c.base, c.plan, Visited(t), m, alias.value)
        && within == Left(c.plan, |Visited(t)| + 1)
    }

    /** The rest of the endpoint plan first, then the search across models. */
    method Onward(chain: seq<string>, within: seq<string>, ghost c: Course, ghost t: Trail)
      returns (alias: Option<string>, rest: seq<string>)
      requires Fits(c) && AllSetUp(reg, c.plan) && Walked(c, t, chain) && within == Left(c.plan, |Visited(t)|)
      requires Now() == Meanwhile(c, |Visited(t)|)
      ensures Now() == old(Now()) && Ready(c, t, Now(), alias, rest) && (alias.None? ==> Stuck(c, t, chain))
    {
      if within != [] {
        WithinPlan(c, t, Now(), chain);
        return Some(within[0]), within[1..];
      }
      rest := within;
      alias := NextAlias(chain, false);
      PastPlan(c, t, Now(), chain, alias);
    }

    lemma WithinPlan(c: Course, t: Trail, m: Moment, chain: seq<string>)
      requires Fits(c) && AllSetUp(reg, c.plan) && Walked(c, t, chain) && Left(c.plan, |Visited(t)|) != []
      ensures var within := Left(c.plan, |Visited(t)|); Ready(c, t, m, Some(within[0]), within[1..])
    {
      LeftOver(c.plan, |Visited(t)|);
    }

    lemma PastPlan(c: Course, t: Trail, m: Moment, chain: seq<string>, alias: Option<string>)
      requires Fits(c) && Walked(c, t, chain) && |Visited(t)| >= |c.plan| && m == Meanwhile(c, |Visited(t)|)
      requires alias == reg.Next(m, Tried(chain), false)
      ensures Ready(c, t, m, alias, []) && (alias.None? ==> Stuck(c, t, chain))
    {
      if alias.Some? {
        assert Leads(reg, c.base, c.plan, Visited(t), m, alias.value);
      }
    }

    ghost function Untried(chain: seq<string>): set<string>
      requires Valid()
    {
      Routable(reg) - Tried(chain)
    }

    /** One attempt of the walk, recorded as a hop if the walk goes on. */
    method TryOne(alias: string, streaming: bool, chain: seq<string>, c: Course, ghost t: Trail)
      returns (o: Outcome, longer: seq<string>)
      requires Fits(c) && c.held == Held() && t.On? && t.eid == alias && Walked(c, t.before, chain)
      requires alias in reg.setups && Leads(reg, c.base, c.plan, Visited(t.before), t.m, alias)
      requires t.m == Meanwhile(c, |Visited(t.before)|)
      modifies this`allows, Slots()
      ensures o == Last(c, t) && Held() == Grown(c.held, alias, o.Served? && streaming)
      ensures !c.GoesOn(o) ==> Ended(c, t, chain) && longer == chain
      ensures c.GoesOn(o) ==> Walked(c, t, longer) && Now() == Meanwhile(c, |Visited(t)|)
    {
      AttemptMeans(c, t, chain);
      o := Attempt(alias, streaming, Fate(c.fates, |chain| - |c.base|));
      longer := chain;
      if c.GoesOn(o) {
        longer := MoveOn(alias, chain, c);
      }
    }

    lemma AttemptMeans(c: Course, t: Trail, chain: seq<string>)
      requires Fits(c) && t.On? && Walked(c, t.before, chain) && t.eid in reg.setups
      requires Leads(reg, c.base, c.plan, Visited(t.before), t.m, t.eid) && t.m == Meanwhile(c, |Visited(t.before)|)
      ensures |chain| - |c.base| == |Visited(t.before)| == |Visited(t)| - 1 && Ended(c, t, chain)
      ensures c.GoesOn(Last(c, t)) ==> Walked(c, t, chain + [Hop(reg.Key(t.eid), t.eid)])
    {
      if c.GoesOn(Last(c, t)) {
        Fails(c, t.before, chain, t.m, t.eid);
      }
    }

    /** Record a failed hop; time passes. */
    method MoveOn(alias: string, chain: seq<string>, c: Course) returns (longer: seq<string>)
      requires Fits(c) && alias in reg.setups && |chain| >= |c.base|
      modifies this`allows, Slots()
      ensures longer == chain + [Hop(reg.Key(alias), alias)] && Held() == old(Held())
      ensures Now() == Meanwhile(c, |longer| - |c.base|)
    {
      longer := RecordHop(alias, chain);
      Elapse(Meanwhile(c, |longer| - |c.base|));
    }

    /** Between two attempts: every slot is back, and the walk is ready for `alias` or
        stuck. */
    ghost predicate Between(c: Course, t: Trail, chain: seq<string>, alias: Option<string>, within: seq<string>)
      reads this, Slots()
    {
      && Fits(c) && AllSetUp(reg, c.plan) && Held() == c.held && Now() == Meanwhile(c, |Visited(t)|)
      && Walked(c, t, chain) && Ready(c, t, Now(), alias, within) && (alias.None? ==> Stuck(c, t, chain))
    }

    /** The trail with an attempt on `e` at the moment there is. */
    ghost function Further(c: Course, t: Trail, e: string): Trail
    {
      On(t, Meanwhile(c, |Visited(t)|), e)
    }

    /** One attempt and, if the walk goes on, where it leads. */
    method Round(alias: string, within: seq<string>, chain: seq<string>, streaming: bool, c: Course, ghost t: Trail)
      returns (o: Outcome, next: Option<string>, rest: seq<string>, longer: seq<string>)
      requires Between(c, t, chain, Some(alias), within)
      modifies this`allows, Slots()
      ensures alias in reg.setups && o == Last(c, Further(c, t, alias))
      ensures !c.GoesOn(o) ==>
                && Ended(c, Further(c, t, alias), chain) && longer == chain
                && Held() == Grown(c.held, alias, o.Served? && streaming)
      ensures c.GoesOn(o) ==> Between(c, Further(c, t, alias), longer, next, rest) && |longer| == |chain| + 1
    {
      ghost var u := Further(c, t, alias);
      o, longer := TryOne(alias, streaming, chain, c, u);
      next, rest := None, within;
      if c.GoesOn(o) {
        next, rest := Onward(longer, within, c, u);
      }
    }

    /** How far a walk got within some rounds: settled, stuck, or still going. */
    ghost predicate Reached(c: Course, t: Trail, chain: seq<string>, settled: Option<Answer>, stuck: bool, rounds: nat)
      requires Fits(c)
    {
      if settled.Some? then Settled(c, t, chain, settled.value)
      else if stuck then Stuck(c, t, chain)
      else Walking(c, t, chain) && |Visited(t)| == rounds
    }

    /** Hop until an attempt settles the request, no hop is left, or the rounds are
        used up. */
    method TryAll(first: string, more: seq<string>, streaming: bool, c: Course, rounds: nat)
      returns (settled: Option<Answer>, stuck: bool, chain: seq<string>, ghost trail: Trail)
      requires Begins(c) && AllSetUp(reg, c.plan) && c.base == [] && c.plan == [first] + more && !c.reopening
      modifies this`allows, Slots()
      ensures Reached(c, trail, chain, settled, stuck, rounds)
      ensures settled.None? && stuck ==> trail.On? && Now() == Meanwhile(c, |Visited(trail)|)
      ensures Held() ==
                if settled.Some? && settled.value.Ok? && streaming then Grown(c.held, trail.eid, true) else c.held
    {
      chain, trail := [], Nil;
      var within := more;
      var alias := Some(first);
      Start(first, more, c);
      while alias.Some? && |chain| < rounds
        invariant Between(c, trail, chain, alias, within) && (alias.None? ==> trail.On?) && |chain| <= rounds
        decreases rounds - |chain|
      {
        var e := alias.value;
        var o;
        o, alias, within, chain := Round(e, within, chain, streaming, c, trail);
        trail := Further(c, trail, e);
        if !c.GoesOn(o) {
          return Some(Verdict(o, e)), false, chain, trail;
        }
      }
      settled, stuck := None, alias.None?;
      StillWalking(c, trail, chain, alias, within);
    }

    lemma Start(first: string, more: seq<string>, c: Course)
      requires Begins(c) && AllSetUp(reg, c.plan) && c.base == [] && c.plan == [first] + more
      ensures Between(c, Nil, [], Some(first), more)
    {
      assert c.plan[0] == first && first in c.plan && c.plan[1..] == more;
    }

    lemma StillWalking(c: Course, t: Trail, chain: seq<string>, alias: Option<string>, within: seq<string>)
      requires Between(c, t, chain, alias, within)
      ensures if alias.None? then Stuck(c, t, chain) else Walking(c, t, chain)
      ensures |chain| == |c.base| + |Visited(t)|
    {
    }

    /** How a driven walk stands after some rounds: finished with an answer, or still
        going. */
    ghost predicate Driven(c: Course, t: Trail, chain: seq<string>, a: Option<Answer>, rounds: nat)
      requires Fits(c)
    {
      if a.Some? then t.On? && t.eid in reg.setups && Finished(c, t, chain, a.value)
      else Walking(c, t, chain) && |Visited(t)| == rounds
    }

    /** Drive the walk over any attempt. A pin fails loudly; everything else goes
        through its endpoints and then from best backend to best backend, and gives
        up only when the search finds no hop. No answer means that the walk is still
        going after so many rounds, which a loopless registry rules out. */
    method ServeWithWalk(first: string, more: seq<string>, streaming: bool, c: Course, rounds: nat)
      returns (a: Option<Answer>, chain: seq<string>, ghost trail: Trail)
      requires Begins(c) && AllSetUp(reg, c.plan) && c.base == [] && c.plan == [first] + more && !c.reopening
      modifies this`allows, Slots()
      ensures Driven(c, trail, chain, a, rounds)
      ensures Held() == if a.Some? && a.value.Ok? && streaming then Grown(c.held, trail.eid, true) else c.held
      ensures a.Some? && a.value.Exhausted503? ==> Now() == Meanwhile(c, |Visited(trail)|)
      ensures Loopless(reg) && rounds >= |c.plan| + |Routable(reg)| ==> a.Some?
      ensures Loopless(reg) && a.Some? && KeysDiffer(reg, c.plan) ==> KeysDiffer(reg, Visited(trail))
    {
      var settled, stuck;
      settled, stuck, chain, trail := TryAll(first, more, streaming, c, rounds);
      a := Answered(settled, stuck, chain, c, trail, rounds);
    }

    /** The answer of a walk that stopped: its verdict, or the refusal of a stuck one. */
    method Answered(settled: Option<Answer>, stuck: bool, chain: seq<string>, ghost c: Course, ghost t: Trail,
                    ghost rounds: nat)
      returns (a: Option<Answer>)
      requires Fits(c) && Reached(c, t, chain, settled, stuck, rounds)
      requires settled.None? && stuck ==> t.On? && Now() == Meanwhile(c, |Visited(t)|)
      ensures Now() == old(Now()) && Driven(c, t, chain, a, rounds)
      ensures settled.Some? ==> a == settled
      ensures settled.None? && a.Some? ==> stuck && a.value.Exhausted503?
      ensures a.Some? && a.value.Exhausted503? ==> settled.None? && stuck
      ensures Loopless(reg) && rounds >= |c.plan| + |Routable(reg)| ==> a.Some?
      ensures Loopless(reg) && a.Some? && KeysDiffer(reg, c.plan) ==> KeysDiffer(reg, Visited(t))
    {
      a := settled;
      if stuck && settled.None? {
        var refusal := GiveUp(chain);
        a := Some(refusal);
      }
      DrivenFrom(c, t, chain, settled, stuck, a, rounds);
    }

    lemma DrivenFrom(c: Course, t: Trail, chain: seq<string>, settled: Option<Answer>, stuck: bool,
                     a: Option<Answer>, rounds: nat)
      requires Fits(c) && Reached(c, t, chain, settled, stuck, rounds) && (settled.None? && stuck ==> t.On?)
      requires a == if settled.Some? then settled
                    else if stuck then Some(Refusal(Meanwhile(c, |Visited(t)|), chain)) else None
      ensures Driven(c, t, chain, a, rounds) && (a.Some? && a.value.Exhausted503? ==> settled.None? && stuck)
      ensures Loopless(reg) && rounds >= |c.plan| + |Routable(reg)| ==> a.Some?
      ensures Loopless(reg) && a.Some? && KeysDiffer(reg, c.plan) ==> KeysDiffer(reg, Visited(t))
    {
      if a.Some? {
        FinishedIsLed(c, t, chain, a.value);
      } else if Loopless(reg) {
        WalkingIsShort(c, t, chain);
      }
    }

    /** Open a stream on the first backend of the search that can. */
    method OpenNext(chain: seq<string>, c: Course, rounds: nat)
      returns (got: Option<string>, stuck: bool, longer: seq<string>, ghost trail: Trail)
      requires Begins(c) && c.base == chain && c.plan == [] && c.reopening && c.fallbackAllowed
      modifies this`allows, Slots()
      ensures got.Some? ==> trail.On? && trail.eid == got.value && Ended(c, trail, longer) && Last(c, trail).Served?
      ensures got.None? && stuck ==> Stuck(c, trail, longer) && Now() == Meanwhile(c, |Visited(trail)|)
      ensures got.None? && !stuck ==> Walking(c, trail, longer) && |Visited(trail)| == rounds
      ensures Held() == if got.Some? then Grown(c.held, got.value, true) else c.held
    {
      longer, trail := chain, Nil;
      var alias, rest := Onward(longer, [], c, trail);
      while alias.Some? && |longer| < |chain| + rounds
        invariant Between(c, trail, longer, alias, rest) && |longer| <= |chain| + rounds
        decreases |chain| + rounds - |longer|
      {
        var e := alias.value;
        var o;
        o, alias, rest, longer := Round(e, rest, longer, true, c, trail);
        trail := Further(c, trail, e);
        if !c.GoesOn(o) {
          return Some(e), false, longer, trail;
        }
      }
      got, stuck := None, alias.None?;
      StillWalking(c, trail, longer, alias, rest);
    }

    /** Walk on after a stream died before its first token: like a failure to open. */
    method Reopen(chain: seq<string>, c: Course, rounds: nat)
      returns (next: Option<string>, stuck: bool, longer: seq<string>, ghost trail: Trail)
      requires Begins(c) && c.base == chain && c.plan == [] && c.reopening
      modifies this`allows, Slots()
      ensures !c.fallbackAllowed ==> next.None? && stuck && longer == chain
      ensures next.Some? ==>
                && c.fallbackAllowed && trail.On? && trail.eid == next.value
                && Ended(c, trail, longer) && Last(c, trail).Served?
      ensures next.Some? ==> next.value in reg.setups && reg.Key(next.value) in Untried(longer)
      ensures c.fallbackAllowed && next.None? && stuck ==>
                Stuck(c, trail, longer) && Now() == Meanwhile(c, |Visited(trail)|)
      ensures next.None? && !stuck ==> Walking(c, trail, longer) && |Visited(trail)| == rounds
      ensures Loopless(reg) ==>
                (next.Some? ==> ':' !in reg.Key(next.value)) && (rounds >= |Routable(reg)| ==> next.Some? || stuck)
      ensures chain <= longer
      ensures Held() == if next.Some? then Grown(c.held, next.value, true) else c.held
    {
      if !c.fallbackAllowed {
        return None, true, chain, Nil;
      }
      next, stuck, longer, trail := OpenNext(chain, c, rounds);
      if next.Some? {
        HopIsUntried(trail.m, longer);
      } else if !stuck && Loopless(reg) {
        WalkingIsShort(c, trail, longer);
      }
    }

    lemma HopIsUntried(m: Moment, chain: seq<string>)
      requires Valid() && reg.Covers(m) && reg.Next(m, Tried(chain), false).Some?
      ensures var e := reg.Next(m, Tried(chain), false).value;
              && e in reg.setups && reg.Key(e) in Untried(chain)
              && (Loopless(reg) ==> ':' !in reg.Key(e))
    {
      NextIsRoutable(reg, m, Tried(chain));
      reg.NextIsNew(m, Tried(chain), false);
      if Loopless(reg) {
        HopHasNoColon(reg, m, Tried(chain));
      }
    }
  }

  /** A gateway whose second model has only an expanded endpoint refuses a request
      whose first attempt fails, whatever the moments on the way: also when that
      endpoint is up, untried and affordable. */
  lemma ExpandedIsRefused(gw: Gateway, plain: string, model: string, eid: string, acme: string, beta: string,
                          c: Course, t: Trail, chain: seq<string>, a: Answer)
    requires plain != model && plain != eid && acme != beta && acme != eid && ':' !in acme
    requires '@' in eid && '@' !in plain && '@' !in acme && '@' !in beta
    requires gw.reg == TwoModels(plain, model, eid, acme, beta) && gw.Fits(c)
    requires c.base == [] && c.plan == [plain] && !c.reopening && c.fallbackAllowed && gw.ComesTo(c, 0, plain).Failed?
    requires gw.Finished(c, t, chain, a)
    ensures Visited(t) == [plain] && a.Exhausted503?
  {
    OnlyTheFirst(gw.reg, plain, model, eid, acme, beta, t);
    assert t.before == Nil;
  }

  lemma {:induction false} OnlyTheFirst(r: Registry, plain: string, model: string, eid: string, acme: string,
                                        beta: string, t: Trail)
    requires plain != model && plain != eid && acme != beta && acme != eid && ':' !in acme
    requires '@' in eid && '@' !in plain && '@' !in acme && '@' !in beta
    requires r == TwoModels(plain, model, eid, acme, beta) && r.Valid() && t.On? && Led(r, [], [plain], t)
    ensures t.before == Nil && t.eid == plain
  {
    if t.before.On? {
      OnlyTheFirst(r, plain, model, eid, acme, beta, t.before);
      var tried := Tried(Hops(r, [], [plain]));
      TriedGrows(r, [], [], plain);
      assert [] + [plain] == [plain] && r.Key(plain) == acme;
      assert r.Key(eid) == eid;
      ExpandedIsNeverFound(plain, model, eid, acme, beta, t.m, tried);
    }
  }
}
