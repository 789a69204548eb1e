/** The streaming relay: backend events in, client lines out. A stream that dies
    before its first content token is silently replaced; one that dies later ends
    in an error line. No answer is ever spliced from two streams. */
module Relay {
  import opened Messages
  import opened Registry
  import opened Server
  import opened Walk

  datatype StreamEvent = Content(text: string) | Usage(output: nat)

  /** Everything a stream will ever say, and whether it then dies. */
  datatype Stream = Stream(events: seq<StreamEvent>, dies: bool)

  /** The n-th stream opened in a run; past the list every stream dies at once. */
  function Opened(streams: seq<Stream>, n: nat): Stream
  {
    if n < |streams| then streams[n] else Stream([], true)
  }

  datatype Line =
    | ContentLine(source: nat, text: string)   // from the source-th stream opened
    | EndLine(usage: nat, alias: string)
    | ErrorLine(tokens: nat, backend: string)

  datatype Seen = End | StreamError | Disconnect

  datatype Death = Death(tokens: nat, restartable: bool)

  /** The count the relay keeps per stream. */
  class StreamAccount {
    var contentTokens: nat

    constructor ()
      ensures contentTokens == 0
    {
      contentTokens := 0;
    }

    method Content()
      modifies this
      ensures contentTokens == old(contentTokens) + 1
    {
      contentTokens := contentTokens + 1;
    }

    method Died() returns (d: Death)
      ensures d == Death(contentTokens, contentTokens == 0)
    {
      d := Death(contentTokens, contentTokens == 0);
    }
  }

  /** The content lines of the first `n` events of a stream. */
  function Lines(events: seq<StreamEvent>, source: nat): seq<Line>
  {
    if events == [] then []
    else Lines(events[..|events| - 1], source) +
         match events[|events| - 1] case Content(text) => [ContentLine(source, text)] case Usage(_) => []
  }

  function LastUsage(events: seq<StreamEvent>): nat
  {
    if events == [] then 0
    else match events[|events| - 1] case Content(_) => LastUsage(events[..|events| - 1]) case Usage(n) => n
  }

  /** All the stream's content, then the one closing line its fate calls for. */
  predicate EndsWith(lines: seq<Line>, s: Stream, source: nat)
  {
    && lines != [] && lines[..|lines| - 1] == Lines(s.events, source)
    && match lines[|lines| - 1]
       case ContentLine(_, _) => false
       case EndLine(usage, _) => !s.dies && usage == LastUsage(s.events)
       case ErrorLine(tokens, _) => s.dies && tokens == |lines| - 1
  }

  /** The first `n` streams all died without a single content token. */
  predicate AllBarren(streams: seq<Stream>, n: nat)
  {
    n > 0 ==>
      && AllBarren(streams, n - 1)
      && Opened(streams, n - 1).dies && Lines(Opened(streams, n - 1).events, n - 1) == []
  }

  /** What the client was told when this outcome is observed. */
  predicate Told(seen: Seen, lines: seq<Line>, s: Stream, source: nat, sent: nat)
    requires sent <= |s.events|
  {
    match seen
    case Disconnect => lines == Lines(s.events[..sent], source) && lines != []
    case End => !s.dies && EndsWith(lines, s, source)
    case StreamError => s.dies && EndsWith(lines, s, source)
  }

  lemma {:induction false} LinesOneSource(events: seq<StreamEvent>, source: nat)
    ensures forall line :: line in Lines(events, source) ==> line.ContentLine? && line.source == source
  {
    if events != [] {
      LinesOneSource(events[..|events| - 1], source);
    }
  }

  /** Never spliced: every content line a client got came from the one stream. */
  lemma {:induction false} NeverSpliced(seen: Seen, lines: seq<Line>, s: Stream, source: nat, sent: nat)
    requires sent <= |s.events| && Told(seen, lines, s, source, sent)
    ensures forall line :: line in lines && line.ContentLine? ==> line.source == source
    ensures forall i :: 0 <= i < |lines| - 1 ==> lines[i].ContentLine?
  {
    LinesOneSource(s.events, source);
    LinesOneSource(s.events[..sent], source);
    if !seen.Disconnect? {
      var k := |lines| - 1;
      assert lines == lines[..k] + [lines[k]];
      forall i | 0 <= i < k
        ensures lines[i] in Lines(s.events, source)
      {
        assert lines[i] == lines[..k][i];
      }
    }
  }

  /** A stream without content has none in any part of it. */
  lemma {:induction false} LinesPrefix(events: seq<StreamEvent>, n: nat, source: nat)
    requires n <= |events| && Lines(events, source) == []
    ensures Lines(events[..n], source) == []
  {
    if n == |events| {
      assert events[..n] == events;
    } else {
      LinesPrefix(events[..|events| - 1], n, source);
      assert events[..|events| - 1][..n] == events[..n];
    }
  }

  datatype Ending = Hung | Closed | Died

  /** Relay one stream until it ends, dies, or the client hangs up at some line. */
  method Pump(s: Stream, source: nat, account: StreamAccount)
    returns (lines: seq<Line>, usage: nat, how: Ending, ghost sent: nat)
    requires account.contentTokens == 0
    modifies account
    ensures sent <= |s.events| && lines == Lines(s.events[..sent], source) && account.contentTokens == |lines|
    ensures how.Hung? ==> lines != []
    ensures !how.Hung? ==> how == (if s.dies then Died else Closed) && lines == Lines(s.events, source)
    ensures how.Closed? ==> usage == LastUsage(s.events)
  {
    lines, usage, sent := [], 0, 0;
    for i := 0 to |s.events|
      invariant sent == i && lines == Lines(s.events[..i], source) && account.contentTokens == |lines|
      invariant usage == LastUsage(s.events[..i])
    {
      sent := i + 1;
      assert s.events[..i + 1][..i] == s.events[..i];
      match s.events[i] {
        case Content(text) =>
          account.Content();
          lines := lines + [ContentLine(source, text)];
          var hangsUp := *;
          if hangsUp {
            return lines, usage, Hung, sent;
          }
        case Usage(n) => usage := n;
      }
    }
    assert s.events[..|s.events|] == s.events;
    how := if s.dies then Died else Closed;
  }

  /** Give back the one slot held on top of `base`. */
  method GiveBack(gw: Gateway, alias: string, ghost base: map<string, nat>)
    requires gw.Valid() && alias in gw.reg.setups
    requires gw.reg.Key(alias) in base && gw.Held() == gw.Grown(base, alias, true)
    modifies gw.Slots()
    ensures gw.Held() == base
  {
    var b := gw.backends[gw.reg.Key(alias)];
    assert gw.Held()[gw.reg.Key(alias)] == b.inFlight;
    b.Release();
    forall k | k in gw.backends
      ensures k in base && gw.backends[k].inFlight == base[k]
    {
      assert k in old(gw.Held());
    }
  }

  /** The chain when the stream on `alias` died. */
  function Dead(gw: Gateway, alias: string, chain: seq<string>): seq<string>
    requires alias in gw.reg.setups
  {
    chain + [Hop(gw.reg.Key(alias), alias)]
  }

  /** The untried backends whose failure will be recognised. */
  ghost function Fresh(gw: Gateway, chain: seq<string>): set<string>
    requires gw.Valid()
  {
    set k | k in gw.Untried(chain) && ':' !in k
  }

  /** After a stream on `alias` died and the walk went on to `next`, fewer backends
      are left. */
  lemma OneStreamLess(gw: Gateway, alias: string, chain: seq<string>, next: string, longer: seq<string>)
    requires gw.Valid() && alias in gw.reg.setups && next in gw.reg.setups && ':' !in gw.reg.Key(next)
    requires Dead(gw, alias, chain) <= longer && gw.reg.Key(next) in gw.Untried(longer)
    ensures |Fresh(gw, longer) - {gw.reg.Key(next)}| < |Fresh(gw, chain) - {gw.reg.Key(alias)}|
  {
    var died := Dead(gw, alias, chain);
    TriedAfter(chain, gw.reg.Key(alias), alias);
    assert forall h :: h in died ==> h in longer;
    assert Tried(died) <= Tried(longer);
    var A, B, k := Fresh(gw, longer) - {gw.reg.Key(next)}, Fresh(gw, chain) - {gw.reg.Key(alias)}, gw.reg.Key(next);
    assert k in B && k !in A && A <= B;
    Smaller(A, B - {k});
  }

  /** What the search for a replacement came to, of some course of events: the first hop
      that opened, a moment at which no hop was left, or a walk still going after so
      many rounds. */
  ghost predicate Sought(gw: Gateway, now: Moment, died: seq<string>, next: Option<string>, stuck: bool,
                         longer: seq<string>, rounds: nat)
  {
    exists c: Course, t: Trail ::
      && gw.Fits(c) && c.base == died && c.plan == [] && c.reopening && c.fallbackAllowed
      && if next.Some? then t.On? && t.eid == next.value && gw.Ended(c, t, longer) && gw.Last(c, t).Served?
         else if stuck then gw.Stuck(c, t, longer) && now == gw.Meanwhile(c, |Visited(t)|)
         else gw.Walking(c, t, longer) && |Visited(t)| == rounds
  }

  /** A replacement was sought if the request allows it, and else given up at once. */
  ghost predicate Resolved(gw: Gateway, now: Moment, died: seq<string>, fallbackAllowed: bool, next: Option<string>,
                           stuck: bool, longer: seq<string>, rounds: nat)
  {
    if fallbackAllowed then Sought(gw, now, died, next, stuck, longer, rounds)
    else next.None? && stuck && longer == died
  }

  lemma SoughtBy(gw: Gateway, c: Course, t: Trail, next: Option<string>, stuck: bool, longer: seq<string>, rounds: nat)
    requires gw.Fits(c) && c.plan == [] && c.reopening && c.fallbackAllowed
    requires if next.Some? then t.On? && t.eid == next.value && gw.Ended(c, t, longer) && gw.Last(c, t).Served?
             else if stuck then gw.Stuck(c, t, longer) else gw.Walking(c, t, longer) && |Visited(t)| == rounds
    ensures Sought(gw, gw.Meanwhile(c, |Visited(t)|), c.base, next, stuck, longer, rounds)
    ensures next.Some? || !stuck ==> forall now :: Sought(gw, now, c.base, next, stuck, longer, rounds)
  {
  }

  /** A stream that dies without a content token. */
  predicate Mute(s: Stream, source: nat)
  {
    s.dies && Lines(s.events, source) == []
  }

  /** A stream is over and the client was told how it ended. */
  ghost predicate Over(gw: Gateway, s: Stream, source: nat, lines: seq<Line>, seen: seq<Seen>, sent: nat,
                       base: map<string, nat>)
    reads gw, gw.Slots()
  {
    sent <= |s.events| && |seen| == 1 && Told(seen[0], lines, s, source, sent) && gw.Held() == base
  }

  /** A slot of the stream opened next is held, if one was, on a backend not yet tried. */
  ghost predicate Opens(gw: Gateway, next: Option<string>, longer: seq<string>, base: map<string, nat>)
    requires gw.Valid()
    reads gw, gw.Slots()
  {
    if next.None? then gw.Held() == base
    else
      && next.value in gw.reg.setups && gw.reg.Key(next.value) in base
      && gw.Held() == gw.Grown(base, next.value, true) && gw.reg.Key(next.value) in gw.Untried(longer)
  }

  /** A stream died without a word; its slot is back, and a slot of the next one is
      held if one was opened. */
  ghost predicate Silent(gw: Gateway, s: Stream, source: nat, lines: seq<Line>, next: Option<string>,
                         longer: seq<string>, base: map<string, nat>)
    requires gw.Valid()
    reads gw, gw.Slots()
  {
    Mute(s, source) && lines == [] && Opens(gw, next, longer, base)
  }

  /** The walk for a replacement stream ended, if the registry is loopless. */
  ghost predicate Prompt(gw: Gateway, seen: seq<Seen>, next: Option<string>, rounds: nat)
    requires gw.Valid() && (next.Some? ==> next.value in gw.reg.setups)
  {
    Loopless(gw.reg) ==>
      && (next.Some? ==> ':' !in gw.reg.Key(next.value))
      && (rounds >= |Routable(gw.reg)| ==> next.Some? || seen != [])
  }

  /** A stream that died before its first token joins the walk: its backend is
      a failed hop, and the walk goes on as after a failure to open. Stuck, the error is
      observed; nothing opened and nothing observed means that the walk is still going
      after so many rounds. */
  method Restart(gw: Gateway, alias: string, chain: seq<string>, fallbackAllowed: bool, rounds: nat)
    returns (next: Option<string>, seen: seq<Seen>, longer: seq<string>)
    requires gw.Valid() && alias in gw.reg.setups
    modifies gw`allows, gw.Slots()
    ensures Dead(gw, alias, chain) <= longer
    ensures Resolved(gw, gw.Now(), Dead(gw, alias, chain), fallbackAllowed, next, seen != [], longer, rounds)
    ensures seen == [] || (seen == [StreamError] && next.None?)
    ensures seen == [] ==> fallbackAllowed
    ensures Opens(gw, next, longer, old(gw.Held())) && Prompt(gw, seen, next, rounds)
  {
    var fates: seq<Outcome>, later: seq<Moment> := *, *;
    var died := Dead(gw, alias, chain);
    var c := Course(gw.Held(), gw.Now(), fates, later, fallbackAllowed, died, [], true);
    var stuck;
    ghost var trail;
    next, stuck, longer, trail := gw.Reopen(died, c, rounds);
    if fallbackAllowed {
      SoughtBy(gw, c, trail, next, stuck, longer, rounds);
    }
    seen := if next.None? && stuck then [StreamError] else [];
  }

  /** A stream died: it is replaced if it said nothing, and else reported. */
  method AfterDeath(gw: Gateway, alias: string, account: StreamAccount, chain: seq<string>, fallbackAllowed: bool,
                    rounds: nat)
    returns (closing: seq<Line>, seen: seq<Seen>, next: Option<string>, longer: seq<string>)
    requires gw.Valid() && alias in gw.reg.setups
    modifies gw`allows, gw.Slots()
    ensures seen == [] || (seen == [StreamError] && next.None?)
    ensures closing == if seen == [] then [] else [ErrorLine(account.contentTokens, gw.reg.Key(alias))]
    ensures account.contentTokens == old(account.contentTokens)
    ensures seen == [] ==> fallbackAllowed && account.contentTokens == 0
    ensures Opens(gw, next, longer, old(gw.Held())) && Prompt(gw, seen, next, rounds)
    ensures chain <= longer && (next.Some? ==> Dead(gw, alias, chain) <= longer)
    ensures account.contentTokens == 0 ==>
              Resolved(gw, gw.Now(), Dead(gw, alias, chain), fallbackAllowed, next, seen != [], longer, rounds)
  {
    longer, next, seen := chain, None, [StreamError];
    var death := account.Died();
    if death.restartable {
      next, seen, longer := Restart(gw, alias, chain, fallbackAllowed, rounds);
    }
    closing := if seen == [] then [] else [ErrorLine(death.tokens, gw.reg.Key(alias))];
  }

  /** A stream is over: the client hung up, it ended, or it died and is replaced or
      reported. The slot is given back before anything else happens. */
  method Conclude(gw: Gateway, alias: string, s: Stream, source: nat, how: Ending, account: StreamAccount,
                  ghost relayed: seq<Line>, usage: nat, chain: seq<string>, fallbackAllowed: bool,
                  ghost base: map<string, nat>, ghost sent: nat, rounds: nat)
    returns (closing: seq<Line>, seen: seq<Seen>, next: Option<string>, longer: seq<string>)
    requires gw.Valid()
    requires alias in gw.reg.setups && gw.reg.Key(alias) in base && gw.Held() == gw.Grown(base, alias, true)
    requires sent <= |s.events| && relayed == Lines(s.events[..sent], source) && account.contentTokens == |relayed|
    requires how.Hung? ==> relayed != []
    requires !how.Hung? ==> how == (if s.dies then Died else Closed) && relayed == Lines(s.events, source)
    requires how.Closed? ==> usage == LastUsage(s.events)
    modifies gw`allows, gw.Slots()
    ensures seen != [] ==> next.None? && Over(gw, s, source, relayed + closing, seen, sent, base)
    ensures seen == [] ==> fallbackAllowed && Silent(gw, s, source, relayed + closing, next, longer, base)
    ensures chain <= longer && (next.Some? ==> Dead(gw, alias, chain) <= longer)
    ensures how.Died? && relayed == [] ==>
              Resolved(gw, gw.Now(), Dead(gw, alias, chain), fallbackAllowed, next, seen != [], longer, rounds)
    ensures Prompt(gw, seen, next, rounds)
  {
    GiveBack(gw, alias, base);
    match how {
      case Hung =>
        assert relayed + [] == relayed;
        return [], [Disconnect], None, chain;
      case Closed =>
        return [EndLine(usage, alias)], [End], None, chain;
      case Died =>
        closing, seen, next, longer :=
          AfterDeath(gw, alias, account, chain, fallbackAllowed, rounds);
        assert (relayed + closing)[..|relayed|] == relayed;
    }
  }

  /** A slot of `alias` is held on top of `base`. */
  ghost predicate Holds(gw: Gateway, alias: string, base: map<string, nat>)
    requires gw.Valid()
    reads gw, gw.Slots()
  {
    alias in gw.reg.setups && gw.reg.Key(alias) in base && gw.Held() == gw.Grown(base, alias, true)
  }

  /** After the rounds: one outcome was observed and every slot is back, or every
      stream so far died without a word and only `open`, if any, holds a slot. */
  ghost predicate Ran(gw: Gateway, streams: seq<Stream>, lines: seq<Line>, seen: seq<Seen>, source: nat,
                      open: Option<string>, sent: nat, base: map<string, nat>)
    requires gw.Valid()
    reads gw, gw.Slots()
  {
    && AllBarren(streams, source)
    && if seen != [] then Over(gw, Opened(streams, source), source, lines, seen, sent, base)
       else lines == [] && if open.Some? then Holds(gw, open.value, base) else gw.Held() == base
  }

  lemma OneMoreStream(gw: Gateway, streams: seq<Stream>, lines: seq<Line>, seen: seq<Seen>, source: nat,
                      next: Option<string>, longer: seq<string>, sent: nat, base: map<string, nat>)
    requires gw.Valid() && AllBarren(streams, source)
    requires if seen != [] then Over(gw, Opened(streams, source), source, lines, seen, sent, base)
             else Silent(gw, Opened(streams, source), source, lines, next, longer, base)
    ensures seen != [] ==> Ran(gw, streams, lines, seen, source, next, sent, base)
    ensures seen == [] ==> Ran(gw, streams, lines, [], source + 1, next, 0, base)
  {
  }

  /** While the registry is loopless, no more streams were opened than backends are
      gone, and with enough rounds a replacement was found or an outcome observed. */
  ghost predicate Bounded(gw: Gateway, chain: seq<string>, seen: seq<Seen>, source: nat, open: Option<string>,
                          rounds: nat)
    requires gw.Valid()
  {
    && (open.Some? ==> open.value in gw.reg.setups)
    && (Loopless(gw.reg) ==>
          && (open.Some? ==> |Fresh(gw, chain) - {gw.reg.Key(open.value)}| + source <= |Routable(gw.reg)|)
          && (rounds >= |Routable(gw.reg)| ==> seen != [] || open.Some?))
  }

  /** Why a run that ended did so: the replacement of its last stream, if that was mute,
      or of the one before was sought to the end. */
  ghost predicate Explained(gw: Gateway, now: Moment, streams: seq<Stream>, seen: seq<Seen>, source: nat,
                            died: seq<string>, chain: seq<string>, fallbackAllowed: bool, rounds: nat)
  {
    seen == [] || Mute(Opened(streams, source), source) ==>
      Resolved(gw, now, died, fallbackAllowed, None, seen != [], chain, rounds)
  }

  /** Relay one stream and conclude it. */
  method RelayStream(gw: Gateway, alias: string, s: Stream, n: nat, chain: seq<string>, fallbackAllowed: bool,
                     rounds: nat, ghost base: map<string, nat>)
    returns (lines: seq<Line>, seen: seq<Seen>, next: Option<string>, longer: seq<string>, ghost sent: nat)
    requires gw.Valid() && Holds(gw, alias, base)
    modifies gw`allows, gw.Slots()
    ensures if seen != [] then next.None? && Over(gw, s, n, lines, seen, sent, base)
            else Silent(gw, s, n, lines, next, longer, base)
    ensures seen == [] ==> fallbackAllowed
    ensures Mute(s, n) ==>
              Resolved(gw, gw.Now(), Dead(gw, alias, chain), fallbackAllowed, next, seen != [], longer, rounds)
    ensures chain <= longer
    ensures next.Some? && ':' !in gw.reg.Key(next.value) ==>
              |Fresh(gw, longer) - {gw.reg.Key(next.value)}| < |Fresh(gw, chain) - {gw.reg.Key(alias)}|
    ensures Prompt(gw, seen, next, rounds)
  {
    var account := new StreamAccount();
    var usage, how, closing;
    lines, usage, how, sent := Pump(s, n, account);
    if Mute(s, n) {
      LinesPrefix(s.events, sent, n);
    }
    closing, seen, next, longer :=
      Conclude(gw, alias, s, n, how, account, lines, usage, chain, fallbackAllowed, base, sent, rounds);
    lines := lines + closing;
    if next.Some? && ':' !in gw.reg.Key(next.value) {
      OneStreamLess(gw, alias, chain, next.value, longer);
    }
  }

  /** Relay the stream opened on `alias`; what the client got is added to `before`. */
  method RelayOne(gw: Gateway, alias: string, streams: seq<Stream>, n: nat, before: seq<Line>, chain: seq<string>,
                  fallbackAllowed: bool, rounds: nat, ghost base: map<string, nat>)
    returns (lines: seq<Line>, seen: seq<Seen>, next: Option<string>, longer: seq<string>, source: nat, ghost sent: nat)
    requires gw.Valid() && Ran(gw, streams, before, [], n, Some(alias), 0, base)
    requires Bounded(gw, chain, [], n, Some(alias), rounds)
    modifies gw`allows, gw.Slots()
    ensures Ran(gw, streams, lines, seen, source, next, sent, base) && (seen == [] ==> sent == 0)
    ensures Bounded(gw, longer, seen, source, next, rounds)
    ensures source == (if seen == [] then n + 1 else n) && (seen == [] ==> fallbackAllowed)
    ensures chain <= longer && (next.Some? ==> seen == [])
    ensures next.None? ==>
              Explained(gw, gw.Now(), streams, seen, source, Dead(gw, alias, chain), longer, fallbackAllowed, rounds)
  {
    var got;
    got, seen, next, longer, sent :=
      RelayStream(gw, alias, Opened(streams, n), n, chain, fallbackAllowed, rounds, base);
    lines, source := before + got, n;
    assert before + got == got;
    OneMoreStream(gw, streams, lines, seen, n, next, longer, sent, base);
    if seen == [] {
      source, sent := n + 1, 0;
    }
  }

  /** Once relaying has begun with an admitted slot on `first`, whatever the streams
      say, wherever the walk leads and whenever the client hangs up: every slot is
      given back exactly once, all the client was sent comes from one stream, and
      exactly one outcome is observed, the one the client was told. A stream that died
      without a word is reported only if the request is pinned or no hop was left after
      the chain `died` that ends with its backend. Nothing observed means that after so
      many rounds a stream is still relayed or sought, which a loopless registry rules
      out. */
  method Run(gw: Gateway, first: string, streams: seq<Stream>, chain0: seq<string>, fallbackAllowed: bool, rounds: nat)
    returns (lines: seq<Line>, seen: seq<Seen>, chain: seq<string>, source: nat, open: Option<string>, ghost sent: nat,
             ghost died: seq<string>)
    requires gw.Valid() && first in gw.reg.setups && gw.Held()[gw.reg.Key(first)] >= 1
    modifies gw`allows, gw.Slots()
    ensures Ran(gw, streams, lines, seen, source, open, sent,
                old(gw.Held())[gw.reg.Key(first) := old(gw.Held())[gw.reg.Key(first)] - 1])
    ensures Loopless(gw.reg) && rounds > |Routable(gw.reg)| ==> seen != []
    ensures !fallbackAllowed ==> source == 0
    ensures chain0 <= died && source <= rounds
    ensures if open.Some? then seen == [] && source == rounds
            else Explained(gw, gw.Now(), streams, seen, source, died, chain, fallbackAllowed, rounds)
  {
    ghost var base := gw.Held()[gw.reg.Key(first) := gw.Held()[gw.reg.Key(first)] - 1];
    assert gw.Held() == gw.Grown(base, first, true);
    lines, seen, chain, source, open, sent, died := RunOn(gw, first, streams, chain0, fallbackAllowed, rounds, base);
  }

  method RunOn(gw: Gateway, first: string, streams: seq<Stream>, chain0: seq<string>, fallbackAllowed: bool,
               rounds: nat, ghost base: map<string, nat>)
    returns (lines: seq<Line>, seen: seq<Seen>, chain: seq<string>, source: nat, open: Option<string>, ghost sent: nat,
             ghost died: seq<string>)
    requires gw.Valid() && Holds(gw, first, base)
    modifies gw`allows, gw.Slots()
    ensures Ran(gw, streams, lines, seen, source, open, sent, base)
    ensures Loopless(gw.reg) && rounds > |Routable(gw.reg)| ==> seen != []
    ensures !fallbackAllowed ==> source == 0
    ensures chain0 <= died && source <= rounds
    ensures if open.Some? then seen == [] && source == rounds
            else Explained(gw, gw.Now(), streams, seen, source, died, chain, fallbackAllowed, rounds)
  {
    chain, source, lines, seen, open, sent, died := chain0, 0, [], [], Some(first), 0, chain0;
    FewFresh(gw, chain, first);
    while open.Some? && source < rounds
      invariant Ran(gw, streams, lines, seen, source, open, sent, base) && (seen == [] ==> sent == 0)
      invariant Bounded(gw, chain, seen, source, open, rounds) && (!fallbackAllowed ==> source == 0)
      invariant if open.Some? then seen == []
                else Explained(gw, gw.Now(), streams, seen, source, died, chain, fallbackAllowed, rounds)
      invariant chain0 <= chain && chain0 <= died && source <= rounds
      decreases open.Some?, rounds - source
    {
      died := Dead(gw, open.value, chain);
      lines, seen, open, chain, source, sent :=
        RelayOne(gw, open.value, streams, source, lines, chain, fallbackAllowed, rounds, base);
    }
  }

  lemma FewFresh(gw: Gateway, chain: seq<string>, alias: string)
    requires gw.Valid() && alias in gw.reg.setups
    ensures |Fresh(gw, chain) - {gw.reg.Key(alias)}| <= |Routable(gw.reg)|
  {
    Smaller(Fresh(gw, chain) - {gw.reg.Key(alias)}, Routable(gw.reg));
  }
}
