/** What a run of the consumer comes to: with poison entries that fail every time,
    with crashes up to the delivery cap and beyond it. */
module Delivery {
  import opened Messages
  import opened HotGraph
  import opened Consumer

  // ------------------------------------------------ fewer crashes than the cap

  predicate Sound(ks: seq<nat>, poison: set<nat>)
  {
    forall k :: k in ks ==> k !in poison
  }

  /** The attempt after which a lone entry is given up. */
  predicate LastTry(ks: seq<nat>, retries: nat)
  {
    retries == 0 && |ks| <= 1
  }

  /** A batch with poison in it never commits. One without may fail, before the commit or
      after it, but for the last attempt of a lone entry; and the store may be out for
      either, before its commit or after. */
  predicate Plays(s: State, o: Outcome, poison: set<nat>)
    requires s.local != []
  {
    match s.local[0]
    case Apply(ks, r) => (
      match o
      case Ok => Sound(ks, poison)
      case LateOutage => Sound(ks, poison)
      case Fail => !Sound(ks, poison) || !LastTry(ks, r)
      case LateFail => Sound(ks, poison) && !LastTry(ks, r)
      case Outage => true
    )
    case _ => true
  }

  /** Poison fails at every attempt of the run, and nothing else runs out of attempts. */
  predicate PoisonOnly(es: seq<Event>, limits: Limits, poison: set<nat>)
  {
    es == [] ||
    var init, e := es[..|es| - 1], es[|es| - 1];
    PoisonOnly(init, limits, poison)
      && (e.Local? && Enabled(RunEvents(init, limits), e) ==> Plays(RunEvents(init, limits), e.o, poison))
  }

  function Crashes(es: seq<Event>): nat
  {
    if es == [] then 0 else Crashes(es[..|es| - 1]) + if es[|es| - 1].Crash? then 1 else 0
  }

  /** A delivery count is at most one above the crashes, and that only in hand. */
  ghost predicate Counted(s: State, crashes: nat)
  {
    forall k :: k in s.pending ==> s.pending[k] <= crashes + if k in KeysOf(s.local) then 1 else 0
  }

  /** Only poison is dead-lettered, and none of it was committed. */
  ghost predicate Told(s: State, poison: set<nat>)
  {
    && (forall k :: k in Committed(s) ==> k !in poison)
    && (forall k :: k in s.dlq ==> k in poison)
    && (forall t :: t in s.local && t.DlqAdd? ==> t.k in poison)
  }

  /** Work on a batch acknowledges entries and changes no delivery count. */
  predicate Drains(s: State, t: State)
  {
    && t.stream == s.stream && t.delivered == s.delivered
    && forall k :: k in t.pending ==> k in s.pending && t.pending[k] == s.pending[k]
  }

  lemma AdvanceDrains(s: State, o: Outcome, limits: Limits)
    requires s.local != []
    ensures Drains(s, Advance(s, o, limits))
  {
  }

  lemma CountedAdvance(s: State, o: Outcome, limits: Limits, crashes: nat)
    requires Inv(s) && s.local != [] && Counted(s, crashes)
    ensures Counted(Advance(s, o, limits), crashes)
  {
    AdvanceKeeps(s, o, limits);
    AdvanceDrains(s, o, limits);
  }

  lemma ScreenedIsPoison(s: State, limits: Limits, poison: set<nat>, crashes: nat)
    requires Inv(s) && s.local != [] && s.local[0].Screen? && Counted(s, crashes) && crashes < limits.maxDeliveries
    ensures forall t :: t in ScreenTasks(s.pending, s.local[0].read, limits) ==> !t.DlqAdd?
  {
    HeadKeys(s);
    DlqKeys(Filter(s.local[0].read, (k: nat) => Deliveries(s.pending, k) > limits.maxDeliveries));
  }

  lemma FailedIsPoison(ks: seq<nat>, r: nat, poison: set<nat>)
    requires !Sound(ks, poison) || !LastTry(ks, r)
    ensures forall t :: t in AfterFailure(ks, r) && t.DlqAdd? ==> t.k in poison
  {
    if LastTry(ks, r) {
      DlqKeys(ks);
      var k :| k in ks && k in poison;
      assert ks == [k];
    }
  }

  lemma ToldAdvance(s: State, o: Outcome, limits: Limits, poison: set<nat>, crashes: nat)
    requires Inv(s) && s.local != [] && Counted(s, crashes) && crashes < limits.maxDeliveries
    requires Told(s, poison) && Plays(s, o, poison)
    ensures Told(Advance(s, o, limits), poison)
  {
    var t := Advance(s, o, limits);
    assert forall u :: u in s.local[1..] ==> u in s.local;
    match s.local[0]
    case Apply(ks, r) =>
      CommitGrows(s, ks);
      assert Committed(t) == if o.Fail? || o.Outage? then Committed(s) else Committed(Commit(s, ks));
      if o.Fail? || o.LateFail? {
        FailedIsPoison(ks, r, poison);
      }
    case Screen(_) =>
      assert Committed(t) == Committed(s);
      ScreenedIsPoison(s, limits, poison, crashes);
    case DlqAdd(k) =>
      assert Committed(t) == Committed(s);
      assert s.local[0] in s.local;
    case AckInvalid(_) => assert Committed(t) == Committed(s);
    case AckApplied(_) => assert Committed(t) == Committed(s);
    case DlqAck(_) => assert Committed(t) == Committed(s);
  }

  lemma NoDlqInProgram(s: State, ks: seq<nat>, limits: Limits)
    ensures forall t :: t in Program(s, ks, limits) ==> !t.DlqAdd?
  {
  }

  lemma ReadsCount(s: State, e: Event, limits: Limits, poison: set<nat>, crashes: nat)
    requires Inv(s) && Enabled(s, e) && (e.ReadPending? || e.ReadNew?) && Counted(s, crashes) && Told(s, poison)
    ensures Counted(Next(s, e, limits), crashes) && Told(Next(s, e, limits), poison)
  {
    var t := Next(s, e, limits);
    assert Committed(t) == Committed(s);
    if e.ReadPending? {
      var ks := FirstPending(s, e.n);
      assert forall k :: k in ks ==> k in Filter(Range(0, s.delivered), (k: nat) => k in s.pending);
      ProgramKeys(s, ks, limits);
      NoDlqInProgram(s, ks, limits);
    } else {
      var ks := Range(s.delivered, t.delivered);
      ProgramKeys(s, ks, limits);
      NoDlqInProgram(s, ks, limits);
    }
  }

  lemma {:induction false} CleanRun(es: seq<Event>, limits: Limits, poison: set<nat>)
    requires PoisonOnly(es, limits, poison) && Crashes(es) < limits.maxDeliveries
    ensures Counted(RunEvents(es, limits), Crashes(es)) && Told(RunEvents(es, limits), poison)
  {
    if es == [] {
      assert Committed(START) == {};
    } else {
      var init, e := es[..|es| - 1], es[|es| - 1];
      var s := RunEvents(init, limits);
      CleanRun(init, limits, poison);
      EveryRunIsSafe(init, limits);
      if Enabled(s, e) {
        var t := Next(s, e, limits);
        match e
        case Produce(_) => assert Committed(t) == Committed(s);
        case ReadPending(_) => ReadsCount(s, e, limits, poison, Crashes(init));
        case ReadNew(_) => ReadsCount(s, e, limits, poison, Crashes(init));
        case Local(o) =>
          CountedAdvance(s, o, limits, Crashes(init));
          ToldAdvance(s, o, limits, poison, Crashes(init));
        case Crash => assert Committed(t) == Committed(s);
      }
    }
  }

  function Healthy(s: State, poison: set<nat>): set<nat>
  {
    set k: nat | 0 <= k < |s.stream| && EntryAt(s.stream, k).Some? && k !in poison
  }

  lemma SettledApart(s: State, poison: set<nat>)
    requires Inv(s) && Drained(s) && Told(s, poison)
    ensures forall k: nat :: k in s.dlq <==> k < |s.stream| && EntryAt(s.stream, k).Some? && k in poison
    ensures Committed(s) == Healthy(s, poison)
  {
    forall k: nat | k < |s.stream| && EntryAt(s.stream, k).Some?
      ensures k in Committed(s) || k in s.dlq
    {
      assert k in s.acked && Answered(s, k);
    }
  }

  /** With fewer crashes than the delivery cap, wherever they fall, and whatever fails
      besides as long as nothing sound runs out of attempts: once all is drained, the
      dead-letter stream holds exactly the poison entries, exactly the others were
      committed, and the store is each of them applied once in order. */
  lemma PoisonIsIsolated(es: seq<Event>, limits: Limits, poison: set<nat>)
    requires PoisonOnly(es, limits, poison) && Crashes(es) < limits.maxDeliveries
    requires Drained(RunEvents(es, limits)) && Consistent(AllMsgs(RunEvents(es, limits).stream))
    ensures var s := RunEvents(es, limits);
            && (forall k: nat :: k in s.dlq <==> k < |s.stream| && EntryAt(s.stream, k).Some? && k in poison)
            && Committed(s) == Healthy(s, poison)
            && SameView(s.graph, Fold(EMPTY, MsgsAt(s.stream, InOrder(s, Healthy(s, poison)))))
  {
    CleanRun(es, limits, poison);
    EveryRunIsSafe(es, limits);
    SettledApart(RunEvents(es, limits), poison);
    CommittedOnce(es, limits);
  }

  // -------------------------------------------------------- crashes at the cap

  /** No apply fails and the store is never out. */
  predicate NothingFails(es: seq<Event>)
  {
    forall e :: e in es && e.Local? ==> e.o.Ok?
  }

  lemma {:induction false} NothingFailsIsPoisonOnly(es: seq<Event>, limits: Limits)
    requires NothingFails(es)
    ensures PoisonOnly(es, limits, {})
  {
    if es != [] {
      assert es[|es| - 1] in es;
      NothingFailsIsPoisonOnly(es[..|es| - 1], limits);
    }
  }

  lemma Then(es: seq<Event>, e: Event, limits: Limits)
    ensures RunEvents(es + [e], limits) ==
            if Enabled(RunEvents(es, limits), e) then Next(RunEvents(es, limits), e, limits) else RunEvents(es, limits)
    ensures Crashes(es + [e]) == Crashes(es) + if e.Crash? then 1 else 0
    ensures NothingFails(es) && (e.Local? ==> e.o.Ok?) ==> NothingFails(es + [e])
  {
    assert (es + [e])[..|es|] == es;
  }

  /** One entry, committed and never acknowledged, delivered `j` times. */
  function Stuck(m: Message, j: nat): State
  {
    State([Some(m)], 1, map[0 := j], {}, [[0]], BatchStep(EMPTY, [m]), [], true, [])
  }

  lemma ReadOne(s: State, limits: Limits)
    requires |s.stream| == 1 && s.stream[0].Some? && s.delivered == 1 && 0 in s.pending
    ensures FirstPending(s, 1) == [0]
    ensures Program(s, [0], limits) == if s.draining then [Screen([0])] else [Apply([0], limits.maxRetries)]
  {
    assert Range(1, 1) == [] && Range(0, 1) == [0];
    assert Filter([0][1..], (k: nat) => k in s.pending) == [];
  }

  lemma Redelivered(m: Message, j: nat, limits: Limits)
    ensures Next(Stuck(m, j), ReadPending(1), limits) ==
            Stuck(m, j).(pending := map[0 := j + 1], local := [Screen([0])])
  {
    ReadOne(Stuck(m, j), limits);
  }

  /** `es` leads to `s`, through `j` crashes and without a failing apply. */
  ghost predicate LeadsTo(es: seq<Event>, limits: Limits, s: State, j: nat)
  {
    RunEvents(es, limits) == s && Crashes(es) == j && NothingFails(es)
  }

  lemma Onward(es: seq<Event>, limits: Limits, s: State, j: nat, e: Event, t: State)
    requires LeadsTo(es, limits, s, j) && Enabled(s, e) && (e.Local? ==> e.o.Ok?) && t == Next(s, e, limits)
    ensures LeadsTo(es + [e], limits, t, if e.Crash? then j + 1 else j)
  {
    Then(es, e, limits);
  }

  /** Two steps in a row. */
  lemma Twice(es: seq<Event>, limits: Limits, s: State, j: nat, e: Event, t: State, f: Event, u: State)
    returns (longer: seq<Event>)
    requires LeadsTo(es, limits, s, j) && !e.Crash? && (e.Local? ==> e.o.Ok?) && (f.Local? ==> f.o.Ok?)
    requires Enabled(s, e) && t == Next(s, e, limits) && Enabled(t, f) && u == Next(t, f, limits)
    ensures LeadsTo(longer, limits, u, if f.Crash? then j + 1 else j)
  {
    Onward(es, limits, s, j, e, t);
    Onward(es + [e], limits, t, j, f, u);
    longer := es + [e] + [f];
  }

  function Fetched(m: Message, draining: bool, local: seq<Task>): State
  {
    State([Some(m)], 1, map[0 := 1], {}, [], EMPTY, [], draining, local)
  }

  lemma FirstRead(m: Message, limits: Limits)
    ensures var s := START.(stream := [Some(m)]);
            && Next(s, ReadPending(1), limits) == s.(draining := false)
            && Next(s.(draining := false), ReadNew(1), limits) == Fetched(m, false, [Apply([0], limits.maxRetries)])
  {
    var s := START.(stream := [Some(m)]);
    assert FirstPending(s, 1) == [];
    ReadOne(Fetched(m, false, []), limits);
    assert Program(s.(draining := false), [0], limits) == Program(Fetched(m, false, []), [0], limits);
    assert Range(1, 1) == [] && Range(0, 1) == [0] && map[] + (map k | k in [0] :: 1) == map[0 := 1];
  }

  lemma FirstCommit(m: Message, r: nat, limits: Limits)
    ensures var s := Fetched(m, false, [Apply([0], r)]);
            Next(Next(s, Local(Ok), limits), Crash, limits) == Stuck(m, 1)
  {
    assert MsgsAt([Some(m)], [0]) == [m];
  }

  /** Read, committed, and lost before the acknowledgement. */
  lemma CommitThenCrash(m: Message, limits: Limits) returns (es: seq<Event>)
    ensures LeadsTo(es, limits, Stuck(m, 1), 1)
  {
    FirstRead(m, limits);
    FirstCommit(m, limits.maxRetries, limits);
    var s, t := START.(stream := [Some(m)]), Fetched(m, false, [Apply([0], limits.maxRetries)]);
    assert LeadsTo([], limits, START, 0);
    Onward([], limits, START, 0, Produce(Some(m)), s);
    es := [] + [Produce(Some(m))];
    es := Twice(es, limits, s, 0, ReadPending(1), s.(draining := false), ReadNew(1), t);
    es := Twice(es, limits, t, 0, Local(Ok), Next(t, Local(Ok), limits), Crash, Stuck(m, 1));
  }

  lemma CrashAgain(es: seq<Event>, m: Message, j: nat, limits: Limits) returns (longer: seq<Event>)
    requires LeadsTo(es, limits, Stuck(m, j), j)
    ensures LeadsTo(longer, limits, Stuck(m, j + 1), j + 1)
  {
    var s := Stuck(m, j);
    Redelivered(m, j, limits);
    var reading := s.(pending := map[0 := j + 1], local := [Screen([0])]);
    longer := Twice(es, limits, s, j, ReadPending(1), reading, Crash, Stuck(m, j + 1));
  }

  lemma {:induction false} StuckAgain(m: Message, j: nat, limits: Limits) returns (es: seq<Event>)
    requires j >= 1
    ensures LeadsTo(es, limits, Stuck(m, j), j)
  {
    if j == 1 {
      es := CommitThenCrash(m, limits);
    } else {
      es := StuckAgain(m, j - 1, limits);
      es := CrashAgain(es, m, j - 1, limits);
    }
  }

  lemma Overdue(m: Message, limits: Limits)
    ensures ScreenTasks(map[0 := limits.maxDeliveries + 1], [0], limits) == [DlqAdd(0)]
  {
    var pending := map[0 := limits.maxDeliveries + 1];
    assert Filter([0][1..], (k: nat) => Deliveries(pending, k) > limits.maxDeliveries) == [];
    assert Filter([0], (k: nat) => Deliveries(pending, k) > limits.maxDeliveries) == [0];
    assert Filter([0], (k: nat) => Deliveries(pending, k) <= limits.maxDeliveries) == [];
    assert DlqTasks([0]) == [DlqAdd(0)];
  }

  /** Read once more than the cap allows, and screened out. */
  function Doomed(m: Message, limits: Limits): State
  {
    Stuck(m, limits.maxDeliveries).(pending := map[0 := limits.maxDeliveries + 1], local := [DlqAdd(0)])
  }

  function Buried(m: Message): State
  {
    State([Some(m)], 1, map[], {0}, [[0]], BatchStep(EMPTY, [m]), [0], true, [])
  }

  lemma Doom(es: seq<Event>, m: Message, limits: Limits) returns (longer: seq<Event>)
    requires LeadsTo(es, limits, Stuck(m, limits.maxDeliveries), limits.maxDeliveries)
    ensures LeadsTo(longer, limits, Doomed(m, limits), limits.maxDeliveries)
  {
    var c := limits.maxDeliveries;
    Redelivered(m, c, limits);
    Overdue(m, limits);
    var reading, doomed := Doomed(m, limits).(local := [Screen([0])]), Doomed(m, limits);
    longer := Twice(es, limits, Stuck(m, c), c, ReadPending(1), reading, Local(Ok), doomed);
  }

  lemma Bury(es: seq<Event>, m: Message, limits: Limits) returns (longer: seq<Event>)
    requires LeadsTo(es, limits, Doomed(m, limits), limits.maxDeliveries)
    ensures LeadsTo(longer, limits, Buried(m), limits.maxDeliveries)
  {
    var u := Doomed(m, limits).(dlq := [0], local := [DlqAck(0)]);
    longer := Twice(es, limits, Doomed(m, limits), limits.maxDeliveries, Local(Ok), u, Local(Ok), Buried(m));
  }

  lemma BuriedStillShows(m: Message)
    ensures var s := Buried(m);
            Drained(s) && Committed(s) == {0} && Good(s) == {} && !Superseded(s) && Consistent(AllMsgs(s.stream))
  {
    var s := Buried(m);
    assert s.commits[0] == [0] && 0 in [0];
    assert forall k :: k in Committed(s) <==> k == 0;
    assert Committed(s) == {0};
    assert !HasNewer(s, m);
    assert EntryAt(s.stream, 0) == Some(m);
  }

  /** The bound on crashes cannot be raised. As many crashes as the cap, and an entry
      that no apply ever failed is dead-lettered although the store committed it:
      drained, the store shows a message the dead-letter stream claims was not kept. */
  lemma CapManyCrashes(m: Message, limits: Limits) returns (es: seq<Event>)
    requires limits.maxDeliveries >= 1
    ensures NothingFails(es) && PoisonOnly(es, limits, {}) && Crashes(es) == limits.maxDeliveries
    ensures var s := RunEvents(es, limits);
            && Drained(s) && s.stream == [Some(m)] && s.dlq == [0] && Committed(s) == {0} && Good(s) == {}
            && !SameView(s.graph, Fold(EMPTY, MsgsAt(s.stream, InOrder(s, Good(s)))))
  {
    es := StuckAgain(m, limits.maxDeliveries, limits);
    es := Doom(es, m, limits);
    es := Bury(es, m, limits);
    BuriedStillShows(m);
    EffectivelyOnce(es, limits);
    NothingFailsIsPoisonOnly(es, limits);
  }

  // -------------------------------------------------- what the quarantine is for

  /** A restarted consumer about to read its own pending entries. */
  predicate Restarted(s: State)
  {
    s.local == [] && s.draining
  }

  /** Round after round of the pending drain: read, work on the batch, crash. */
  function Rounds(s: State, n: nat, oss: seq<seq<Outcome>>, limits: Limits): (t: State)
    requires Restarted(s) && n > 0
    ensures Restarted(t)
  {
    if oss == [] then s
    else
      var before := Rounds(s, n, oss[..|oss| - 1], limits);
      Next(RunBatch(Next(before, ReadPending(n), limits), oss[|oss| - 1], limits), Crash, limits)
  }

  lemma {:induction false} BatchDrains(s: State, os: seq<Outcome>, limits: Limits)
    requires Inv(s)
    ensures Inv(RunBatch(s, os, limits)) && Drains(s, RunBatch(s, os, limits))
    decreases |os|
  {
    if os != [] && s.local != [] {
      AdvanceKeeps(s, os[0], limits);
      AdvanceDrains(s, os[0], limits);
      BatchDrains(Advance(s, os[0], limits), os[1..], limits);
    }
  }

  lemma {:induction false} FilterEarlier(ks: seq<nat>, keep: nat -> bool, fewer: nat -> bool, i: nat) returns (j: nat)
    requires (forall x :: fewer(x) ==> keep(x)) && i < |Filter(ks, keep)| && fewer(Filter(ks, keep)[i])
    ensures j <= i && j < |Filter(ks, fewer)| && Filter(ks, fewer)[j] == Filter(ks, keep)[i]
  {
    if !keep(ks[0]) {
      j := FilterEarlier(ks[1..], keep, fewer, i);
    } else if i == 0 {
      j := 0;
    } else {
      j := FilterEarlier(ks[1..], keep, fewer, i - 1);
      j := if fewer(ks[0]) then j + 1 else j;
    }
  }

  /** While others leave the pending list, one among the oldest stays among them. */
  lemma StaysFirst(s: State, t: State, n: nat, k: nat)
    requires t.delivered == s.delivered && t.pending.Keys <= s.pending.Keys && k in FirstPending(s, n) && k in t.pending
    ensures k in FirstPending(t, n)
  {
    var was, still := (x: nat) => x in s.pending, (x: nat) => x in t.pending;
    var i :| 0 <= i < |FirstPending(s, n)| && FirstPending(s, n)[i] == k;
    assert Filter(Range(0, s.delivered), was)[i] == k;
    var j := FilterEarlier(Range(0, s.delivered), was, still, i);
    assert FirstPending(t, n)[j] == k;
  }

  lemma FirstIsPending(s: State, n: nat, k: nat)
    requires k in FirstPending(s, n)
    ensures k in s.pending && k < s.delivered
  {
    assert k in Filter(Range(0, s.delivered), (x: nat) => x in s.pending);
  }

  /** Each crash raises the delivery count of an entry by one, and keeps it among
      the first to be read again. */
  lemma {:induction false} CrashesCount(s: State, n: nat, oss: seq<seq<Outcome>>, limits: Limits, k: nat)
    requires Inv(s) && Restarted(s) && n > 0 && k in FirstPending(s, n)
    ensures var t := Rounds(s, n, oss, limits);
            && Inv(t) && t.stream == s.stream && t.delivered == s.delivered && t.pending.Keys <= s.pending.Keys
            && (k in t.pending ==> k in FirstPending(t, n) && k in s.pending && t.pending[k] == s.pending[k] + |oss|)
  {
    if oss == [] {
      FirstIsPending(s, n, k);
    } else {
      var init, os := oss[..|oss| - 1], oss[|oss| - 1];
      CrashesCount(s, n, init, limits, k);
      OneRound(Rounds(s, n, init, limits), n, os, limits, k);
      var t := Rounds(s, n, oss, limits);
      if k in t.pending {
        StaysFirst(s, t, n, k);
      }
    }
  }

  lemma OneRound(s: State, n: nat, os: seq<Outcome>, limits: Limits, k: nat)
    requires Inv(s) && Restarted(s) && n > 0 && (k in s.pending ==> k in FirstPending(s, n))
    ensures var t := Next(RunBatch(Next(s, ReadPending(n), limits), os, limits), Crash, limits);
            && Inv(t) && t.stream == s.stream && t.delivered == s.delivered && t.pending.Keys <= s.pending.Keys
            && (k in t.pending ==> k in s.pending && t.pending[k] == s.pending[k] + 1)
  {
    var u := Next(s, ReadPending(n), limits);
    StepKeeps(s, ReadPending(n), limits);
    BatchDrains(u, os, limits);
    StepKeeps(RunBatch(u, os, limits), Crash, limits);
    assert u.pending.Keys == s.pending.Keys;
  }

  /** The batch in hand will dead-letter the entry, or has. */
  ghost predicate Marked(s: State, k: nat, limits: Limits)
  {
    k in s.dlq || exists t :: t in s.local && Marks(s, t, k, limits)
  }

  predicate Marks(s: State, t: Task, k: nat, limits: Limits)
  {
    t == DlqAdd(k) || (t.Screen? && k in t.read && k in s.pending && s.pending[k] > limits.maxDeliveries)
  }

  lemma ScreenMarks(s: State, k: nat, limits: Limits)
    requires s.local != [] && s.local[0].Screen? && Marks(s, s.local[0], k, limits)
    ensures DlqAdd(k) in ScreenTasks(s.pending, s.local[0].read, limits)
  {
    DlqKeys(Filter(s.local[0].read, (x: nat) => Deliveries(s.pending, x) > limits.maxDeliveries));
  }

  lemma TailStays(s: State, o: Outcome, limits: Limits, t: Task)
    requires s.local != [] && t in s.local[1..]
    ensures t in Advance(s, o, limits).local
  {
  }

  lemma TailMarks(s: State, u: State, t: Task, k: nat, limits: Limits)
    requires Drains(s, u) && Inv(u) && t in u.local && Marks(s, t, k, limits)
    ensures Marks(u, t, k, limits)
  {
    if t.Screen? {
      KeyInHand(u.local, t, k);
    }
  }

  lemma MarkedAdvance(s: State, o: Outcome, limits: Limits, k: nat)
    requires Inv(s) && s.local != [] && Marked(s, k, limits)
    ensures Marked(Advance(s, o, limits), k, limits)
  {
    var u := Advance(s, o, limits);
    if k !in s.dlq {
      var t :| t in s.local && Marks(s, t, k, limits);
      if t == s.local[0] {
        HeadMarks(s, o, limits, k);
      } else {
        AdvanceKeeps(s, o, limits);
        AdvanceDrains(s, o, limits);
        TailStays(s, o, limits, t);
        TailMarks(s, u, t, k, limits);
      }
    }
  }

  lemma HeadMarks(s: State, o: Outcome, limits: Limits, k: nat)
    requires s.local != [] && Marks(s, s.local[0], k, limits)
    ensures Marked(Advance(s, o, limits), k, limits)
  {
    var u := Advance(s, o, limits);
    if s.local[0].Screen? {
      ScreenMarks(s, k, limits);
      assert DlqAdd(k) in u.local && Marks(u, DlqAdd(k), k, limits);
    }
  }

  lemma {:induction false} MarkedIsDead(s: State, os: seq<Outcome>, limits: Limits, k: nat)
    requires Inv(s) && Marked(s, k, limits) && RunBatch(s, os, limits).local == []
    ensures k in RunBatch(s, os, limits).dlq
    decreases |os|
  {
    if os != [] && s.local != [] {
      AdvanceKeeps(s, os[0], limits);
      MarkedAdvance(s, os[0], limits, k);
      MarkedIsDead(Advance(s, os[0], limits), os[1..], limits, k);
    }
  }

  lemma OverdueIsMarked(s: State, n: nat, limits: Limits, k: nat)
    requires Inv(s) && Restarted(s) && n > 0 && k in FirstPending(s, n) && EntryAt(s.stream, k).Some?
    requires k in s.pending && s.pending[k] >= limits.maxDeliveries
    ensures Marked(Next(s, ReadPending(n), limits), k, limits)
  {
    var ks := FirstPending(s, n);
    var good := Filter(ks, (x: nat) => EntryAt(s.stream, x).Some?);
    var u := Next(s, ReadPending(n), limits);
    assert k in good && Screen(good) in u.local;
    assert Marks(u, Screen(good), k, limits);
  }

  /** What the quarantine is for. However its batches are cut short, an entry among
      the oldest pending that was not acknowledged on the way is dead-lettered and
      acknowledged by the first batch to complete once its deliveries passed the cap:
      no entry can keep the consumer crashing for ever. */
  lemma Quarantined(s: State, n: nat, oss: seq<seq<Outcome>>, os: seq<Outcome>, limits: Limits, k: nat)
    requires Inv(s) && Restarted(s) && n > 0 && k in FirstPending(s, n) && k in s.pending && EntryAt(s.stream, k).Some?
    requires s.pending[k] + |oss| >= limits.maxDeliveries
    requires RunBatch(Next(Rounds(s, n, oss, limits), ReadPending(n), limits), os, limits).local == []
    ensures var t := Rounds(s, n, oss, limits);
            var u := RunBatch(Next(t, ReadPending(n), limits), os, limits);
            k in u.acked && (k in t.pending ==> k in u.dlq)
  {
    var t := Rounds(s, n, oss, limits);
    FirstIsPending(s, n, k);
    CrashesCount(s, n, oss, limits, k);
    var v := Next(t, ReadPending(n), limits);
    StepKeeps(t, ReadPending(n), limits);
    DrainProgress(v, os, limits);
    BatchDrains(v, os, limits);
    if k in t.pending {
      OverdueIsMarked(t, n, limits, k);
      MarkedIsDead(v, os, limits, k);
      ProgramKeys(t, FirstPending(t, n), limits);
    }
  }
}
