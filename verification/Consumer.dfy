/** The stream consumer's at-least-once protocol, step by step. Entries are
    named by their position in the stream. A crash may fall between any two
    steps and loses only the consumer's own list of things left to do. */
module Consumer {
  import opened Messages
  import opened HotGraph
  import opened Ingest

  /** What is left of the batch in hand, in program order. */
  datatype Task =
    | AckInvalid(bad: seq<nat>)            // one acknowledgement for all unparseable entries
    | Screen(read: seq<nat>)               // quarantine check of a pending drain
    | Apply(todo: seq<nat>, retries: nat)  // apply with this many retries left
    | AckApplied(done: seq<nat>)
    | DlqAdd(k: nat)
    | DlqAck(k: nat)

  datatype State = State(
    stream: seq<Option<Message>>,  // None: the payload does not parse
    delivered: nat,                // the group's last-delivered position
    pending: map<nat, nat>,        // delivered, unacknowledged; how many deliveries
    acked: set<nat>,
    commits: seq<seq<nat>>,        // batches the store committed, oldest first
    graph: Graph,
    dlq: seq<nat>,
    draining: bool,                // reading own pending entries, not new ones
    local: seq<Task>)

  /** `LateFail` and `LateOutage`: the store committed and the call failed, or the
      connection was lost, all the same. */
  datatype Outcome = Ok | Fail | LateFail | Outage | LateOutage

  datatype Event = Produce(p: Option<Message>) | ReadPending(n: nat) | ReadNew(n: nat) | Local(o: Outcome) | Crash

  datatype Limits = Limits(maxRetries: nat, maxDeliveries: nat)

  const START := State([], 0, map[], {}, [], EMPTY, [], true, [])

  function Range(lo: nat, hi: nat): (ks: seq<nat>)
    requires lo <= hi
    ensures forall k :: k in ks <==> lo <= k < hi
    ensures Distinct(ks)
    decreases hi - lo
  {
    if lo == hi then [] else
      var rest := Range(lo + 1, hi);
      assert lo !in rest;
      [lo] + rest
  }

  function Filter(ks: seq<nat>, keep: nat -> bool): (r: seq<nat>)
    ensures forall k :: k in r <==> k in ks && keep(k)
    ensures Distinct(ks) ==> Distinct(r)
    ensures |r| <= |ks|
  {
    if ks == [] then []
    else
      var rest := Filter(ks[1..], keep);
      assert ks == [ks[0]] + ks[1..];
      assert Distinct(ks) ==> ks[0] !in ks[1..];
      if keep(ks[0]) then [ks[0]] + rest else rest
  }

  function Take(ks: seq<nat>, n: nat): seq<nat>
  {
    if n <= |ks| then ks[..n] else ks
  }

  function EntryAt(stream: seq<Option<Message>>, k: nat): Option<Message>
  {
    if k < |stream| then stream[k] else None
  }

  function MsgsAt(stream: seq<Option<Message>>, ks: seq<nat>): seq<Message>
  {
    if ks == [] then []
    else (match EntryAt(stream, ks[0]) case Some(m) => [m] case None => []) + MsgsAt(stream, ks[1..])
  }

  /** The oldest `n` entries this consumer was delivered and never acknowledged. */
  function FirstPending(s: State, n: nat): seq<nat>
  {
    Take(Filter(Range(0, s.delivered), (k: nat) => k in s.pending), n)
  }

  function Deliveries(pending: map<nat, nat>, k: nat): nat
  {
    if k in pending then pending[k] else 1
  }

  function DlqTasks(ks: seq<nat>): seq<Task>
  {
    if ks == [] then [] else [DlqAdd(ks[0])] + DlqTasks(ks[1..])
  }

  /** Over-delivered entries go straight to the dead-letter stream. */
  function ScreenTasks(pending: map<nat, nat>, ks: seq<nat>, limits: Limits): seq<Task>
  {
    DlqTasks(Filter(ks, (k: nat) => Deliveries(pending, k) > limits.maxDeliveries))
    + ApplyTask(Filter(ks, (k: nat) => Deliveries(pending, k) <= limits.maxDeliveries), limits.maxRetries)
  }

  function ApplyTask(ks: seq<nat>, retries: nat): seq<Task>
  {
    if ks == [] then [] else [Apply(ks, retries)]
  }

  /** The program run on a batch just read. */
  function Program(s: State, ks: seq<nat>, limits: Limits): seq<Task>
  {
    var bad := Filter(ks, (k: nat) => EntryAt(s.stream, k).None?);
    var good := Filter(ks, (k: nat) => EntryAt(s.stream, k).Some?);
    (if bad == [] then [] else [AckInvalid(bad)])
    + (if s.draining && good != [] then [Screen(good)] else ApplyTask(good, limits.maxRetries))
  }

  function AckAll(s: State, ks: seq<nat>): State
  {
    s.(pending := s.pending - (set k | k in ks), acked := s.acked + (set k | k in ks))
  }

  function Commit(s: State, ks: seq<nat>): State
  {
    s.(commits := s.commits + [ks], graph := BatchStep(s.graph, MsgsAt(s.stream, ks)))
  }

  /** Retry while retries are left, then split in two halves that get one
      attempt each, then give a lone entry up. */
  function AfterFailure(ks: seq<nat>, retries: nat): seq<Task>
  {
    if retries > 0 then [Apply(ks, retries - 1)]
    else if |ks| <= 1 then DlqTasks(ks)
    else [Apply(ks[..|ks| / 2], 0), Apply(ks[|ks| / 2..], 0)]
  }

  predicate Enabled(s: State, e: Event)
  {
    match e
    case Produce(_) => true
    case ReadPending(n) => s.local == [] && s.draining && n > 0
    case ReadNew(n) => s.local == [] && !s.draining && n > 0 && s.delivered <= |s.stream|
    case Local(_) => s.local != []
    case Crash => true
  }

  function Next(s: State, e: Event, limits: Limits): State
    requires Enabled(s, e)
  {
    match e
    case Produce(p) => s.(stream := s.stream + [p])
    case ReadPending(n) =>
      var ks := FirstPending(s, n);
      if ks == [] then s.(draining := false)
      else
        var redelivered := map k | k in s.pending :: s.pending[k] + if k in ks then 1 else 0;
        s.(pending := redelivered, local := Program(s, ks, limits))
    case ReadNew(n) =>
      var hi := if s.delivered + n <= |s.stream| then s.delivered + n else |s.stream|;
      var ks := Range(s.delivered, hi);
      s.(delivered := hi, pending := s.pending + (map k | k in ks :: 1), local := Program(s, ks, limits))
    case Local(o) => Advance(s, o, limits)
    case Crash => s.(draining := true, local := [])
  }

  /** One step of the batch in hand. */
  function Advance(s: State, o: Outcome, limits: Limits): State
    requires s.local != []
  {
    var rest := s.local[1..];
    match s.local[0]
    case AckInvalid(ks) => AckAll(s, ks).(local := rest)
    case Screen(ks) =>
      s.(local := ScreenTasks(s.pending, ks, limits) + rest)
    case Apply(ks, r) => (
      match o
      case Outage => s
      case LateOutage => Commit(s, ks)
      case Ok => Commit(s, ks).(local := [AckApplied(ks)] + rest)
      case Fail => s.(local := AfterFailure(ks, r) + rest)
      case LateFail => Commit(s, ks).(local := AfterFailure(ks, r) + rest)
    )
    case AckApplied(ks) => AckAll(s, ks).(local := rest)
    case DlqAdd(k) => s.(dlq := s.dlq + [k], local := [DlqAck(k)] + rest)
    case DlqAck(k) => AckAll(s, [k]).(local := rest)
  }

  // -------------------------------------------------------------- invariant

  function TaskKeys(t: Task): seq<nat>
  {
    match t
    case AckInvalid(ks) => ks
    case Screen(ks) => ks
    case Apply(ks, _) => ks
    case AckApplied(ks) => ks
    case DlqAdd(k) => [k]
    case DlqAck(k) => [k]
  }

  /** Every entry the batch in hand still answers for. */
  function KeysOf(ts: seq<Task>): seq<nat>
  {
    if ts == [] then [] else TaskKeys(ts[0]) + KeysOf(ts[1..])
  }

  function Committed(s: State): set<nat>
  {
    set ks, k | ks in s.commits && k in ks :: k
  }

  predicate Parses(s: State, ks: seq<nat>)
  {
    forall k :: k in ks ==> EntryAt(s.stream, k).Some?
  }

  predicate TaskOk(s: State, t: Task)
  {
    match t
    case AckInvalid(ks) => forall k :: k in ks ==> EntryAt(s.stream, k).None?
    case Screen(ks) => Parses(s, ks)
    case Apply(ks, _) => ks != [] && Parses(s, ks)
    case AckApplied(ks) => forall k :: k in ks ==> k in Committed(s)
    case DlqAdd(k) => Parses(s, [k])
    case DlqAck(k) => k in s.dlq
  }

  /** An acknowledged entry was answered: found invalid, committed or dead-lettered. */
  predicate Answered(s: State, k: nat)
  {
    EntryAt(s.stream, k).None? || k in Committed(s) || k in s.dlq
  }

  /** Nothing delivered is lost, nothing is acknowledged unanswered, and the
      batch in hand answers only for pending entries, each once. */
  ghost predicate Inv(s: State)
  {
    && s.delivered <= |s.stream|
    && (forall k: nat :: k in s.pending || k in s.acked <==> k < s.delivered)
    && (forall k :: k in s.acked ==> k !in s.pending && Answered(s, k))
    && (forall k :: k in Committed(s) || k in s.dlq ==> k < s.delivered && EntryAt(s.stream, k).Some?)
    && (forall t :: t in s.local ==> TaskOk(s, t))
    && Distinct(KeysOf(s.local))
    && (forall k :: k in KeysOf(s.local) ==> k in s.pending)
  }

  lemma {:induction false} KeysConcat(a: seq<Task>, b: seq<Task>)
    ensures KeysOf(a + b) == KeysOf(a) + KeysOf(b)
  {
    if a == [] {
      assert a + b == b;
    } else {
      assert (a + b)[1..] == a[1..] + b;
      KeysConcat(a[1..], b);
    }
  }

  lemma {:induction false} DlqKeys(ks: seq<nat>)
    ensures KeysOf(DlqTasks(ks)) == ks
    ensures forall t :: t in DlqTasks(ks) <==> t.DlqAdd? && t.k in ks
  {
    if ks != [] {
      DlqKeys(ks[1..]);
    }
  }

  lemma SplitFilter(ks: seq<nat>, keep: nat -> bool, drop: nat -> bool)
    requires forall k :: drop(k) <==> !keep(k)
    requires Distinct(ks)
    ensures Distinct(Filter(ks, drop) + Filter(ks, keep))
    ensures forall k :: k in Filter(ks, drop) + Filter(ks, keep) <==> k in ks
  {
    var a, b := Filter(ks, drop), Filter(ks, keep);
    forall i, j | 0 <= i < j < |a + b|
      ensures (a + b)[i] != (a + b)[j]
    {
      if i < |a| <= j {
        assert a[i] in a && b[j - |a|] in b;
      }
    }
  }

  lemma Replace(head: seq<nat>, rest: seq<nat>, now: seq<nat>)
    requires Distinct(head + rest) && Distinct(now) && forall k :: k in now ==> k in head
    ensures Distinct(now + rest)
    ensures forall k :: k in now + rest <==> k in now || (k in head + rest && k !in head)
  {
    forall k | k in head
      ensures k !in rest
    {
      var i :| 0 <= i < |head| && head[i] == k;
      assert (head + rest)[i] == k;
      assert forall j :: 0 <= j < |rest| ==> (head + rest)[|head| + j] == rest[j];
    }
    forall i, j | 0 <= i < j < |now + rest|
      ensures (now + rest)[i] != (now + rest)[j]
    {
      if i < |now| <= j {
        assert now[i] in now && rest[j - |now|] in rest;
      } else if |now| <= i {
        assert (head + rest)[|head| + i - |now|] != (head + rest)[|head| + j - |now|];
      }
    }
  }

  lemma StillOk(s: State, t: State, u: Task)
    requires TaskOk(s, u) && t.stream == s.stream
    requires Committed(s) <= Committed(t) && forall k :: k in s.dlq ==> k in t.dlq
    ensures TaskOk(t, u)
  {
  }

  /** `now` is what the head task turned into: it answers for nothing new, and
      only for what has not been acknowledged in the same step. */
  lemma Continue(s: State, t: State, now: seq<Task>)
    requires Inv(s) && s.local != [] && t.local == now + s.local[1..]
    requires Distinct(KeysOf(now)) && forall k :: k in KeysOf(now) ==> k in TaskKeys(s.local[0])
    requires t.stream == s.stream && Committed(s) <= Committed(t) && (forall k :: k in s.dlq ==> k in t.dlq)
    requires forall u :: u in now ==> TaskOk(t, u)
    ensures forall u :: u in t.local ==> TaskOk(t, u)
    ensures Distinct(KeysOf(t.local))
    ensures forall k :: k in KeysOf(t.local) <==>
              k in KeysOf(now) || (k in KeysOf(s.local) && k !in TaskKeys(s.local[0]))
  {
    var head, rest := s.local[0], s.local[1..];
    KeysConcat(now, rest);
    Replace(TaskKeys(head), KeysOf(rest), KeysOf(now));
    forall u | u in t.local
      ensures TaskOk(t, u)
    {
      if u in rest {
        assert u in s.local;
        StillOk(s, t, u);
      }
    }
  }

  // ----------------------------------------------- every step keeps the invariant

  lemma AckKeeps(s: State, ks: seq<nat>)
    requires Inv(s) && s.local != [] && TaskKeys(s.local[0]) == ks
    requires forall k :: k in ks ==> Answered(s, k)
    ensures Inv(AckAll(s, ks).(local := s.local[1..]))
    ensures BatchCovered(s, AckAll(s, ks).(local := s.local[1..]))
  {
    var t := AckAll(s, ks).(local := s.local[1..]);
    assert [] + s.local[1..] == t.local;
    HeadKeys(s);
    assert Committed(t) == Committed(s);
    Continue(s, t, []);
    forall k: nat
      ensures k in t.pending || k in t.acked <==> k < t.delivered
      ensures k in t.acked ==> k !in t.pending && Answered(t, k)
    {
      assert k in s.pending || k in s.acked <==> k < s.delivered;
    }
  }

  /** The entries in hand leave the pending list exactly as they leave the batch. */
  ghost predicate BatchCovered(s: State, t: State)
  {
    && (forall k :: k in t.pending ==> k in s.pending)
    && (forall k :: k in KeysOf(t.local) ==> k in KeysOf(s.local))
    && (forall k :: k in s.pending && k !in t.pending <==> k in KeysOf(s.local) && k !in KeysOf(t.local))
  }

  lemma SplitKeeps(s: State, t: State, now: seq<Task>)
    requires Inv(s) && s.local != [] && t.local == now + s.local[1..]
    requires Distinct(KeysOf(now)) && forall k :: k in KeysOf(now) <==> k in TaskKeys(s.local[0])
    requires t.stream == s.stream && t.delivered == s.delivered && t.pending == s.pending && t.acked == s.acked
    requires Committed(s) <= Committed(t) && (forall k :: k in s.dlq ==> k in t.dlq)
    requires forall k :: k in Committed(t) || k in t.dlq ==> k < s.delivered && EntryAt(s.stream, k).Some?
    requires forall u :: u in now ==> TaskOk(t, u)
    ensures Inv(t) && BatchCovered(s, t)
  {
    Continue(s, t, now);
    assert s.local == [s.local[0]] + s.local[1..];
    assert forall k :: k in TaskKeys(s.local[0]) ==> k in KeysOf(s.local);
  }

  lemma CommitGrows(s: State, ks: seq<nat>)
    ensures forall k :: k in Committed(Commit(s, ks)) <==> k in Committed(s) || k in ks
  {
    var t := Commit(s, ks);
    forall k
      ensures k in Committed(t) <==> k in Committed(s) || k in ks
    {
      if k in ks {
        assert ks in t.commits;
      }
      if k in Committed(s) {
        var c :| c in s.commits && k in c;
        assert c in t.commits;
      }
    }
  }

  lemma OneKey(t: Task)
    ensures KeysOf([t]) == TaskKeys(t)
  {
    assert TaskKeys(t) + [] == TaskKeys(t);
  }

  lemma FailureTasks(s: State, ks: seq<nat>, r: nat)
    requires TaskOk(s, Apply(ks, r))
    ensures KeysOf(AfterFailure(ks, r)) == ks
    ensures forall u :: u in AfterFailure(ks, r) ==> TaskOk(s, u)
  {
    var now := AfterFailure(ks, r);
    if r > 0 {
      OneKey(Apply(ks, r - 1));
    } else if |ks| <= 1 {
      DlqKeys(ks);
    } else {
      var mid := |ks| / 2;
      KeysConcat([now[0]], [now[1]]);
      OneKey(now[0]);
      OneKey(now[1]);
      assert [now[0]] + [now[1]] == now;
      assert ks[..mid] + ks[mid..] == ks;
    }
  }

  /** An attempt that did not settle its entries, whether or not it committed. */
  lemma UnsettledKeeps(s: State, u: State, ks: seq<nat>, r: nat, now: seq<Task>)
    requires Inv(s) && s.local != [] && s.local[0] == Apply(ks, r)
    requires u == s || u == Commit(s, ks)
    requires KeysOf(now) == ks && forall v :: v in now ==> TaskOk(s, v)
    ensures var t := u.(local := now + s.local[1..]); Inv(t) && BatchCovered(s, t)
  {
    var t := u.(local := now + s.local[1..]);
    HeadKeys(s);
    CommitGrows(s, ks);
    assert Committed(t) == Committed(u);
    forall v | v in now
      ensures TaskOk(t, v)
    {
      StillOk(s, t, v);
    }
    SplitKeeps(s, t, now);
  }

  lemma ScreenedTasks(s: State, pending: map<nat, nat>, ks: seq<nat>, limits: Limits)
    requires Parses(s, ks) && Distinct(ks)
    ensures Distinct(KeysOf(ScreenTasks(pending, ks, limits)))
    ensures forall k :: k in KeysOf(ScreenTasks(pending, ks, limits)) <==> k in ks
    ensures forall u :: u in ScreenTasks(pending, ks, limits) ==> TaskOk(s, u)
  {
    var drop := (k: nat) => Deliveries(pending, k) > limits.maxDeliveries;
    var keep := (k: nat) => Deliveries(pending, k) <= limits.maxDeliveries;
    SplitFilter(ks, keep, drop);
    PartedTasks(s, Filter(ks, drop), Filter(ks, keep), limits.maxRetries);
  }

  lemma PartedTasks(s: State, over: seq<nat>, kept: seq<nat>, retries: nat)
    requires Parses(s, over) && Parses(s, kept)
    ensures KeysOf(DlqTasks(over) + ApplyTask(kept, retries)) == over + kept
    ensures forall u :: u in DlqTasks(over) + ApplyTask(kept, retries) ==> TaskOk(s, u)
  {
    DlqKeys(over);
    KeysConcat(DlqTasks(over), ApplyTask(kept, retries));
    if kept != [] {
      OneKey(Apply(kept, retries));
    }
  }

  lemma HeadKeys(s: State)
    requires Inv(s) && s.local != []
    ensures Distinct(TaskKeys(s.local[0]))
    ensures forall k :: k in TaskKeys(s.local[0]) ==> k in KeysOf(s.local) && k in s.pending && k < s.delivered
    ensures TaskOk(s, s.local[0])
  {
    var head, rest := TaskKeys(s.local[0]), KeysOf(s.local[1..]);
    assert KeysOf(s.local) == head + rest;
    assert forall i :: 0 <= i < |head| ==> (head + rest)[i] == head[i];
  }

  /** A head task that turned into `now` over the same entries. */
  lemma TurnKeeps(s: State, t: State, now: seq<Task>)
    requires Inv(s) && s.local != []
    requires Distinct(KeysOf(now)) && forall k :: k in KeysOf(now) <==> k in TaskKeys(s.local[0])
    requires forall u :: u in now ==> TaskOk(s, u)
    requires t == s.(local := now + s.local[1..])
    ensures Inv(t) && BatchCovered(s, t)
  {
    assert Committed(t) == Committed(s);
    forall u | u in now
      ensures TaskOk(t, u)
    {
      StillOk(s, t, u);
    }
    SplitKeeps(s, t, now);
  }

  lemma AnswerKeeps(s: State, u: State, now: Task)
    requires Inv(s) && s.local != [] && TaskKeys(now) == TaskKeys(s.local[0])
    requires (s.local[0].Apply? && u == Commit(s, s.local[0].todo) && now == AckApplied(s.local[0].todo))
             || (s.local[0].DlqAdd? && u == s.(dlq := s.dlq + [s.local[0].k]) && now == DlqAck(s.local[0].k))
    ensures var t := u.(local := [now] + s.local[1..]); Inv(t) && BatchCovered(s, t)
  {
    var t := u.(local := [now] + s.local[1..]);
    HeadKeys(s);
    OneKey(now);
    if s.local[0].Apply? {
      CommitGrows(s, s.local[0].todo);
    }
    assert Committed(t) == Committed(u);
    assert s.local[0].DlqAdd? ==> Committed(u) == Committed(s);
    SplitKeeps(s, t, [now]);
  }

  /** Each step of the batch in hand keeps the invariant, and an entry leaves the
      pending list in the very step in which the batch stops answering for it. */
  lemma AdvanceKeeps(s: State, o: Outcome, limits: Limits)
    requires Inv(s) && s.local != []
    ensures Inv(Advance(s, o, limits)) && BatchCovered(s, Advance(s, o, limits))
  {
    HeadKeys(s);
    match s.local[0]
    case AckInvalid(ks) => AckKeeps(s, ks);
    case AckApplied(ks) => AckKeeps(s, ks);
    case DlqAck(k) => AckKeeps(s, [k]);
    case Screen(ks) =>
      ScreenedTasks(s, s.pending, ks, limits);
      TurnKeeps(s, Advance(s, o, limits), ScreenTasks(s.pending, ks, limits));
    case DlqAdd(k) => AnswerKeeps(s, s.(dlq := s.dlq + [k]), DlqAck(k));
    case Apply(ks, r) => AttemptKeeps(s, o, limits);
  }

  lemma AttemptKeeps(s: State, o: Outcome, limits: Limits)
    requires Inv(s) && s.local != [] && s.local[0].Apply?
    ensures Inv(Advance(s, o, limits)) && BatchCovered(s, Advance(s, o, limits))
  {
    var ks, r := s.local[0].todo, s.local[0].retries;
    HeadKeys(s);
    match o
    case Ok => AnswerKeeps(s, Commit(s, ks), AckApplied(ks));
    case Fail =>
      FailureTasks(s, ks, r);
      UnsettledKeeps(s, s, ks, r, AfterFailure(ks, r));
    case LateFail =>
      FailureTasks(s, ks, r);
      UnsettledKeeps(s, Commit(s, ks), ks, r, AfterFailure(ks, r));
    case Outage =>
    case LateOutage =>
      OneKey(Apply(ks, r));
      assert s.local == [Apply(ks, r)] + s.local[1..];
      UnsettledKeeps(s, Commit(s, ks), ks, r, [Apply(ks, r)]);
  }

  lemma ProgramKeys(s: State, ks: seq<nat>, limits: Limits)
    requires Distinct(ks)
    ensures Distinct(KeysOf(Program(s, ks, limits)))
    ensures forall k :: k in KeysOf(Program(s, ks, limits)) <==> k in ks
    ensures forall u :: u in Program(s, ks, limits) ==> TaskOk(s, u)
  {
    var isBad := (k: nat) => EntryAt(s.stream, k).None?;
    var isGood := (k: nat) => EntryAt(s.stream, k).Some?;
    var bad, good := Filter(ks, isBad), Filter(ks, isGood);
    SplitFilter(ks, isGood, isBad);
    var a := if bad == [] then [] else [AckInvalid(bad)];
    var b := if s.draining && good != [] then [Screen(good)] else ApplyTask(good, limits.maxRetries);
    KeysConcat(a, b);
    assert KeysOf(a) == bad && KeysOf(b) == good;
  }

  lemma ProduceKeeps(s: State, p: Option<Message>)
    requires Inv(s)
    ensures Inv(s.(stream := s.stream + [p]))
  {
    var t := s.(stream := s.stream + [p]);
    assert forall k: nat :: k < |s.stream| ==> EntryAt(t.stream, k) == EntryAt(s.stream, k);
    assert Committed(t) == Committed(s);
    forall u | u in t.local
      ensures TaskOk(t, u)
    {
      assert TaskOk(s, u);
      forall k | k in TaskKeys(u)
        ensures k < |s.stream|
      {
        KeyInHand(s.local, u, k);
      }
    }
  }

  /** Reading puts delivered, pending entries in hand. */
  lemma ReadKeeps(s: State, t: State, ks: seq<nat>, limits: Limits)
    requires Inv(s) && s.delivered <= t.delivered <= |s.stream| && Distinct(ks)
    requires t == s.(delivered := t.delivered, pending := t.pending, local := Program(s, ks, limits))
    requires forall k :: k in t.pending <==> k in s.pending || s.delivered <= k < t.delivered
    requires forall k :: k in ks ==> k in t.pending
    ensures Inv(t)
  {
    ProgramKeys(s, ks, limits);
    assert Committed(t) == Committed(s);
    forall u | u in t.local
      ensures TaskOk(t, u)
    {
      StillOk(s, t, u);
    }
  }

  lemma StepKeeps(s: State, e: Event, limits: Limits)
    requires Inv(s) && Enabled(s, e)
    ensures Inv(Next(s, e, limits))
  {
    var t := Next(s, e, limits);
    match e
    case Produce(p) => ProduceKeeps(s, p);
    case ReadPending(n) =>
      var all := Filter(Range(0, s.delivered), (k: nat) => k in s.pending);
      var ks := FirstPending(s, n);
      if ks == [] {
        assert Committed(t) == Committed(s);
        assert s.local == [];
      } else {
        assert forall k :: k in ks ==> k in all;
        ReadKeeps(s, t, ks, limits);
      }
    case ReadNew(n) =>
      ReadKeeps(s, t, Range(s.delivered, t.delivered), limits);
    case Local(o) => AdvanceKeeps(s, o, limits);
    case Crash => assert Committed(t) == Committed(s);
  }

  lemma {:induction false} KeyInHand(ts: seq<Task>, u: Task, k: nat)
    requires u in ts && k in TaskKeys(u)
    ensures k in KeysOf(ts)
  {
    assert ts == [ts[0]] + ts[1..];
    if u != ts[0] {
      KeyInHand(ts[1..], u, k);
    }
  }

  // ------------------------------------------------------------- the store

  function MsgsOf(stream: seq<Option<Message>>, ks: set<nat>): set<Message>
  {
    set k | k in ks && EntryAt(stream, k).Some? :: EntryAt(stream, k).value
  }

  function AllMsgs(stream: seq<Option<Message>>): set<Message>
  {
    set p | p in stream && p.Some? :: p.value
  }

  /** The store holds exactly what the committed entries state. */
  ghost predicate Stored(s: State)
  {
    Reflects(s.graph, MsgsOf(s.stream, Committed(s)))
  }

  lemma {:induction false} MsgsAtSet(stream: seq<Option<Message>>, ks: seq<nat>)
    ensures MsgSet(MsgsAt(stream, ks)) == MsgsOf(stream, set k | k in ks)
  {
    if ks != [] {
      MsgsAtSet(stream, ks[1..]);
      assert ks == [ks[0]] + ks[1..];
      var K := set k | k in ks;
      assert K == {ks[0]} + set k | k in ks[1..];
      assert MsgsOf(stream, K) == MsgsOf(stream, {ks[0]}) + MsgsOf(stream, set k | k in ks[1..]);
    } else {
      assert MsgsOf(stream, set k | k in ks) == {};
    }
  }

  lemma CommitStores(s: State, ks: seq<nat>)
    requires Stored(s) && Consistent(AllMsgs(s.stream))
    ensures Stored(Commit(s, ks))
  {
    var t := Commit(s, ks);
    CommitGrows(s, ks);
    MsgsAtSet(s.stream, ks);
    var K := set k | k in ks;
    assert Committed(t) == Committed(s) + K;
    var S, T := MsgsOf(s.stream, Committed(s)), MsgsOf(s.stream, K);
    assert MsgsOf(s.stream, Committed(t)) == S + T;
    assert S + T <= AllMsgs(s.stream);
    BatchReflects(s.graph, S, MsgsAt(s.stream, ks));
  }

  lemma StepStores(s: State, e: Event, limits: Limits)
    requires Inv(s) && Enabled(s, e) && Stored(s) && Consistent(AllMsgs(s.stream))
    ensures Stored(Next(s, e, limits))
  {
    var t := Next(s, e, limits);
    if e.Local? && s.local[0].Apply? && (e.o.Ok? || e.o.LateFail? || e.o.LateOutage?) {
      CommitStores(s, s.local[0].todo);
      assert Committed(t) == Committed(Commit(s, s.local[0].todo));
    } else {
      assert Committed(t) == Committed(s) && t.graph == s.graph;
      assert forall k :: k in Committed(s) ==> EntryAt(t.stream, k) == EntryAt(s.stream, k);
      assert MsgsOf(t.stream, Committed(t)) == MsgsOf(s.stream, Committed(s));
    }
  }

  // ------------------------------------------------------------- whole runs

  function RunEvents(es: seq<Event>, limits: Limits): State
  {
    if es == [] then START
    else
      var s := RunEvents(es[..|es| - 1], limits);
      if Enabled(s, es[|es| - 1]) then Next(s, es[|es| - 1], limits) else s
  }

  lemma StreamGrows(s: State, e: Event, limits: Limits)
    requires Enabled(s, e)
    ensures AllMsgs(s.stream) <= AllMsgs(Next(s, e, limits).stream)
  {
  }

  /** Whatever is produced, read, retried, split, quarantined or interrupted,
      and wherever the crashes fall: every delivered entry is pending or was
      answered before it was acknowledged, and the store holds exactly what the
      committed entries state. */
  lemma {:induction false} EveryRunIsSafe(es: seq<Event>, limits: Limits)
    ensures Inv(RunEvents(es, limits))
    ensures Consistent(AllMsgs(RunEvents(es, limits).stream)) ==> Stored(RunEvents(es, limits))
  {
    if es == [] {
      assert Committed(START) == {};
      assert MsgsOf(START.stream, {}) == {};
      EmptyReflects();
    } else {
      var init, e := es[..|es| - 1], es[|es| - 1];
      var s := RunEvents(init, limits);
      EveryRunIsSafe(init, limits);
      if Enabled(s, e) {
        StepKeeps(s, e, limits);
        StreamGrows(s, e, limits);
        if Consistent(AllMsgs(Next(s, e, limits).stream)) {
          StepStores(s, e, limits);
        }
      }
    }
  }

  function InOrder(s: State, keep: set<nat>): seq<nat>
  {
    Filter(Range(0, |s.stream|), (k: nat) => k in keep)
  }

  /** At any point of any run, crashes included: the store is what applying each
      committed entry once, in stream order, leaves, however often and in whatever
      batches it was applied. */
  lemma CommittedOnce(es: seq<Event>, limits: Limits)
    requires Consistent(AllMsgs(RunEvents(es, limits).stream))
    ensures var s := RunEvents(es, limits);
            SameView(s.graph, Fold(EMPTY, MsgsAt(s.stream, InOrder(s, Committed(s)))))
  {
    var s := RunEvents(es, limits);
    EveryRunIsSafe(es, limits);
    FoldIsKept(s, Committed(s));
    SameReflection(s.graph, Fold(EMPTY, MsgsAt(s.stream, InOrder(s, Committed(s)))), MsgsOf(s.stream, Committed(s)));
  }

  lemma FoldIsKept(s: State, keep: set<nat>)
    requires Consistent(AllMsgs(s.stream)) && forall k :: k in keep ==> k < |s.stream|
    ensures Reflects(Fold(EMPTY, MsgsAt(s.stream, InOrder(s, keep))), MsgsOf(s.stream, keep))
  {
    var once := InOrder(s, keep);
    assert (set k | k in once) == keep;
    MsgsAtSet(s.stream, once);
    assert MsgsOf(s.stream, keep) <= AllMsgs(s.stream);
    assert {} + MsgSet(MsgsAt(s.stream, once)) == MsgsOf(s.stream, keep);
    EmptyReflects();
    FoldReflects(EMPTY, {}, MsgsAt(s.stream, once));
  }

  /** Nothing is undelivered or pending. */
  predicate Drained(s: State)
  {
    s.pending == map[] && s.delivered == |s.stream|
  }

  /** The entries that parse and were not dead-lettered. */
  function Good(s: State): set<nat>
  {
    set k: nat | 0 <= k < |s.stream| && EntryAt(s.stream, k).Some? && k !in s.dlq
  }

  /** Each entry that committed and was dead-lettered all the same is matched by a
      kept statement about its resource that is no older. */
  ghost predicate Superseded(s: State)
  {
    forall k :: k in s.dlq && k in Committed(s) && EntryAt(s.stream, k).Some? ==>
      HasNewer(s, EntryAt(s.stream, k).value)
  }

  ghost predicate HasNewer(s: State, m: Message)
  {
    exists n :: n in MsgsOf(s.stream, Good(s)) && n.id == m.id && n.sequence >= m.sequence
  }

  /** Once all is drained, the store is what applying every parseable, not
      dead-lettered entry once, in stream order, leaves, if and only if no entry
      that committed before it was dead-lettered still shows. */
  lemma EffectivelyOnce(es: seq<Event>, limits: Limits)
    requires var s := RunEvents(es, limits); Consistent(AllMsgs(s.stream)) && Drained(s)
    ensures var s := RunEvents(es, limits);
            SameView(s.graph, Fold(EMPTY, MsgsAt(s.stream, InOrder(s, Good(s))))) <==> Superseded(s)
  {
    var s := RunEvents(es, limits);
    EveryRunIsSafe(es, limits);
    NothingLost(es, limits);
    FoldIsKept(s, Good(s));
    var S, T := MsgsOf(s.stream, Committed(s)), MsgsOf(s.stream, Good(s));
    assert Good(s) <= Committed(s);
    assert S <= AllMsgs(s.stream);
    SameViewExactly(s.graph, Fold(EMPTY, MsgsAt(s.stream, InOrder(s, Good(s)))), S, T);
    SupersededCovers(s);
  }

  lemma SupersededCovers(s: State)
    requires Good(s) <= Committed(s)
    ensures Superseded(s) <==> Covers(MsgsOf(s.stream, Committed(s)), MsgsOf(s.stream, Good(s)))
  {
    var S, T := MsgsOf(s.stream, Committed(s)), MsgsOf(s.stream, Good(s));
    if Superseded(s) {
      forall m | m in S
        ensures NoOlder(T, m)
      {
        var k :| k in Committed(s) && EntryAt(s.stream, k) == Some(m);
        if k in s.dlq {
          var n :| n in T && n.id == m.id && n.sequence >= m.sequence;
        } else {
          assert m in T;
        }
      }
    }
    if Covers(S, T) {
      forall k | k in s.dlq && k in Committed(s) && EntryAt(s.stream, k).Some?
        ensures HasNewer(s, EntryAt(s.stream, k).value)
      {
        assert EntryAt(s.stream, k).value in S;
      }
    }
  }

  /** Once all is drained, an entry that parses was committed or dead-lettered, and
      none that does not parse was. */
  lemma NothingLost(es: seq<Event>, limits: Limits)
    requires Drained(RunEvents(es, limits))
    ensures var s := RunEvents(es, limits);
            forall k: nat :: k < |s.stream| && EntryAt(s.stream, k).Some? ==> k in Committed(s) || k in s.dlq
    ensures var s := RunEvents(es, limits);
            forall k :: k in s.dlq || k in Committed(s) ==> k < |s.stream| && EntryAt(s.stream, k).Some?
  {
    var s := RunEvents(es, limits);
    EveryRunIsSafe(es, limits);
    forall k: nat | k < |s.stream| && EntryAt(s.stream, k).Some?
      ensures k in Committed(s) || k in s.dlq
    {
      assert k in s.acked && Answered(s, k);
    }
  }

  // --------------------------------------------------------------- progress

  function Rank(ts: seq<Task>, limits: Limits): nat
  {
    if ts == [] then 0 else TaskRank(ts[0], limits) + Rank(ts[1..], limits)
  }

  function TaskRank(t: Task, limits: Limits): nat
  {
    match t
    case AckInvalid(_) => 1
    case Screen(ks) => 4 * |ks| + limits.maxRetries + 1
    case Apply(ks, r) => if ks == [] then r else 4 * |ks| + r - 1
    case AckApplied(_) => 1
    case DlqAdd(_) => 2
    case DlqAck(_) => 1
  }

  lemma {:induction false} RankConcat(a: seq<Task>, b: seq<Task>, limits: Limits)
    ensures Rank(a + b, limits) == Rank(a, limits) + Rank(b, limits)
  {
    if a == [] {
      assert a + b == b;
    } else {
      assert (a + b)[1..] == a[1..] + b;
      RankConcat(a[1..], b, limits);
    }
  }

  lemma {:induction false} DlqRank(ks: seq<nat>, limits: Limits)
    ensures Rank(DlqTasks(ks), limits) == 2 * |ks|
  {
    if ks != [] {
      DlqRank(ks[1..], limits);
    }
  }

  lemma {:induction false} FilterSizes(ks: seq<nat>, keep: nat -> bool, drop: nat -> bool)
    requires forall k :: drop(k) <==> !keep(k)
    ensures |Filter(ks, keep)| + |Filter(ks, drop)| == |ks|
  {
    if ks != [] {
      FilterSizes(ks[1..], keep, drop);
    }
  }

  lemma FailureRank(ks: seq<nat>, r: nat, limits: Limits)
    requires ks != []
    ensures Rank(AfterFailure(ks, r), limits) < TaskRank(Apply(ks, r), limits)
  {
    var now := AfterFailure(ks, r);
    if r == 0 {
      if |ks| == 1 {
        DlqRank(ks, limits);
      } else {
        RankConcat([now[0]], [now[1]], limits);
        assert [now[0]] + [now[1]] == now;
      }
    }
  }

  lemma ScreenRank(pending: map<nat, nat>, ks: seq<nat>, limits: Limits)
    ensures Rank(ScreenTasks(pending, ks, limits), limits) < TaskRank(Screen(ks), limits)
  {
    var drop := (k: nat) => Deliveries(pending, k) > limits.maxDeliveries;
    var keep := (k: nat) => Deliveries(pending, k) <= limits.maxDeliveries;
    var over, kept := Filter(ks, drop), Filter(ks, keep);
    FilterSizes(ks, keep, drop);
    DlqRank(over, limits);
    RankConcat(DlqTasks(over), ApplyTask(kept, limits.maxRetries), limits);
  }

  predicate Out(o: Outcome)
  {
    o.Outage? || o.LateOutage?
  }

  /** Except while the store is out, every step of a batch uses up work; an outage
      leaves everything as it was but what the store may have committed. */
  lemma BatchTerminates(s: State, o: Outcome, limits: Limits)
    requires Inv(s) && s.local != []
    ensures Out(o) && s.local[0].Apply? ==>
              Advance(s, o, limits) == if o.LateOutage? then Commit(s, s.local[0].todo) else s
    ensures !(Out(o) && s.local[0].Apply?) ==> Rank(Advance(s, o, limits).local, limits) < Rank(s.local, limits)
  {
    var rest := s.local[1..];
    HeadKeys(s);
    match s.local[0]
    case Screen(ks) =>
      ScreenRank(s.pending, ks, limits);
      RankConcat(ScreenTasks(s.pending, ks, limits), rest, limits);
    case Apply(ks, r) =>
      FailureRank(ks, r, limits);
      RankConcat(AfterFailure(ks, r), rest, limits);
      RankConcat([AckApplied(ks)], rest, limits);
    case DlqAdd(k) => RankConcat([DlqAck(k)], rest, limits);
    case AckInvalid(_) =>
    case AckApplied(_) =>
    case DlqAck(_) =>
  }

  /** The batch in hand, run under the given outcomes. */
  function RunBatch(s: State, os: seq<Outcome>, limits: Limits): State
    decreases |os|
  {
    if os == [] || s.local == [] then s else RunBatch(Advance(s, os[0], limits), os[1..], limits)
  }

  /** However its applies turn out, a batch run to its end has acknowledged all
      the entries it was read with and no other: a drain of the pending list
      always moves on. */
  lemma {:induction false} DrainProgress(s: State, os: seq<Outcome>, limits: Limits)
    requires Inv(s) && RunBatch(s, os, limits).local == []
    ensures var t := RunBatch(s, os, limits);
            && Inv(t) && (forall k :: k in t.pending ==> k in s.pending)
            && (forall k :: k in s.pending && k !in t.pending <==> k in KeysOf(s.local))
    decreases |os|
  {
    if os != [] && s.local != [] {
      var u := Advance(s, os[0], limits);
      AdvanceKeeps(s, os[0], limits);
      DrainProgress(u, os[1..], limits);
    }
  }

  /** One whole pass of the pending drain without a crash. */
  lemma DrainRound(s: State, n: nat, os: seq<Outcome>, limits: Limits)
    requires Inv(s) && Enabled(s, ReadPending(n)) && s.pending != map[]
    requires RunBatch(Next(s, ReadPending(n), limits), os, limits).local == []
    ensures FirstPending(s, n) != []
    ensures var t := RunBatch(Next(s, ReadPending(n), limits), os, limits);
            t.pending.Keys == s.pending.Keys - set k | k in FirstPending(s, n)
  {
    var ks, all := FirstPending(s, n), Filter(Range(0, s.delivered), (k: nat) => k in s.pending);
    var k :| k in s.pending;
    assert k in s.pending || k in s.acked;
    assert k in all && ks == Take(all, n);
    var u := Next(s, ReadPending(n), limits);
    StepKeeps(s, ReadPending(n), limits);
    ProgramKeys(s, ks, limits);
    DrainProgress(u, os, limits);
  }
}
