/** The ingest as a schedule: producers, any number of workers and the reclaimer take
    their steps in any order, and a worker may die between any two of its own. */
module Schedule {
  import opened Messages
  import opened Rows

  /** How far a worker is with the first of its references: not begun, inserting with
      the row count taken before, or done with the write. */
  datatype Phase = Idle | Writing(before: nat, inserted: nat) | Written

  /** A worker's pass: the references still to flush, the sum of what its writes
      returned, and the rows it really added. */
  datatype Job = Job(refs: seq<Ref>, phase: Phase, written: int, added: nat)

  /** `queue` says which references are claimed, `reports` what the passes that came to
      their end returned as rows written. */
  datatype State = State(files: map<Ref, Batch>, queue: map<Ref, bool>, sent: set<Ref>, jobs: map<nat, Job>,
                         rows: map<string, Row>, reports: seq<int>)

  const START := State(map[], map[], {}, map[], map[], [])

  datatype Move =
    | Spooled(ref: Ref, batch: Batch)
    | Enqueued(ref: Ref)
    | Claimed(worker: nat, refs: seq<Ref>)
    | Counted(worker: nat)
    | Inserted(worker: nat)
    | Wrote(worker: nat)
    | Acked(worker: nat)
    | Finished(worker: nat)
    | Died(worker: nat)
    | Reclaimed(stale: set<Ref>)

  predicate Busy(s: State, w: nat)
  {
    w in s.jobs && s.jobs[w].refs != [] && s.jobs[w].refs[0] in s.files
  }

  function BatchOf(s: State, w: nat): Batch
    requires Busy(s, w)
  {
    s.files[s.jobs[w].refs[0]]
  }

  /** What the code can do next; any number of workers may be mid-pass, each on
      claims that may meanwhile have been taken from it and given to another. */
  predicate Can(s: State, m: Move)
  {
    match m
    case Spooled(ref, batch) => ref in s.files ==> s.files[ref] == batch
    case Enqueued(ref) => ref in s.files
    case Claimed(w, refs) => w !in s.jobs && forall r :: r in refs ==> r in s.queue && !s.queue[r]
    case Counted(w) => Busy(s, w) && s.jobs[w].phase.Idle?
    case Inserted(w) => Busy(s, w) && s.jobs[w].phase.Writing? && s.jobs[w].phase.inserted < |BatchOf(s, w)|
    case Wrote(w) => Busy(s, w) && s.jobs[w].phase.Writing? && s.jobs[w].phase.inserted == |BatchOf(s, w)|
    case Acked(w) => Busy(s, w) && s.jobs[w].phase.Written?
    case Finished(w) => w in s.jobs && s.jobs[w].refs == []
    case Died(w) => w in s.jobs
    case Reclaimed(refs) => refs <= s.queue.Keys
  }

  /** An empty write returns at once, without counting. */
  function Begun(s: State, w: nat): Phase
    requires Busy(s, w)
  {
    if BatchOf(s, w) == [] then Written else Writing(|s.rows|, 0)
  }

  function InsertOne(s: State, w: nat, price: Pricing): State
    requires Can(s, Inserted(w))
  {
    var job := s.jobs[w];
    var rows := Insert(s.rows, Enrich(BatchOf(s, w)[job.phase.inserted], price));
    s.(rows := rows,
       jobs := s.jobs[w := job.(phase := Writing(job.phase.before, job.phase.inserted + 1),
                                added := job.added + if rows == s.rows then 0 else 1)])
  }

  function Take(s: State, m: Move, price: Pricing): State
    requires Can(s, m)
  {
    match m
    case Spooled(ref, batch) => s.(files := s.files[ref := batch])
    case Enqueued(ref) => s.(queue := if ref in s.queue then s.queue else s.queue[ref := false], sent := s.sent + {ref})
    case Claimed(w, refs) =>
      s.(queue := map r | r in s.queue :: s.queue[r] || r in refs, jobs := s.jobs[w := Job(refs, Idle, 0, 0)])
    case Counted(w) => s.(jobs := s.jobs[w := s.jobs[w].(phase := Begun(s, w))])
    case Inserted(w) => InsertOne(s, w, price)
    case Wrote(w) =>
      var added := |s.rows| - s.jobs[w].phase.before;
      s.(jobs := s.jobs[w := s.jobs[w].(phase := Written, written := s.jobs[w].written + added)])
    case Acked(w) =>
      s.(queue := s.queue - {s.jobs[w].refs[0]},
         jobs := s.jobs[w := s.jobs[w].(refs := s.jobs[w].refs[1..], phase := Idle)])
    case Finished(w) => s.(jobs := s.jobs - {w}, reports := s.reports + [s.jobs[w].written])
    case Died(w) => s.(jobs := s.jobs - {w})
    case Reclaimed(refs) => s.(queue := map r | r in s.queue :: s.queue[r] && r !in refs)
  }

  /** Everything that happened so far. */
  datatype History = Begin | Then(before: History, m: Move)

  ghost predicate Possible(h: History, price: Pricing)
    decreases h, 0
  {
    match h
    case Begin => true
    case Then(before, m) => Possible(before, price) && Can(After(before, price), m)
  }

  ghost function After(h: History, price: Pricing): State
    requires Possible(h, price)
    decreases h, 1
  {
    match h
    case Begin => START
    case Then(before, m) => Take(After(before, price), m, price)
  }

  /** `s` is where it got to. */
  ghost predicate LeadsTo(h: History, price: Pricing, s: State)
  {
    Possible(h, price) && After(h, price) == s
  }

  // --------------------------------------------------------- every step is safe

  /** The rows a worker says it inserted are there. */
  ghost predicate Honoured(s: State, job: Job)
  {
    && (forall r :: r in job.refs ==> r in s.files)
    && (job.refs != [] ==>
          match job.phase
          case Idle => true
          case Writing(before, n) => n <= |s.files[job.refs[0]]| && Landed(s.rows, s.files[job.refs[0]][..n])
          case Written => Landed(s.rows, s.files[job.refs[0]]))
  }

  ghost predicate Sound(s: State, price: Pricing)
  {
    Safe(s.files, s.queue.Keys, s.sent, s.rows, price) && forall w :: w in s.jobs ==> Honoured(s, s.jobs[w])
  }

  /** More rows and more files take nothing away from what a worker did. */
  lemma StillHonoured(s: State, t: State, job: Job)
    requires Honoured(s, job) && s.rows.Keys <= t.rows.Keys
    requires s.files.Keys <= t.files.Keys && forall r :: r in s.files ==> t.files[r] == s.files[r]
    ensures Honoured(t, job)
  {
    if job.refs != [] {
      assert job.refs[0] in job.refs;
    }
  }

  lemma OthersHonoured(s: State, t: State, w: nat)
    requires (forall v :: v in s.jobs ==> Honoured(s, s.jobs[v])) && s.rows.Keys <= t.rows.Keys
    requires s.files.Keys <= t.files.Keys && forall r :: r in s.files ==> t.files[r] == s.files[r]
    requires forall v :: v in t.jobs && v != w ==> v in s.jobs && t.jobs[v] == s.jobs[v]
    ensures forall v :: v in t.jobs && v != w ==> Honoured(t, t.jobs[v])
  {
    forall v | v in t.jobs && v != w
      ensures Honoured(t, t.jobs[v])
    {
      StillHonoured(s, t, s.jobs[v]);
    }
  }

  lemma InsertIsSafe(s: State, w: nat, price: Pricing)
    requires Sound(s, price) && Can(s, Inserted(w))
    ensures var t := InsertOne(s, w, price);
            && Safe(s.files, s.queue.Keys, s.sent, t.rows, price) && s.rows.Keys <= t.rows.Keys
            && KeyOf(BatchOf(s, w)[s.jobs[w].phase.inserted]) in t.rows
  {
    var e := BatchOf(s, w)[s.jobs[w].phase.inserted];
    var rows := InsertOne(s, w, price).rows;
    assert InRaw(s.files, e) by {
      assert e in s.files[s.jobs[w].refs[0]];
    }
    forall k | k in rows
      ensures exists d :: InRaw(s.files, d) && k == KeyOf(d) && rows[k] == Enrich(d, price)
    {
      if k !in s.rows {
        assert k == KeyOf(e) && rows[k] == Enrich(e, price);
      } else {
        assert rows[k] == s.rows[k];
      }
    }
  }

  lemma OneMoreLanded(rows: map<string, Row>, more: map<string, Row>, batch: Batch, n: nat)
    requires n < |batch| && Landed(rows, batch[..n]) && rows.Keys <= more.Keys && KeyOf(batch[n]) in more
    ensures Landed(more, batch[..n + 1])
  {
    assert batch[..n + 1] == batch[..n] + [batch[n]];
  }

  lemma InsertKeepsSound(s: State, w: nat, price: Pricing)
    requires Sound(s, price) && Can(s, Inserted(w))
    ensures Sound(InsertOne(s, w, price), price)
  {
    var t := InsertOne(s, w, price);
    InsertIsSafe(s, w, price);
    OthersHonoured(s, t, w);
    assert Honoured(s, s.jobs[w]);
    OneMoreLanded(s.rows, t.rows, BatchOf(s, w), s.jobs[w].phase.inserted);
    assert Honoured(t, t.jobs[w]);
  }

  /** A worker's own steps besides inserting. */
  lemma PassKeepsSound(s: State, m: Move, price: Pricing)
    requires Sound(s, price) && Can(s, m) && (m.Counted? || m.Wrote? || m.Acked?)
    ensures Sound(Take(s, m, price), price)
    ensures m.Acked? ==> Landed(s.rows, BatchOf(s, m.worker))
  {
    var t, batch := Take(s, m, price), BatchOf(s, m.worker);
    OthersHonoured(s, t, m.worker);
    assert Honoured(s, s.jobs[m.worker]);
    assert batch[..|batch|] == batch && batch[..0] == [];
  }

  lemma TakeKeepsSound(s: State, m: Move, price: Pricing)
    requires Sound(s, price) && Can(s, m)
    ensures Sound(Take(s, m, price), price)
  {
    var t := Take(s, m, price);
    match m
    case Spooled(ref, batch) =>
      FileKeepsSafe(s.files, t.files, s.queue.Keys, s.sent, s.rows, price);
      forall w | w in t.jobs
        ensures Honoured(t, t.jobs[w])
      {
        StillHonoured(s, t, s.jobs[w]);
      }
    case Inserted(w) => InsertKeepsSound(s, w, price);
    case Counted(_) => PassKeepsSound(s, m, price);
    case Wrote(_) => PassKeepsSound(s, m, price);
    case Acked(_) => PassKeepsSound(s, m, price);
    case Claimed(w, _) => OthersHonoured(s, t, w);
    case Finished(w) => OthersHonoured(s, t, w);
    case Died(w) => OthersHonoured(s, t, w);
    case _ =>
  }

  lemma {:induction false} HistoryIsSound(h: History, price: Pricing)
    requires Possible(h, price)
    ensures Sound(After(h, price), price)
  {
    match h
    case Begin =>
    case Then(before, m) =>
      HistoryIsSound(before, price);
      TakeKeepsSound(After(before, price), m, price);
  }

  /** Under any schedule of sends, re-sends, claims, deaths and reclaims, a step
      that takes a reference out of the queue finds all its rows in the sink. */
  lemma LeavesOnlyLanded(h: History, m: Move, price: Pricing, ref: Ref)
    requires Possible(Then(h, m), price)
    requires ref in After(h, price).queue && ref !in After(Then(h, m), price).queue
    ensures ref in After(h, price).files && Landed(After(h, price).rows, After(h, price).files[ref])
  {
    HistoryIsSound(h, price);
    if m.Acked? {
      PassKeepsSound(After(h, price), m, price);
    }
  }

  // ------------------------------------------------------------ once it settles

  /** Every spooled batch was sent, the queue is empty and no pass is under way. */
  predicate Settled(s: State)
  {
    s.sent == s.files.Keys && s.queue == map[] && s.jobs == map[]
  }

  function RawKeys(files: map<Ref, Batch>): set<string>
  {
    set ref, e | ref in files && e in files[ref] :: KeyOf(e)
  }

  lemma AllKeys(s: State, price: Pricing)
    requires Sound(s, price) && Settled(s)
    ensures |RawKeys(s.files)| == |s.rows|
  {
    forall k
      ensures k in RawKeys(s.files) <==> k in s.rows
    {
      if k in RawKeys(s.files) {
        var ref, e :| ref in s.files && e in s.files[ref] && k == KeyOf(e);
        assert Landed(s.rows, s.files[ref]);
      }
      if k in s.rows {
        var e :| InRaw(s.files, e) && k == KeyOf(e);
        var ref :| ref in s.files && e in s.files[ref];
      }
    }
    assert RawKeys(s.files) == s.rows.Keys;
    MapSize(s.rows);
  }

  /** Whatever the schedule was, the sink then is the rebuild from raw. */
  lemma EveryScheduleSettles(h: History, price: Pricing, rebuilt: map<string, Row>)
    requires Possible(h, price) && Settled(After(h, price))
    requires KeyedEvents(After(h, price).files) && Mirrors(rebuilt, After(h, price).files, price)
    ensures After(h, price).rows == rebuilt
  {
    HistoryIsSound(h, price);
    SettledIsReplay(After(h, price).files, After(h, price).rows, rebuilt, price);
  }

  // ------------------------------------------------------ what the passes report

  function Sum(xs: seq<int>): int
  {
    if xs == [] then 0 else Sum(xs[..|xs| - 1]) + xs[|xs| - 1]
  }

  /** A pass begins only when no other is under way. */
  ghost predicate OneAtATime(h: History, price: Pricing)
    requires Possible(h, price)
  {
    match h
    case Begin => true
    case Then(before, m) => OneAtATime(before, price) && (m.Claimed? ==> After(before, price).jobs == map[])
  }

  /** Rows added by passes that died. */
  ghost function Unreported(h: History, price: Pricing): nat
    requires Possible(h, price)
  {
    match h
    case Begin => 0
    case Then(before, m) => Unreported(before, price) + if m.Died? then After(before, price).jobs[m.worker].added else 0
  }

  /** No pass died after an insert of its own that added a row. */
  ghost predicate CleanDeaths(h: History, price: Pricing)
    requires Possible(h, price)
  {
    match h
    case Begin => true
    case Then(before, m) => CleanDeaths(before, price) && (m.Died? ==> After(before, price).jobs[m.worker].added == 0)
  }

  lemma {:induction false} UnreportedExactly(h: History, price: Pricing)
    requires Possible(h, price)
    ensures Unreported(h, price) == 0 <==> CleanDeaths(h, price)
  {
    match h
    case Begin =>
    case Then(before, _) => UnreportedExactly(before, price);
  }

  /** Whether the insert adds a row. */
  ghost predicate Adds(s: State, m: Move, price: Pricing)
  {
    m.Inserted? && Can(s, m) && InsertOne(s, m.worker, price).rows != s.rows
  }

  /** The rows others added while `w` was inside a write of its current pass: they fall
      between its two counts. */
  ghost function Foreign(h: History, price: Pricing, w: nat): nat
    requires Possible(h, price)
  {
    match h
    case Begin => 0
    case Then(before, m) =>
      var s := After(before, price);
      if m.Claimed? && m.worker == w then 0
      else Foreign(before, price, w)
           + if Adds(s, m, price) && m.worker != w && w in s.jobs && s.jobs[w].phase.Writing? then 1 else 0
  }

  /** Rows reported by a pass that another one added. */
  ghost function Doubled(h: History, price: Pricing): nat
    requires Possible(h, price)
  {
    match h
    case Begin => 0
    case Then(before, m) => Doubled(before, price) + if m.Finished? then Foreign(before, price, m.worker) else 0
  }

  /** The rows added by the passes under way. */
  ghost function Adding(jobs: map<nat, Job>): nat
    decreases |jobs|
  {
    if jobs == map[] then 0
    else
      var w :| w in jobs;
      MapMinus(jobs, w);
      jobs[w].added + Adding(jobs - {w})
  }

  lemma {:induction false} AddingMinus(jobs: map<nat, Job>, w: nat)
    requires w in jobs
    ensures Adding(jobs) == jobs[w].added + Adding(jobs - {w})
    decreases |jobs|
  {
    var v :| v in jobs && Adding(jobs) == jobs[v].added + Adding(jobs - {v});
    if v != w {
      MapMinus(jobs, v);
      AddingMinus(jobs - {v}, w);
      MapMinus(jobs, w);
      AddingMinus(jobs - {w}, v);
      assert jobs - {v} - {w} == jobs - {w} - {v};
    }
  }

  lemma AddingPut(jobs: map<nat, Job>, w: nat, job: Job)
    ensures Adding(jobs[w := job]) == Adding(jobs - {w}) + job.added
    ensures w !in jobs ==> jobs - {w} == jobs
  {
    AddingMinus(jobs[w := job], w);
    assert jobs[w := job] - {w} == jobs - {w};
  }

  /** What a pass's writes returned: the rows it added and those others added inside
      them, up to the write under way. */
  predicate Reports(s: State, job: Job, foreign: nat)
  {
    match job.phase
    case Writing(before, _) =>
      job.refs != [] && before <= |s.rows| && job.added + foreign == job.written + |s.rows| - before
    case _ => job.added + foreign == job.written
  }

  /** Every row was added by a pass that reported it, died with it, or is under way;
      what was reported beyond that was another's. */
  ghost predicate Tallied(h: History, price: Pricing)
    requires Possible(h, price)
  {
    var s := After(h, price);
    && (forall w :: w in s.jobs ==> Reports(s, s.jobs[w], Foreign(h, price, w)))
    && |s.rows| + Doubled(h, price) == Sum(s.reports) + Unreported(h, price) + Adding(s.jobs)
  }

  lemma InsertTallies(h: History, m: Move, price: Pricing)
    requires Possible(Then(h, m), price) && m.Inserted? && Tallied(h, price)
    ensures Tallied(Then(h, m), price)
  {
    var s, w := After(h, price), m.worker;
    var t, row := InsertOne(s, w, price), Enrich(BatchOf(s, w)[s.jobs[w].phase.inserted], price);
    InsertSize(s.rows, row);
    AddingMinus(s.jobs, w);
    AddingPut(s.jobs, w, t.jobs[w]);
    forall v | v in t.jobs
      ensures Reports(t, t.jobs[v], Foreign(Then(h, m), price, v))
    {
      assert Reports(s, s.jobs[v], Foreign(h, price, v));
    }
  }

  lemma LeaveTallies(h: History, m: Move, price: Pricing)
    requires Possible(Then(h, m), price) && (m.Finished? || m.Died?) && Tallied(h, price)
    ensures Tallied(Then(h, m), price)
  {
    var s := After(h, price);
    var job := s.jobs[m.worker];
    AddingMinus(s.jobs, m.worker);
    assert Reports(s, job, Foreign(h, price, m.worker));
    assert (s.reports + [job.written])[..|s.reports|] == s.reports;
  }

  lemma OwnStepTallies(h: History, m: Move, price: Pricing)
    requires Possible(Then(h, m), price) && (m.Counted? || m.Wrote? || m.Acked?) && Tallied(h, price)
    ensures Tallied(Then(h, m), price)
  {
    var s, t, w := After(h, price), After(Then(h, m), price), m.worker;
    AddingMinus(s.jobs, w);
    AddingPut(s.jobs, w, t.jobs[w]);
    assert t.jobs == s.jobs[w := t.jobs[w]] && t.jobs[w].added == s.jobs[w].added;
    forall v | v in t.jobs
      ensures Reports(t, t.jobs[v], Foreign(Then(h, m), price, v))
    {
      assert Reports(s, s.jobs[v], Foreign(h, price, v));
    }
  }

  lemma OtherStepTallies(h: History, m: Move, price: Pricing)
    requires Possible(Then(h, m), price) && Tallied(h, price)
    requires m.Spooled? || m.Enqueued? || m.Reclaimed? || m.Claimed?
    ensures Tallied(Then(h, m), price)
  {
    if m.Claimed? {
      AddingPut(After(h, price).jobs, m.worker, Job(m.refs, Idle, 0, 0));
    }
  }

  lemma {:induction false} HistoryIsTallied(h: History, price: Pricing)
    requires Possible(h, price)
    ensures Tallied(h, price)
  {
    match h
    case Begin =>
    case Then(before, m) =>
      HistoryIsTallied(before, price);
      match m {
        case Inserted(_) => InsertTallies(before, m, price);
        case Finished(_) => LeaveTallies(before, m, price);
        case Died(_) => LeaveTallies(before, m, price);
        case Counted(_) => OwnStepTallies(before, m, price);
        case Wrote(_) => OwnStepTallies(before, m, price);
        case Acked(_) => OwnStepTallies(before, m, price);
        case _ => OtherStepTallies(before, m, price);
      }
  }

  /** Under any schedule, overlapping workers included, what the completed passes
      reported differs from the distinct event keys by the rows reported twice and the
      rows lost with a dead pass; so the sum is right if and only if these are as many. */
  lemma ReportsExactly(h: History, price: Pricing)
    requires Possible(h, price) && Settled(After(h, price))
    ensures var s := After(h, price);
            && Sum(s.reports) + Unreported(h, price) == |RawKeys(s.files)| + Doubled(h, price)
            && (Sum(s.reports) == |RawKeys(s.files)| <==> Doubled(h, price) == Unreported(h, price))
  {
    HistoryIsSound(h, price);
    HistoryIsTallied(h, price);
    AllKeys(After(h, price), price);
  }

  lemma {:induction false} AloneNothingDoubles(h: History, price: Pricing)
    requires Possible(h, price) && OneAtATime(h, price)
    ensures Doubled(h, price) == 0
    ensures forall v, w :: v in After(h, price).jobs && w in After(h, price).jobs ==> v == w
    ensures forall w :: w in After(h, price).jobs ==> Foreign(h, price, w) == 0
  {
    match h
    case Begin =>
    case Then(before, m) => AloneNothingDoubles(before, price);
  }

  /** With one worker at a time the rows reported are at most the distinct event keys,
      and exactly those if and only if no pass died after it had added a row. */
  lemma ReportsAlone(h: History, price: Pricing)
    requires Possible(h, price) && OneAtATime(h, price) && Settled(After(h, price))
    ensures var s := After(h, price);
            && Sum(s.reports) <= |RawKeys(s.files)|
            && (Sum(s.reports) == |RawKeys(s.files)| <==> CleanDeaths(h, price))
  {
    ReportsExactly(h, price);
    AloneNothingDoubles(h, price);
    UnreportedExactly(h, price);
  }

  // ------------------------------------------------- one worker's steps in a row

  predicate Own(m: Move, w: nat)
  {
    match m
    case Spooled(_, _) => false
    case Enqueued(_) => false
    case Reclaimed(_) => false
    case _ => m.worker == w
  }

  /** `longer` goes on from `h` with steps of worker `w` only. */
  ghost predicate By(h: History, longer: History, w: nat)
  {
    h == longer || (longer.Then? && Own(longer.m, w) && By(h, longer.before, w))
  }

  lemma {:induction false} ByAndBy(h: History, longer: History, longest: History, w: nat)
    requires By(h, longer, w) && By(longer, longest, w)
    ensures By(h, longest, w)
  {
    if longer != longest {
      ByAndBy(h, longer, longest.before, w);
    }
  }

  /** `t` differs from `s` in nothing but rows and the pass of `w`. */
  ghost predicate OnlyPass(s: State, t: State, w: nat)
  {
    && t.files == s.files && t.queue == s.queue && t.sent == s.sent && t.reports == s.reports
    && w in t.jobs && t.jobs - {w} == s.jobs - {w}
  }

  /** `w` wrote the first `n` rows of its batch. */
  ghost predicate Inserting(s: State, t: State, w: nat, before: nat, n: nat, price: Pricing)
    requires Busy(s, w) && n <= |BatchOf(s, w)|
  {
    && OnlyPass(s, t, w) && t.jobs[w].refs == s.jobs[w].refs
    && t.jobs[w].phase == Writing(before, n) && t.jobs[w].written == s.jobs[w].written
    && t.rows == InsertAll(s.rows, EnrichAll(BatchOf(s, w), price)[..n])
  }

  lemma InsertStep(s: State, t: State, w: nat, before: nat, n: nat, price: Pricing)
    requires Busy(s, w) && n < |BatchOf(s, w)| && Inserting(s, t, w, before, n, price)
    ensures Can(t, Inserted(w)) && Inserting(s, InsertOne(t, w, price), w, before, n + 1, price)
  {
    var rs := EnrichAll(BatchOf(s, w), price);
    assert rs[..n + 1][..n] == rs[..n];
    assert InsertOne(t, w, price).jobs - {w} == t.jobs - {w};
  }

  /** A prefix of a write is that many single inserts. */
  lemma {:induction false} InsertsFollow(h: History, price: Pricing, s: State, w: nat, before: nat, n: nat)
    returns (longer: History)
    requires LeadsTo(h, price, s) && Busy(s, w) && s.jobs[w].phase == Writing(before, 0) && n <= |BatchOf(s, w)|
    ensures Possible(longer, price) && By(h, longer, w) && Inserting(s, After(longer, price), w, before, n, price)
  {
    if n == 0 {
      longer := h;
    } else {
      longer := InsertsFollow(h, price, s, w, before, n - 1);
      InsertStep(s, After(longer, price), w, before, n - 1, price);
      longer := Then(longer, Inserted(w));
    }
  }

  // ------------------------------------------ where the reports do not add up

  lemma OneStep(h: History, price: Pricing, s: State, m: Move, t: State)
    requires LeadsTo(h, price, s) && Can(s, m) && t == Take(s, m, price)
    ensures LeadsTo(Then(h, m), price, t)
    ensures OneAtATime(h, price) && (m.Claimed? ==> s.jobs == map[]) ==> OneAtATime(Then(h, m), price)
  {
  }

  /** One batch, sent and waiting. */
  function Waiting(ref: Ref, batch: Batch, rows: map<string, Row>): State
  {
    State(map[ref := batch], map[ref := false], {ref}, map[], rows, [])
  }

  /** A worker has the batch of one event and counted `before` rows. */
  function AtWork(ref: Ref, e: Event, rows: map<string, Row>, w: nat, job: Job): State
  {
    Waiting(ref, [e], rows).(queue := map[ref := true], jobs := map[w := job])
  }

  lemma SendOne(ref: Ref, batch: Batch, price: Pricing) returns (h: History)
    ensures LeadsTo(h, price, Waiting(ref, batch, map[])) && OneAtATime(h, price)
  {
    var s := START.(files := map[ref := batch]);
    h := Then(Begin, Spooled(ref, batch));
    OneStep(Begin, price, START, Spooled(ref, batch), s);
    OneStep(h, price, s, Enqueued(ref), Waiting(ref, batch, map[]));
    h := Then(h, Enqueued(ref));
  }

  /** A worker claims the batch of one event and inserts it. */
  lemma ClaimAndInsert(h: History, price: Pricing, ref: Ref, e: Event, rows: map<string, Row>, w: nat)
    returns (longer: History)
    requires LeadsTo(h, price, Waiting(ref, [e], rows)) && OneAtATime(h, price)
    ensures var more := Insert(rows, Enrich(e, price));
            LeadsTo(longer, price,
              AtWork(ref, e, more, w, Job([ref], Writing(|rows|, 1), 0, if more == rows then 0 else 1)))
    ensures OneAtATime(longer, price)
  {
    var more := Insert(rows, Enrich(e, price));
    var s, t := Waiting(ref, [e], rows), AtWork(ref, e, rows, w, Job([ref], Idle, 0, 0));
    assert (map r | r in s.queue :: s.queue[r] || r in [ref]) == map[ref := true];
    OneStep(h, price, s, Claimed(w, [ref]), t);
    longer := InsertIt(Then(h, Claimed(w, [ref])), price, ref, e, rows, w);
  }

  lemma InsertIt(h: History, price: Pricing, ref: Ref, e: Event, rows: map<string, Row>, w: nat)
    returns (longer: History)
    requires LeadsTo(h, price, AtWork(ref, e, rows, w, Job([ref], Idle, 0, 0))) && OneAtATime(h, price)
    ensures var more := Insert(rows, Enrich(e, price));
            LeadsTo(longer, price,
              AtWork(ref, e, more, w, Job([ref], Writing(|rows|, 1), 0, if more == rows then 0 else 1)))
    ensures OneAtATime(longer, price)
  {
    var more := Insert(rows, Enrich(e, price));
    var s, t :=
      AtWork(ref, e, rows, w, Job([ref], Idle, 0, 0)), AtWork(ref, e, rows, w, Job([ref], Writing(|rows|, 0), 0, 0));
    assert s.jobs[w := Job([ref], Writing(|rows|, 0), 0, 0)] == t.jobs;
    OneStep(h, price, s, Counted(w), t);
    var job := Job([ref], Writing(|rows|, 1), 0, if more == rows then 0 else 1);
    assert t.jobs[w := job] == map[w := job];
    OneStep(Then(h, Counted(w)), price, t, Inserted(w), AtWork(ref, e, more, w, job));
    longer := Then(Then(h, Counted(w)), Inserted(w));
  }

  /** It dies there, and the reference is reclaimed. */
  lemma DieAndReclaim(h: History, price: Pricing, ref: Ref, e: Event, rows: map<string, Row>, w: nat, job: Job)
    returns (longer: History)
    requires LeadsTo(h, price, AtWork(ref, e, rows, w, job)) && OneAtATime(h, price)
    ensures LeadsTo(longer, price, Waiting(ref, [e], rows)) && OneAtATime(longer, price)
  {
    var s := AtWork(ref, e, rows, w, job);
    var t := s.(jobs := map[]);
    OneStep(h, price, s, Died(w), t);
    OneStep(Then(h, Died(w)), price, t, Reclaimed({ref}), Waiting(ref, [e], rows));
    longer := Then(Then(h, Died(w)), Reclaimed({ref}));
  }

  /** It writes, acks and reports what it added. */
  lemma AckAndFinish(h: History, price: Pricing, ref: Ref, e: Event, rows: map<string, Row>, w: nat, job: Job)
    returns (longer: History)
    requires job.refs == [ref] && job.phase.Writing? && job.phase.inserted == 1 && job.written == 0
    requires LeadsTo(h, price, AtWork(ref, e, rows, w, job)) && OneAtATime(h, price)
    ensures LeadsTo(longer, price, State(map[ref := [e]], map[], {ref}, map[], rows, [|rows| - job.phase.before]))
    ensures OneAtATime(longer, price)
  {
    var s, n := AtWork(ref, e, rows, w, job), |rows| - job.phase.before;
    var done := job.(phase := Written, written := n);
    assert s.jobs[w := done] == map[w := done];
    OneStep(h, price, s, Wrote(w), AtWork(ref, e, rows, w, done));
    longer := FinishIt(Then(h, Wrote(w)), price, ref, e, rows, w, done);
  }

  lemma FinishIt(h: History, price: Pricing, ref: Ref, e: Event, rows: map<string, Row>, w: nat, job: Job)
    returns (longer: History)
    requires job.refs == [ref] && job.phase.Written?
    requires LeadsTo(h, price, AtWork(ref, e, rows, w, job)) && OneAtATime(h, price)
    ensures LeadsTo(longer, price, State(map[ref := [e]], map[], {ref}, map[], rows, [job.written]))
    ensures OneAtATime(longer, price)
  {
    var s, last := AtWork(ref, e, rows, w, job), Job([], Idle, job.written, job.added);
    var t := s.(queue := map[], jobs := map[w := last]);
    assert map[ref := true] - {ref} == map[] && [ref][1..] == [] && s.jobs[w := last] == t.jobs;
    OneStep(h, price, s, Acked(w), t);
    OneStep(Then(h, Acked(w)), price, t, Finished(w), t.(jobs := map[], reports := [job.written]));
    longer := Then(Then(h, Acked(w)), Finished(w));
  }

  /** One event, one worker at a time: the first pass inserts the row and dies before
      its write returns, the second finds it there. The table is right and the only
      report says that no row was written. */
  lemma DeathUnderReports(ref: Ref, e: Event, price: Pricing) returns (h: History)
    ensures Possible(h, price) && OneAtATime(h, price) && Settled(After(h, price))
    ensures After(h, price).reports == [0] && |RawKeys(After(h, price).files)| == 1
  {
    var row := Enrich(e, price);
    var rows := map[row.key := row];
    h := SendOne(ref, [e], price);
    h := ClaimAndInsert(h, price, ref, e, map[], 0);
    assert Insert(map[], row) == rows && Insert(rows, row) == rows;
    h := DieAndReclaim(h, price, ref, e, rows, 0, Job([ref], Writing(0, 1), 0, 1));
    h := ClaimAndInsert(h, price, ref, e, rows, 1);
    h := AckAndFinish(h, price, ref, e, rows, 1, Job([ref], Writing(1, 1), 0, 0));
    HistoryIsSound(h, price);
    AllKeys(After(h, price), price);
  }

  /** Two workers on the one batch of one event. */
  function Both(ref: Ref, e: Event, rows: map<string, Row>, queue: map<Ref, bool>, a: Job, b: Job): State
  {
    State(map[ref := [e]], queue, {ref}, map[0 := a, 1 := b], rows, [])
  }

  lemma BothClaim(ref: Ref, e: Event, price: Pricing) returns (h: History)
    ensures LeadsTo(h, price, Both(ref, e, map[], map[ref := true], Job([ref], Idle, 0, 0), Job([ref], Idle, 0, 0)))
  {
    var idle := Job([ref], Idle, 0, 0);
    var s0 := Waiting(ref, [e], map[]);
    h := SendOne(ref, [e], price);
    var s1 := AtWork(ref, e, map[], 0, idle);
    assert (map r | r in s0.queue :: s0.queue[r] || r in [ref]) == map[ref := true];
    OneStep(h, price, s0, Claimed(0, [ref]), s1);
    h := Then(h, Claimed(0, [ref]));
    var s2 := s1.(queue := map[ref := false]);
    OneStep(h, price, s1, Reclaimed({ref}), s2);
    h := Then(h, Reclaimed({ref}));
    var s3 := Both(ref, e, map[], map[ref := true], idle, idle);
    assert (map r | r in s2.queue :: s2.queue[r] || r in [ref]) == map[ref := true];
    assert map[0 := idle][1 := idle] == map[0 := idle, 1 := idle];
    OneStep(h, price, s2, Claimed(1, [ref]), s3);
    h := Then(h, Claimed(1, [ref]));
  }

  lemma BothCount(h: History, ref: Ref, e: Event, price: Pricing, idle: Job) returns (longer: History)
    requires idle == Job([ref], Idle, 0, 0) && LeadsTo(h, price, Both(ref, e, map[], map[ref := true], idle, idle))
    ensures LeadsTo(longer, price,
              Both(ref, e, map[], map[ref := true], idle.(phase := Writing(0, 0)), idle.(phase := Writing(0, 0))))
  {
    var c := idle.(phase := Writing(0, 0));
    var s := Both(ref, e, map[], map[ref := true], idle, idle);
    var t, u := s.(jobs := map[0 := c, 1 := idle]), s.(jobs := map[0 := c, 1 := c]);
    assert s.jobs[0 := c] == t.jobs && t.jobs[1 := c] == u.jobs;
    OneStep(h, price, s, Counted(0), t);
    OneStep(Then(h, Counted(0)), price, t, Counted(1), u);
    longer := Then(Then(h, Counted(0)), Counted(1));
  }

  lemma FirstInsert(h: History, ref: Ref, e: Event, price: Pricing, c: Job)
    requires c == Job([ref], Writing(0, 0), 0, 0) && LeadsTo(h, price, Both(ref, e, map[], map[ref := true], c, c))
    ensures LeadsTo(Then(h, Inserted(0)), price,
                    Both(ref, e, map[KeyOf(e) := Enrich(e, price)], map[ref := true], Job([ref], Writing(0, 1), 0, 1),
                      c))
  {
    var rows, a := map[KeyOf(e) := Enrich(e, price)], Job([ref], Writing(0, 1), 0, 1);
    var s := Both(ref, e, map[], map[ref := true], c, c);
    assert Insert(map[], Enrich(e, price)) == rows && KeyOf(e) in rows;
    assert s.jobs[0 := a] == map[0 := a, 1 := c];
    OneStep(h, price, s, Inserted(0), Both(ref, e, rows, map[ref := true], a, c));
  }

  lemma BothInsert(h: History, ref: Ref, e: Event, price: Pricing, c: Job) returns (longer: History)
    requires c == Job([ref], Writing(0, 0), 0, 0) && LeadsTo(h, price, Both(ref, e, map[], map[ref := true], c, c))
    ensures LeadsTo(longer, price, Both(ref, e, map[KeyOf(e) := Enrich(e, price)], map[ref := true],
                                        Job([ref], Writing(0, 1), 0, 1), Job([ref], Writing(0, 1), 0, 0)))
  {
    var rows, a, b :=
      map[KeyOf(e) := Enrich(e, price)], Job([ref], Writing(0, 1), 0, 1), Job([ref], Writing(0, 1), 0, 0);
    FirstInsert(h, ref, e, price, c);
    var s := Both(ref, e, rows, map[ref := true], a, c);
    assert Insert(rows, Enrich(e, price)) == rows;
    assert s.jobs[1 := b] == map[0 := a, 1 := b];
    OneStep(Then(h, Inserted(0)), price, s, Inserted(1), Both(ref, e, rows, map[ref := true], a, b));
    longer := Then(Then(h, Inserted(0)), Inserted(1));
  }

  lemma BothWrite(h: History, ref: Ref, e: Event, price: Pricing, rows: map<string, Row>, a: Job, b: Job)
    returns (longer: History)
    requires a == Job([ref], Writing(0, 1), 0, 1) && b == Job([ref], Writing(0, 1), 0, 0) && |rows| == 1
    requires LeadsTo(h, price, Both(ref, e, rows, map[ref := true], a, b))
    ensures LeadsTo(longer, price,
              Both(ref, e, rows, map[ref := true], Job([ref], Written, 1, 1), Job([ref], Written, 1, 0)))
  {
    var a', b' := Job([ref], Written, 1, 1), Job([ref], Written, 1, 0);
    var s := Both(ref, e, rows, map[ref := true], a, b);
    var t, u := s.(jobs := map[0 := a', 1 := b]), s.(jobs := map[0 := a', 1 := b']);
    assert s.jobs[0 := a'] == t.jobs && t.jobs[1 := b'] == u.jobs;
    OneStep(h, price, s, Wrote(0), t);
    OneStep(Then(h, Wrote(0)), price, t, Wrote(1), u);
    longer := Then(Then(h, Wrote(0)), Wrote(1));
  }

  lemma BothAck(h: History, ref: Ref, e: Event, price: Pricing, rows: map<string, Row>, a: Job, b: Job)
    returns (longer: History)
    requires a == Job([ref], Written, 1, 1) && b == Job([ref], Written, 1, 0)
    requires LeadsTo(h, price, Both(ref, e, rows, map[ref := true], a, b))
    ensures LeadsTo(longer, price, Both(ref, e, rows, map[], Job([], Idle, 1, 1), Job([], Idle, 1, 0)))
  {
    var a', b' := Job([], Idle, 1, 1), Job([], Idle, 1, 0);
    var s := Both(ref, e, rows, map[ref := true], a, b);
    var t, u := s.(queue := map[], jobs := map[0 := a', 1 := b]), s.(queue := map[], jobs := map[0 := a', 1 := b']);
    assert map[ref := true] - {ref} == map[] && [ref][1..] == [];
    assert s.jobs[0 := a'] == t.jobs && t.jobs[1 := b'] == u.jobs;
    OneStep(h, price, s, Acked(0), t);
    OneStep(Then(h, Acked(0)), price, t, Acked(1), u);
    longer := Then(Then(h, Acked(0)), Acked(1));
  }

  lemma BothFinish(h: History, ref: Ref, e: Event, price: Pricing, rows: map<string, Row>, a: Job, b: Job)
    returns (longer: History)
    requires a == Job([], Idle, 1, 1) && b == Job([], Idle, 1, 0) && LeadsTo(h, price, Both(ref, e, rows, map[], a, b))
    ensures LeadsTo(longer, price, State(map[ref := [e]], map[], {ref}, map[], rows, [1, 1]))
  {
    var s := Both(ref, e, rows, map[], a, b);
    var t := s.(jobs := map[1 := b], reports := [1]);
    assert s.jobs - {0} == t.jobs && t.jobs - {1} == map[];
    OneStep(h, price, s, Finished(0), t);
    OneStep(Then(h, Finished(0)), price, t, Finished(1), t.(jobs := map[], reports := [1, 1]));
    longer := Then(Then(h, Finished(0)), Finished(1));
  }

  /** One event, a claim gone stale and taken by a second worker: both count before
      either inserts, and both report the one row. */
  lemma OverlapOverReports(ref: Ref, e: Event, price: Pricing) returns (h: History)
    ensures Possible(h, price) && Settled(After(h, price))
    ensures After(h, price).reports == [1, 1] && |RawKeys(After(h, price).files)| == 1
  {
    var rows := map[KeyOf(e) := Enrich(e, price)];
    h := BothClaim(ref, e, price);
    h := BothCount(h, ref, e, price, Job([ref], Idle, 0, 0));
    h := BothInsert(h, ref, e, price, Job([ref], Writing(0, 0), 0, 0));
    h := BothWrite(h, ref, e, price, rows, Job([ref], Writing(0, 1), 0, 1), Job([ref], Writing(0, 1), 0, 0));
    h := BothAck(h, ref, e, price, rows, Job([ref], Written, 1, 1), Job([ref], Written, 1, 0));
    h := BothFinish(h, ref, e, price, rows, Job([], Idle, 1, 1), Job([], Idle, 1, 0));
    HistoryIsSound(h, price);
    AllKeys(After(h, price), price);
  }
}
