/** The raw-first ingest pipeline: batches land in a content-addressed spool, only
    their references are queued, and workers write each batch's rows to an
    idempotent sink before they ack the reference. */
module Pipeline {
  import opened Messages
  import opened Rows
  import opened Schedule

  // ------------------------------------------------------ the three parts

  class Spool {
    const hash: Batch -> Ref
    var files: map<Ref, Batch>

    /** Content addressing: every file is stored under its own hash. */
    ghost predicate Valid()
      reads this
    {
      forall ref :: ref in files ==> ref == hash(files[ref])
    }

    constructor (hash: Batch -> Ref)
      ensures Valid() && files == map[] && this.hash == hash
    {
      this.hash := hash;
      files := map[];
    }

    /** A batch sent again overwrites nothing. */
    method Write(batch: Batch) returns (ref: Ref)
      requires Valid()
      modifies this
      ensures Valid() && ref == hash(batch)
      ensures files == if ref in old(files) then old(files) else old(files)[ref := batch]
    {
      ref := hash(batch);
      if ref !in files {
        files := files[ref := batch];
      }
    }

    method Read(ref: Ref) returns (batch: Option<Batch>)
      ensures batch == if ref in files then Some(files[ref]) else None
    {
      batch := if ref in files then Some(files[ref]) else None;
    }
  }

  /** With no two batches on one hash, whatever was written reads back. */
  method WriteThenRead(spool: Spool, batch: Batch) returns (back: Option<Batch>)
    requires spool.Valid() && forall b :: spool.hash(b) == spool.hash(batch) ==> b == batch
    modifies spool
    ensures back == Some(batch)
  {
    var ref := spool.Write(batch);
    back := spool.Read(ref);
  }

  datatype Entry = Entry(enqueuedAt: real, claimedAt: Option<real>)

  class RefQueue {
    var refs: map<Ref, Entry>

    constructor ()
      ensures refs == map[]
    {
      refs := map[];
    }

    function Waiting(): set<Ref>
      reads this
    {
      set r | r in refs && refs[r].claimedAt.None?
    }

    method Enqueue(ref: Ref, now: real)
      modifies this
      ensures refs == if ref in old(refs) then old(refs) else old(refs)[ref := Entry(now, None)]
    {
      if ref !in refs {
        refs := refs[ref := Entry(now, None)];
      }
    }

    /** The oldest waiting references, at most `limit`; a negative limit is none. */
    method Claim(limit: int, now: real) returns (taken: seq<Ref>)
      modifies this
      ensures forall r :: r in taken ==> r in old(Waiting())
      ensures forall i, j :: 0 <= i < j < |taken| ==> taken[i] != taken[j]
      ensures refs.Keys == old(refs.Keys)
      ensures forall r :: r in refs ==>
                refs[r] == if r in taken then Entry(old(refs)[r].enqueuedAt, Some(now)) else old(refs)[r]
      ensures forall r, q :: r in taken && q in old(Waiting()) && q !in taken ==>
                old(refs)[r].enqueuedAt <= old(refs)[q].enqueuedAt
      ensures |taken| == if 0 <= limit < |old(Waiting())| then limit else |old(Waiting())|
    {
      taken := [];
      var waiting := Waiting();
      var entries := refs;
      while waiting != {} && (limit < 0 || |taken| < limit)
        invariant refs == old(refs) && waiting <= Waiting() && |waiting| + |taken| == |Waiting()|
        invariant forall r :: r in Waiting() <==> r in waiting || r in taken
        invariant forall r :: r in taken ==> r !in waiting
        invariant forall i, j :: 0 <= i < j < |taken| ==> taken[i] != taken[j]
        invariant entries.Keys == refs.Keys
        invariant forall r :: r in refs ==>
                    entries[r] == if r in taken then Entry(refs[r].enqueuedAt, Some(now)) else refs[r]
        invariant forall r, q :: r in taken && q in waiting ==> refs[r].enqueuedAt <= refs[q].enqueuedAt
        invariant limit >= 0 ==> |taken| <= limit
        decreases waiting
      {
        var r := Oldest(waiting);
        waiting := waiting - {r};
        entries := entries[r := refs[r].(claimedAt := Some(now))];
        taken := taken + [r];
      }
      refs := entries;
    }

    method Oldest(among: set<Ref>) returns (oldest: Ref)
      requires among != {} && among <= refs.Keys
      ensures oldest in among && forall q :: q in among ==> refs[oldest].enqueuedAt <= refs[q].enqueuedAt
    {
      oldest :| oldest in among;
      var rest := among - {oldest};
      while rest != {}
        invariant rest <= among && oldest in among
        invariant forall q :: q in among - rest ==> refs[oldest].enqueuedAt <= refs[q].enqueuedAt
        decreases rest
      {
        var q :| q in rest;
        rest := rest - {q};
        if refs[q].enqueuedAt < refs[oldest].enqueuedAt {
          oldest := q;
        }
      }
    }

    method Ack(ref: Ref)
      modifies this
      ensures refs == old(refs) - {ref}
    {
      refs := refs - {ref};
    }

    /** Claims never acked come back once stale, and only those. */
    method Reclaim(olderThan: real, now: real) returns (back: set<Ref>)
      modifies this
      ensures back == set r | r in old(refs) && old(refs)[r].claimedAt.Some?
                              && old(refs)[r].claimedAt.value <= now - olderThan
      ensures refs.Keys == old(refs.Keys)
      ensures forall r :: r in refs ==>
                refs[r] == if r in back then Entry(old(refs)[r].enqueuedAt, None) else old(refs)[r]
    {
      var cutoff := now - olderThan;
      back := set r | r in refs && refs[r].claimedAt.Some? && refs[r].claimedAt.value <= cutoff;
      refs := map r | r in refs :: if r in back then refs[r].(claimedAt := None) else refs[r];
    }
  }

  class Sink {
    var rows: map<string, Row>

    constructor ()
      ensures rows == map[]
    {
      rows := map[];
    }

    /** Conflict-ignoring insert, row by row; a crash may leave any prefix written. */
    method Write(batch: Batch, price: Pricing) returns (written: int, crashed: bool, ghost n: nat)
      modifies this
      ensures n <= |batch| && rows == InsertAll(old(rows), EnrichAll(batch, price)[..n])
      ensures !crashed ==> n == |batch| && written == |rows| - |old(rows)|
    {
      n, written := 0, 0;
      if batch == [] {
        return 0, false, 0;
      }
      var before := |rows|;
      for i := 0 to |batch|
        invariant n == i && rows == InsertAll(old(rows), EnrichAll(batch, price)[..i])
      {
        crashed := *;
        if crashed {
          return;
        }
        rows := Insert(rows, Enrich(batch[i], price));
        n := n + 1;
        assert EnrichAll(batch, price)[..i + 1][..i] == EnrichAll(batch, price)[..i];
      }
      return |rows| - before, false, n;
    }

    method Reset()
      modifies this
      ensures rows == map[]
    {
      rows := map[];
    }
  }

  // ------------------------------------------------------- sending and draining

  function Claims(refs: map<Ref, Entry>): map<Ref, bool>
  {
    map r | r in refs :: refs[r].claimedAt.Some?
  }

  lemma ClaimsPlus(refs: map<Ref, Entry>, ref: Ref, now: real)
    ensures Claims(refs[ref := Entry(now, None)]) == Claims(refs)[ref := false]
  {
  }

  lemma ClaimsMinus(refs: map<Ref, Entry>, ref: Ref)
    ensures Claims(refs - {ref}) == Claims(refs) - {ref}
  {
  }

  /** The stores stand where the schedule says. */
  ghost predicate Shows(s: State, spool: Spool, queue: RefQueue, rows: map<string, Row>)
    reads spool, queue
  {
    s.files == spool.files && s.queue == Claims(queue.refs) && s.rows == rows
  }

  /** A batch sent again spools nothing. */
  lemma SpoolFollows(h: History, price: Pricing, s: State, ref: Ref, batch: Batch) returns (longer: History)
    requires LeadsTo(h, price, s)
    ensures LeadsTo(longer, price, s.(files := if ref in s.files then s.files else s.files[ref := batch]))
  {
    longer := if ref in s.files then h else Then(h, Spooled(ref, batch));
  }

  lemma EnqueueFollows(h: History, price: Pricing, s: State, ref: Ref)
    requires LeadsTo(h, price, s) && ref in s.files
    ensures LeadsTo(Then(h, Enqueued(ref)), price,
                    s.(queue := if ref in s.queue then s.queue else s.queue[ref := false], sent := s.sent + {ref}))
  {
  }

  /** The producer: spool, then queue the reference. Dying in between leaves a file
      nobody was told about. */
  method Send(spool: Spool, queue: RefQueue, batch: Batch, now: real, ghost h: History, ghost price: Pricing,
              ghost s: State)
    returns (crashed: bool, ghost longer: History, ghost t: State)
    requires spool.Valid() && LeadsTo(h, price, s) && Shows(s, spool, queue, s.rows)
    modifies spool, queue
    ensures spool.Valid() && spool.hash(batch) in spool.files
    ensures LeadsTo(longer, price, t) && Shows(t, spool, queue, s.rows)
    ensures t == s.(files := t.files, queue := t.queue, sent := s.sent + if crashed then {} else {spool.hash(batch)})
    ensures !crashed ==> spool.hash(batch) in queue.refs
  {
    var ref := spool.Write(batch);
    longer := SpoolFollows(h, price, s, ref, batch);
    t := s.(files := spool.files);
    crashed := *;
    if crashed {
      return;
    }
    EnqueueFollows(longer, price, t, ref);
    ClaimsPlus(queue.refs, ref, now);
    queue.Enqueue(ref, now);
    longer, t := Then(longer, Enqueued(ref)), t.(queue := Claims(queue.refs), sent := s.sent + {ref});
  }

  /** The first reference of `w` was flushed: read, counted, inserted and acked. */
  ghost predicate Flushed(s: State, t: State, w: nat, count: int)
    requires w in s.jobs && s.jobs[w].refs != []
  {
    && t.files == s.files && t.sent == s.sent && t.reports == s.reports
    && t.queue == s.queue - {s.jobs[w].refs[0]}
    && w in t.jobs && t.jobs - {w} == s.jobs - {w}
    && t.jobs[w].refs == s.jobs[w].refs[1..] && t.jobs[w].phase == Idle
    && t.jobs[w].written == s.jobs[w].written + count
  }

  /** The steps up to the ack of a non-empty batch of which `n` rows were inserted. */
  lemma WriteFollows(h: History, price: Pricing, s: State, w: nat, n: nat) returns (longer: History)
    requires LeadsTo(h, price, s) && Busy(s, w) && s.jobs[w].phase.Idle? && BatchOf(s, w) != [] && n <= |BatchOf(s, w)|
    ensures Possible(longer, price) && By(h, longer, w)
    ensures var counted := s.(jobs := s.jobs[w := s.jobs[w].(phase := Writing(|s.rows|, 0))]);
            Inserting(counted, After(longer, price), w, |s.rows|, n, price)
  {
    var counted := s.(jobs := s.jobs[w := s.jobs[w].(phase := Writing(|s.rows|, 0))]);
    var h1 := Then(h, Counted(w));
    assert LeadsTo(h1, price, counted) && BatchOf(counted, w) == BatchOf(s, w);
    longer := InsertsFollow(h1, price, counted, w, |s.rows|, n);
    assert By(h, h1, w);
    ByAndBy(h, h1, longer, w);
  }

  /** The batch's rows are in and `count` of them were new. */
  ghost predicate Put(s: State, t: State, w: nat, count: int)
  {
    OnlyPass(s, t, w) && w in s.jobs && t.jobs[w].refs == s.jobs[w].refs && t.jobs[w].phase == Written
    && t.jobs[w].written == s.jobs[w].written + count
  }

  lemma CountFollows(h: History, price: Pricing, s: State, w: nat)
    requires LeadsTo(h, price, s) && Busy(s, w) && s.jobs[w].phase.Idle? && BatchOf(s, w) == []
    ensures Possible(Then(h, Counted(w)), price) && By(h, Then(h, Counted(w)), w)
    ensures Put(s, After(Then(h, Counted(w)), price), w, 0) && After(Then(h, Counted(w)), price).rows == s.rows
  {
    PassTouched(s, w, s.jobs[w].(phase := Written));
    assert By(h, h, w);
  }

  lemma WroteFollows(h: History, price: Pricing, s: State, counted: State, t: State, w: nat)
    requires LeadsTo(h, price, t) && Busy(s, w)
    requires counted == s.(jobs := s.jobs[w := s.jobs[w].(phase := Writing(|s.rows|, 0))])
    requires Inserting(counted, t, w, |s.rows|, |BatchOf(s, w)|, price)
    ensures Possible(Then(h, Wrote(w)), price)
    ensures Put(s, After(Then(h, Wrote(w)), price), w, |t.rows| - |s.rows|)
    ensures After(Then(h, Wrote(w)), price).rows == t.rows
  {
    PassTouched(s, w, counted.jobs[w]);
    PassTouched(t, w, t.jobs[w].(phase := Written, written := t.jobs[w].written + |t.rows| - |s.rows|));
  }

  lemma PutFollows(h: History, price: Pricing, s: State, w: nat, rows: map<string, Row>) returns (longer: History)
    requires LeadsTo(h, price, s) && Busy(s, w) && s.jobs[w].phase.Idle?
    requires rows == InsertAll(s.rows, EnrichAll(BatchOf(s, w), price))
    ensures Possible(longer, price) && By(h, longer, w) && After(longer, price).rows == rows
    ensures Put(s, After(longer, price), w, |rows| - |s.rows|)
  {
    var batch := BatchOf(s, w);
    if batch == [] {
      CountFollows(h, price, s, w);
      longer := Then(h, Counted(w));
    } else {
      var before := WriteFollows(h, price, s, w, |batch|);
      assert EnrichAll(batch, price)[..|batch|] == EnrichAll(batch, price);
      var counted := s.(jobs := s.jobs[w := s.jobs[w].(phase := Writing(|s.rows|, 0))]);
      WroteFollows(before, price, s, counted, After(before, price), w);
      longer := Then(before, Wrote(w));
    }
  }

  lemma PassTouched(s: State, w: nat, job: Job)
    requires w in s.jobs
    ensures s.jobs[w := job] - {w} == s.jobs - {w}
  {
  }

  lemma AckFollows(h: History, price: Pricing, s: State, t: State, w: nat, count: int)
    requires Possible(h, price) && Busy(s, w) && t == After(h, price) && Put(s, t, w, count)
    ensures Possible(Then(h, Acked(w)), price) && After(Then(h, Acked(w)), price).rows == t.rows
    ensures Flushed(s, After(Then(h, Acked(w)), price), w, count)
  {
    PassTouched(t, w, t.jobs[w].(refs := t.jobs[w].refs[1..], phase := Idle));
  }

  lemma FlushFollows(h: History, price: Pricing, s: State, w: nat, rows: map<string, Row>) returns (longer: History)
    requires LeadsTo(h, price, s) && Busy(s, w) && s.jobs[w].phase.Idle?
    requires rows == InsertAll(s.rows, EnrichAll(BatchOf(s, w), price))
    ensures Possible(longer, price) && By(h, longer, w) && After(longer, price).rows == rows
    ensures Flushed(s, After(longer, price), w, |rows| - |s.rows|)
  {
    var before := PutFollows(h, price, s, w, rows);
    AckFollows(before, price, s, After(before, price), w, |rows| - |s.rows|);
    longer := Then(before, Acked(w));
  }

  /** Dying at any point of it leaves a prefix of the rows and the reference queued. */
  ghost predicate Dead(s: State, t: State, w: nat)
  {
    t.files == s.files && t.sent == s.sent && t.queue == s.queue && t.reports == s.reports && t.jobs == s.jobs - {w}
  }

  lemma DeathFollows(h: History, price: Pricing, s: State, w: nat, n: nat, rows: map<string, Row>)
    returns (longer: History)
    requires LeadsTo(h, price, s) && Busy(s, w) && s.jobs[w].phase.Idle? && n <= |BatchOf(s, w)|
    requires rows == InsertAll(s.rows, EnrichAll(BatchOf(s, w), price)[..n])
    ensures Possible(longer, price) && By(h, longer, w)
    ensures After(longer, price).rows == rows && Dead(s, After(longer, price), w)
  {
    var before := h;
    if BatchOf(s, w) != [] {
      PassTouched(s, w, s.jobs[w].(phase := Writing(|s.rows|, 0)));
      before := WriteFollows(h, price, s, w, n);
    }
    longer := Then(before, Died(w));
  }

  /** One claimed reference: write its rows, and only then ack it. */
  method Flush(spool: Spool, queue: RefQueue, sink: Sink, price: Pricing, ref: Ref, ghost h: History, ghost s: State,
               ghost w: nat)
    returns (count: int, crashed: bool, ghost longer: History)
    requires spool.Valid() && LeadsTo(h, price, s) && Shows(s, spool, queue, sink.rows)
    requires Busy(s, w) && s.jobs[w].refs[0] == ref && s.jobs[w].phase.Idle?
    modifies queue, sink
    ensures Possible(longer, price) && By(h, longer, w) && Shows(After(longer, price), spool, queue, sink.rows)
    ensures if crashed then Dead(s, After(longer, price), w) && queue.refs == old(queue.refs)
            else Flushed(s, After(longer, price), w, count) && queue.refs == old(queue.refs) - {ref}
    ensures !crashed ==> Landed(sink.rows, spool.files[ref]) && count == |sink.rows| - |old(sink.rows)|
  {
    var batch := spool.Read(ref);
    var written, died, n := sink.Write(batch.value, price);
    count := written;
    var dies := *;
    crashed := died || dies;
    if crashed {
      longer := DeathFollows(h, price, s, w, n, sink.rows);
      return;
    }
    WholeBatch(s.rows, batch.value, price);
    longer := FlushFollows(h, price, s, w, sink.rows);
    ClaimsMinus(queue.refs, ref);
    queue.Ack(ref);
  }

  lemma WholeBatch(rows: map<string, Row>, batch: Batch, price: Pricing)
    ensures EnrichAll(batch, price)[..|batch|] == EnrichAll(batch, price)
    ensures Landed(InsertAll(rows, EnrichAll(batch, price)), batch)
  {
    assert EnrichAll(batch, price)[..|batch|] == EnrichAll(batch, price) && batch[..|batch|] == batch;
    InsertedAll(rows, batch, price, |batch|);
  }

  /** `w` is mid-pass with these references left, and the others are as they were. */
  ghost predicate Passing(s: State, t: State, w: nat, refs: seq<Ref>, written: int)
  {
    && t.files == s.files && t.sent == s.sent && t.reports == s.reports
    && w in t.jobs && t.jobs - {w} == s.jobs
    && t.jobs[w].refs == refs && t.jobs[w].phase == Idle && t.jobs[w].written == written
  }

  lemma ClaimFollows(h: History, price: Pricing, s: State, w: nat, refs: seq<Ref>)
    requires LeadsTo(h, price, s) && w !in s.jobs && forall r :: r in refs ==> r in s.queue && !s.queue[r]
    ensures Possible(Then(h, Claimed(w, refs)), price) && By(h, Then(h, Claimed(w, refs)), w)
    ensures var t := After(Then(h, Claimed(w, refs)), price);
            Passing(s, t, w, refs, 0) && t.rows == s.rows && t.queue == map r | r in s.queue :: s.queue[r] || r in refs
  {
    assert s.jobs[w := Job(refs, Idle, 0, 0)] - {w} == s.jobs;
    assert By(h, h, w);
  }

  lemma FinishFollows(h: History, price: Pricing, s: State, t: State, w: nat, written: int)
    requires LeadsTo(h, price, t) && Passing(s, t, w, [], written)
    ensures LeadsTo(Then(h, Finished(w)), price, s.(queue := t.queue, rows := t.rows, reports := s.reports + [written]))
  {
  }

  /** A pass begun at `h` got to `t`, with these references left. */
  ghost predicate Going(h: History, longer: History, price: Pricing, s: State, t: State, w: nat, refs: seq<Ref>,
                        written: int)
  {
    LeadsTo(longer, price, t) && By(h, longer, w) && Passing(s, t, w, refs, written)
  }

  /** The pass ended, with its report or without. */
  ghost predicate Over(s: State, t: State, reports: seq<int>)
  {
    t.files == s.files && t.sent == s.sent && t.jobs == s.jobs && t.reports == s.reports + reports
  }

  lemma NextInHand(h: History, price: Pricing, s: State, t: State, w: nat, refs: seq<Ref>, written: int)
    requires LeadsTo(h, price, t) && Passing(s, t, w, refs, written) && refs != []
    ensures Busy(t, w)
  {
    HistoryIsSound(h, price);
    assert Honoured(t, t.jobs[w]);
  }

  lemma GoesOn(h: History, before: History, longer: History, price: Pricing, s: State, t: State, w: nat,
               refs: seq<Ref>, written: int, count: int)
    requires refs != [] && Going(h, before, price, s, t, w, refs, written)
    requires Possible(longer, price) && By(before, longer, w) && Flushed(t, After(longer, price), w, count)
    ensures Going(h, longer, price, s, After(longer, price), w, refs[1..], written + count)
  {
    ByAndBy(h, before, longer, w);
  }

  lemma EndsDead(h: History, before: History, longer: History, price: Pricing, s: State, t: State, w: nat,
                 refs: seq<Ref>, written: int)
    requires refs != [] && Going(h, before, price, s, t, w, refs, written)
    requires Possible(longer, price) && By(before, longer, w) && Dead(t, After(longer, price), w)
    ensures By(h, longer, w) && Over(s, After(longer, price), [])
  {
    ByAndBy(h, before, longer, w);
  }

  /** The next reference of a pass. */
  method FlushNext(spool: Spool, queue: RefQueue, sink: Sink, price: Pricing, ref: Ref, written: int,
                   ghost h: History, ghost before: History, ghost s: State, ghost t: State, ghost w: nat,
                   ghost refs: seq<Ref>)
    returns (total: int, crashed: bool, ghost longer: History)
    requires spool.Valid() && Going(h, before, price, s, t, w, refs, written) && Shows(t, spool, queue, sink.rows)
    requires refs != [] && refs[0] == ref && ref in queue.refs
    modifies queue, sink
    ensures Possible(longer, price) && Shows(After(longer, price), spool, queue, sink.rows)
    ensures if crashed then By(h, longer, w) && Over(s, After(longer, price), [])
            else Going(h, longer, price, s, After(longer, price), w, refs[1..], total)
    ensures !crashed ==> total == written + |sink.rows| - |old(sink.rows)|
    ensures !crashed ==> queue.refs == old(queue.refs) - {ref} && |queue.refs| == |old(queue.refs)| - 1
  {
    NextInHand(before, price, s, t, w, refs, written);
    MapMinus(queue.refs, ref);
    var count;
    count, crashed, longer := Flush(spool, queue, sink, price, ref, before, t, w);
    total := written;
    if crashed {
      EndsDead(h, before, longer, price, s, t, w, refs, written);
    } else {
      GoesOn(h, before, longer, price, s, t, w, refs, written, count);
      total := written + count;
    }
  }

  /** One worker pass, which is a run of that worker's own steps. It may die before,
      inside or after any write; a reference leaves the queue only once its rows are in
      the sink, and a completed pass reports what it returns. */
  method Drain(spool: Spool, queue: RefQueue, sink: Sink, price: Pricing, limit: int, now: real, ghost h: History,
               ghost s: State, ghost w: nat)
    returns (batches: nat, written: int, crashed: bool, ghost longer: History)
    requires spool.Valid() && LeadsTo(h, price, s) && Shows(s, spool, queue, sink.rows) && w !in s.jobs
    modifies queue, sink
    ensures Possible(longer, price) && By(h, longer, w) && Shows(After(longer, price), spool, queue, sink.rows)
    ensures Over(s, After(longer, price), if crashed then [] else [written])
    ensures Safe(spool.files, queue.refs.Keys, s.sent, sink.rows, price)
    ensures !crashed ==> written == |sink.rows| - |old(sink.rows)|
    ensures !crashed ==> batches == if 0 <= limit < |old(queue.Waiting())| then limit else |old(queue.Waiting())|
    ensures !crashed ==> |queue.refs| == |old(queue.refs)| - batches
  {
    var refs := queue.Claim(limit, now);
    ClaimFollows(h, price, s, w, refs);
    ghost var claimed := Then(h, Claimed(w, refs));
    batches := |refs|;
    MapSize(old(queue.refs));
    MapSize(queue.refs);
    assert Claims(queue.refs) == After(claimed, price).queue;
    crashed, written, longer := FlushAll(spool, queue, sink, price, refs, claimed, s, w);
    ByAndBy(h, claimed, longer, w);
    HistoryIsSound(longer, price);
  }

  method FlushAll(spool: Spool, queue: RefQueue, sink: Sink, price: Pricing, refs: seq<Ref>, ghost h: History,
                  ghost s: State, ghost w: nat)
    returns (crashed: bool, written: int, ghost longer: History)
    requires spool.Valid() && Possible(h, price) && Passing(s, After(h, price), w, refs, 0)
    requires Shows(After(h, price), spool, queue, sink.rows)
    requires (forall r :: r in refs ==> r in queue.refs) && forall i, j :: 0 <= i < j < |refs| ==> refs[i] != refs[j]
    modifies queue, sink
    ensures Possible(longer, price) && By(h, longer, w) && Shows(After(longer, price), spool, queue, sink.rows)
    ensures Over(s, After(longer, price), if crashed then [] else [written])
    ensures !crashed ==> written == |sink.rows| - |old(sink.rows)| && |queue.refs| == |old(queue.refs)| - |refs|
  {
    longer, written := h, 0;
    for i := 0 to |refs|
      invariant Possible(longer, price) && Going(h, longer, price, s, After(longer, price), w, refs[i..], written)
      invariant Shows(After(longer, price), spool, queue, sink.rows)
      invariant |queue.refs| == |old(queue.refs)| - i && forall j :: i <= j < |refs| ==> refs[j] in queue.refs
      invariant written == |sink.rows| - |old(sink.rows)|
    {
      assert refs[i..][1..] == refs[i + 1..];
      written, crashed, longer :=
        FlushNext(spool, queue, sink, price, refs[i], written, h, longer, s, After(longer, price), w, refs[i..]);
      if crashed {
        return;
      }
    }
    FinishFollows(longer, price, s, After(longer, price), w, written);
    longer := Then(longer, Finished(w));
    crashed := false;
  }

  /** The loss proof: drop the sink and rebuild it from raw alone. */
  method ReplayFromRaw(spool: Spool, sink: Sink, price: Pricing) returns (written: int, crashed: bool)
    requires spool.Valid()
    modifies sink
    ensures !crashed ==> Mirrors(sink.rows, spool.files, price) && written == |sink.rows|
  {
    sink.Reset();
    written, crashed := 0, false;
    var todo := spool.files.Keys;
    while todo != {}
      invariant todo <= spool.files.Keys
      invariant Safe(spool.files, todo, spool.files.Keys, sink.rows, price)
      invariant written == |sink.rows|
      decreases todo
    {
      var ref :| ref in todo;
      var batch := spool.Read(ref);
      ghost var rows := sink.rows;
      var count, died, n := sink.Write(batch.value, price);
      WriteKeepsSafe(spool.files, todo, spool.files.Keys, rows, price, ref, n, sink.rows);
      if died {
        return written, true;
      }
      written := written + count;
      todo := todo - {ref};
    }
  }
}
