/** The rows of the raw-first ingest: what raw events become in the sink, and what it
    means that nothing sent is lost. */
module Rows {
  import opened Messages
  import opened Query

  /** One raw event; `body` stands for everything but its key. */
  datatype Event = Event(runId: string, num: nat, body: string)

  type Batch = seq<Event>

  type Ref = string

  datatype Row = Row(key: string, runId: string, num: nat, body: string, cost: real)

  type Pricing = string -> real

  function KeyOf(e: Event): string
  {
    e.runId + ":" + Digits(e.num)
  }

  /** One raw event as a wide row, priced from what it recorded. */
  function Enrich(e: Event, price: Pricing): Row
  {
    Row(KeyOf(e), e.runId, e.num, e.body, price(e.body))
  }

  function EnrichAll(batch: Batch, price: Pricing): seq<Row>
  {
    seq(|batch|, i requires 0 <= i < |batch| => Enrich(batch[i], price))
  }

  // ----------------------------------------------------------- event keys

  lemma {:induction false} DigitsShape(n: nat)
    ensures Digits(n) != "" && ':' !in Digits(n) && (|Digits(n)| == 1 <==> n < 10)
  {
    if n >= 10 {
      DigitsShape(n / 10);
    }
    assert forall i :: 0 <= i < 10 ==> "0123456789"[i] != ':';
  }

  lemma {:induction false} DigitsDiffer(m: nat, n: nat)
    requires Digits(m) == Digits(n)
    ensures m == n
  {
    var a, b := Digits(m), Digits(n);
    DigitsShape(m);
    DigitsShape(n);
    assert a[|a| - 1] == "0123456789"[m % 10] && b[|b| - 1] == "0123456789"[n % 10];
    assert m % 10 == n % 10;
    if m >= 10 {
      assert a[..|a| - 1] == Digits(m / 10) && b[..|b| - 1] == Digits(n / 10);
      DigitsDiffer(m / 10, n / 10);
    }
  }

  lemma LastColon(s: string, i: nat)
    requires i < |s| && s[i] == ':' && ':' !in s[i + 1..]
    ensures forall j :: i < j < |s| ==> s[j] != ':'
  {
    forall j | i < j < |s|
      ensures s[j] != ':'
    {
      assert s[j] == s[i + 1..][j - i - 1];
    }
  }

  /** The text key tells events apart exactly as the pair it is built from does,
      whatever characters a run id holds. */
  lemma KeysTellApart(a: Event, b: Event)
    ensures KeyOf(a) == KeyOf(b) <==> a.runId == b.runId && a.num == b.num
  {
    if KeyOf(a) == KeyOf(b) {
      DigitsShape(a.num);
      DigitsShape(b.num);
      var s := KeyOf(a);
      var i, j := |a.runId|, |b.runId|;
      assert s[i + 1..] == Digits(a.num) && s[j + 1..] == Digits(b.num);
      LastColon(s, i);
      LastColon(s, j);
      assert i == j;
      assert s[..i] == a.runId && s[..j] == b.runId;
      DigitsDiffer(a.num, b.num);
    }
  }

  // --------------------------------------------------------- what sinks hold

  /** Insert, ignoring a key already there. */
  function Insert(rows: map<string, Row>, r: Row): map<string, Row>
  {
    if r.key in rows then rows else rows[r.key := r]
  }

  function InsertAll(rows: map<string, Row>, rs: seq<Row>): map<string, Row>
  {
    if rs == [] then rows else Insert(InsertAll(rows, rs[..|rs| - 1]), rs[|rs| - 1])
  }

  ghost predicate InRaw(files: map<Ref, Batch>, e: Event)
  {
    exists ref :: ref in files && e in files[ref]
  }

  /** Equal keys mean equal events. */
  ghost predicate KeyedEvents(files: map<Ref, Batch>)
  {
    forall d, e :: InRaw(files, d) && InRaw(files, e) && KeyOf(d) == KeyOf(e) ==> d == e
  }

  /** Every row is some raw event's. */
  ghost predicate FromRaw(rows: map<string, Row>, files: map<Ref, Batch>, price: Pricing)
  {
    forall k :: k in rows ==> exists e :: InRaw(files, e) && k == KeyOf(e) && rows[k] == Enrich(e, price)
  }

  ghost predicate Landed(rows: map<string, Row>, batch: Batch)
  {
    forall e :: e in batch ==> KeyOf(e) in rows
  }

  /** The sink is what raw says: one row for every event key, the event's own. */
  ghost predicate Mirrors(rows: map<string, Row>, files: map<Ref, Batch>, price: Pricing)
  {
    FromRaw(rows, files, price) && forall ref :: ref in files ==> Landed(rows, files[ref])
  }

  /** Any two sinks that mirror one spool are the same table. */
  lemma OneMirror(a: map<string, Row>, b: map<string, Row>, files: map<Ref, Batch>, price: Pricing)
    requires KeyedEvents(files) && Mirrors(a, files, price) && Mirrors(b, files, price)
    ensures a == b
  {
    forall k | k in a
      ensures k in b && a[k] == b[k]
    {
      var e :| InRaw(files, e) && k == KeyOf(e) && a[k] == Enrich(e, price);
      var ref :| ref in files && e in files[ref];
      assert Landed(b, files[ref]);
      var d :| InRaw(files, d) && k == KeyOf(d) && b[k] == Enrich(d, price);
    }
    forall k | k in b
      ensures k in a
    {
      var e :| InRaw(files, e) && k == KeyOf(e);
      var ref :| ref in files && e in files[ref];
      assert Landed(a, files[ref]);
    }
  }

  lemma {:induction false} InsertedAll(rows: map<string, Row>, batch: Batch, price: Pricing, n: nat)
    requires n <= |batch|
    ensures rows.Keys <= InsertAll(rows, EnrichAll(batch, price)[..n]).Keys
    ensures forall k :: k in rows ==> InsertAll(rows, EnrichAll(batch, price)[..n])[k] == rows[k]
    ensures Landed(InsertAll(rows, EnrichAll(batch, price)[..n]), batch[..n])
    ensures forall k :: k in InsertAll(rows, EnrichAll(batch, price)[..n]) && k !in rows ==>
              exists e ::
                e in batch[..n] && k == KeyOf(e) && InsertAll(rows, EnrichAll(batch, price)[..n])[k] == Enrich(e, price)
  {
    if n > 0 {
      InsertedAll(rows, batch, price, n - 1);
      assert EnrichAll(batch, price)[..n][..n - 1] == EnrichAll(batch, price)[..n - 1];
      assert batch[..n] == batch[..n - 1] + [batch[n - 1]];
    }
  }

  // ------------------------------------------------------------ nothing is lost

  /** Nothing sent is lost: a reference is still queued or its rows have landed,
      and the sink holds nothing raw does not. */
  ghost predicate Safe(files: map<Ref, Batch>, queued: set<Ref>, sent: set<Ref>, rows: map<string, Row>, price: Pricing)
  {
    && queued <= sent <= files.Keys
    && (forall ref :: ref in sent && ref !in queued ==> Landed(rows, files[ref]))
    && FromRaw(rows, files, price)
  }

  lemma WriteKeepsSafe(files: map<Ref, Batch>, queued: set<Ref>, sent: set<Ref>, rows: map<string, Row>,
                       price: Pricing, ref: Ref, n: nat, rows': map<string, Row>)
    requires Safe(files, queued, sent, rows, price) && ref in files && n <= |files[ref]|
    requires rows' == InsertAll(rows, EnrichAll(files[ref], price)[..n])
    ensures Safe(files, queued, sent, rows', price) && rows.Keys <= rows'.Keys
    ensures n == |files[ref]| ==> Landed(rows', files[ref])
  {
    var batch := files[ref];
    InsertedAll(rows, batch, price, n);
    assert batch[..|batch|] == batch;
    forall k | k in rows'
      ensures exists e :: InRaw(files, e) && k == KeyOf(e) && rows'[k] == Enrich(e, price)
    {
      if k !in rows {
        var e :| e in batch[..n] && k == KeyOf(e) && rows'[k] == Enrich(e, price);
        assert InRaw(files, e);
      }
    }
  }

  lemma FileKeepsSafe(files: map<Ref, Batch>, more: map<Ref, Batch>, queued: set<Ref>, sent: set<Ref>,
                      rows: map<string, Row>, price: Pricing)
    requires Safe(files, queued, sent, rows, price)
    requires files.Keys <= more.Keys && forall r :: r in files ==> more[r] == files[r]
    ensures Safe(more, queued, sent, rows, price)
  {
    forall k | k in rows
      ensures exists e :: InRaw(more, e) && k == KeyOf(e) && rows[k] == Enrich(e, price)
    {
      var e :| InRaw(files, e) && k == KeyOf(e) && rows[k] == Enrich(e, price);
      var ref :| ref in files && e in files[ref];
      assert e in more[ref];
    }
  }

  lemma MapMinus<K, V>(m: map<K, V>, k: K)
    requires k in m
    ensures |m - {k}| == |m| - 1
  {
    assert (m - {k}).Keys == m.Keys - {k};
    MapSize(m);
    MapSize(m - {k});
  }

  lemma MapPlus<K, V>(m: map<K, V>, k: K, v: V)
    ensures |m[k := v]| == |m| + if k in m then 0 else 1
  {
    assert m[k := v].Keys == m.Keys + {k};
    MapSize(m);
    MapSize(m[k := v]);
  }

  lemma InsertSize(rows: map<string, Row>, r: Row)
    ensures |Insert(rows, r)| == |rows| + if Insert(rows, r) == rows then 0 else 1
  {
    MapPlus(rows, r.key, r);
    assert r.key in Insert(rows, r);
  }

  lemma {:induction false} MapSize<K, V>(m: map<K, V>)
    ensures |m| == |m.Keys|
  {
    if m != map[] {
      var k :| k in m;
      var rest := m - {k};
      MapSize(rest);
      assert rest.Keys == m.Keys - {k};
      assert m == rest[k := m[k]];
    }
  }

  /** Once every spooled batch was sent and the queue is empty, the sink is the one
      a rebuild from raw gives. */
  lemma SettledIsReplay(files: map<Ref, Batch>, rows: map<string, Row>, rebuilt: map<string, Row>, price: Pricing)
    requires Safe(files, {}, files.Keys, rows, price) && KeyedEvents(files) && Mirrors(rebuilt, files, price)
    ensures rows == rebuilt
  {
    OneMirror(rows, rebuilt, files, price);
  }
}
