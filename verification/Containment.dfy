/** Failure containment inside one consumer pass: retry, split, dead-letter.
    Here the apply function fails exactly on batches that hold a poison entry,
    and an outage of the store lasts finitely long. */
module Containment {
  import opened Messages
  import opened HotGraph
  import opened Ingest
  import opened Consumer

  // -------------------------------------------------- order-preserving algebra

  lemma {:induction false} FoldConcat(g: Graph, a: seq<Message>, b: seq<Message>)
    ensures Fold(g, a + b) == Fold(Fold(g, a), b)
  {
    if b == [] {
      assert a + b == a;
    } else {
      var k := |b| - 1;
      assert (a + b)[..|a + b| - 1] == a + b[..k];
      FoldConcat(g, a, b[..k]);
    }
  }

  lemma {:induction false} FoldSameView(g: Graph, h: Graph, ms: seq<Message>)
    requires WellFormed(g) && WellFormed(h) && SameView(g, h)
    ensures SameView(Fold(g, ms), Fold(h, ms))
  {
    if ms != [] {
      var k := |ms| - 1;
      var m := ms[k];
      FoldSameView(g, h, ms[..k]);
      FoldWellFormed(g, ms[..k]);
      FoldWellFormed(h, ms[..k]);
      StepSameView(Fold(g, ms[..k]), Fold(h, ms[..k]), m);
    }
  }

  lemma StepSameView(g: Graph, h: Graph, m: Message)
    requires WellFormed(g) && WellFormed(h) && SameView(g, h)
    ensures SameView(Step(g, m), Step(h, m))
  {
    SameWatermark(g, h, m.id);
    var w := map[m.id := m];
    if Fresh(g, m) {
      forall id
        ensures Known(Write(g, w), id) <==> Known(Write(h, w), id)
        ensures Known(Write(g, w), id) ==> Write(g, w).nodes[id] == Write(h, w).nodes[id]
      {
        assert Known(g, id) <==> Known(h, id);
      }
      forall e
        ensures e in Write(g, w).edges <==> e in Write(h, w).edges
      {
        WriteEdge(g, w, e);
        WriteEdge(h, w, e);
      }
    }
  }

  lemma {:induction false} FilterConcat(a: seq<nat>, b: seq<nat>, keep: nat -> bool)
    ensures Filter(a + b, keep) == Filter(a, keep) + Filter(b, keep)
  {
    if a == [] {
      assert a + b == b;
    } else {
      assert (a + b)[1..] == a[1..] + b;
      FilterConcat(a[1..], b, keep);
    }
  }

  lemma {:induction false} MsgsConcat(stream: seq<Option<Message>>, a: seq<nat>, b: seq<nat>)
    ensures MsgsAt(stream, a + b) == MsgsAt(stream, a) + MsgsAt(stream, b)
  {
    if a == [] {
      assert a + b == b;
    } else {
      assert (a + b)[1..] == a[1..] + b;
      MsgsConcat(stream, a[1..], b);
    }
  }

  function KeySet(ks: seq<nat>): set<nat>
  {
    set k | k in ks
  }

  lemma KeySetConcat(a: seq<nat>, b: seq<nat>)
    ensures KeySet(a + b) == KeySet(a) + KeySet(b)
  {
  }

  function Poisoned(ks: seq<nat>, poison: set<nat>): seq<nat>
  {
    if ks == [] then []
    else
      var rest := Poisoned(ks[1..], poison);
      if ks[0] in poison then [ks[0]] + rest else rest
  }

  function Sound(ks: seq<nat>, poison: set<nat>): seq<nat>
  {
    if ks == [] then []
    else
      var rest := Sound(ks[1..], poison);
      if ks[0] in poison then rest else [ks[0]] + rest
  }

  lemma Regroup(a: seq<nat>, b: seq<nat>, c: seq<nat>)
    ensures (a + b) + c == a + (b + c)
  {
  }

  lemma RegroupSets(a: set<nat>, b: set<nat>, c: set<nat>)
    ensures (a + b) + c == a + (b + c)
  {
  }

  lemma {:induction false} PartsConcat(a: seq<nat>, b: seq<nat>, poison: set<nat>)
    ensures Poisoned(a + b, poison) == Poisoned(a, poison) + Poisoned(b, poison)
    ensures Sound(a + b, poison) == Sound(a, poison) + Sound(b, poison)
  {
    if a == [] {
      assert a + b == b;
    } else {
      assert (a + b)[1..] == a[1..] + b && (a + b)[0] == a[0];
      PartsConcat(a[1..], b, poison);
      Regroup([a[0]], Poisoned(a[1..], poison), Poisoned(b, poison));
      Regroup([a[0]], Sound(a[1..], poison), Sound(b, poison));
    }
  }

  lemma Halves(ks: seq<nat>, poison: set<nat>, mid: nat)
    requires mid <= |ks|
    ensures Poisoned(ks, poison) == Poisoned(ks[..mid], poison) + Poisoned(ks[mid..], poison)
    ensures Sound(ks, poison) == Sound(ks[..mid], poison) + Sound(ks[mid..], poison)
  {
    assert ks[..mid] + ks[mid..] == ks;
    PartsConcat(ks[..mid], ks[mid..], poison);
  }

  lemma {:induction false} AllSound(ks: seq<nat>, poison: set<nat>)
    ensures |Sound(ks, poison)| + |Poisoned(ks, poison)| == |ks|
    ensures Poisoned(ks, poison) == [] ==> Sound(ks, poison) == ks
  {
    if ks != [] {
      AllSound(ks[1..], poison);
    }
  }

  /** Poison and sound entries part the batch. */
  lemma {:induction false} Parted(ks: seq<nat>, poison: set<nat>, k: nat)
    ensures k in Poisoned(ks, poison) <==> k in ks && k in poison
    ensures k in Sound(ks, poison) <==> k in ks && k !in poison
  {
    if ks != [] {
      Parted(ks[1..], poison, k);
    }
  }

  function Readable(stream: seq<Option<Message>>, ks: seq<nat>): (r: seq<nat>)
    ensures forall k :: k in r <==> k in ks && EntryAt(stream, k).Some?
  {
    Filter(ks, (k: nat) => EntryAt(stream, k).Some?)
  }

  function Kept(ks: seq<nat>, deliveries: map<nat, nat>, cap: nat): (r: seq<nat>)
    ensures forall k :: k in r <==> k in ks && Deliveries(deliveries, k) <= cap
  {
    Filter(ks, (k: nat) => Deliveries(deliveries, k) <= cap)
  }

  function Over(ks: seq<nat>, deliveries: map<nat, nat>, cap: nat): (r: seq<nat>)
    ensures forall k :: k in r <==> k in ks && Deliveries(deliveries, k) > cap
  {
    Filter(ks, (k: nat) => Deliveries(deliveries, k) > cap)
  }

  lemma ReadableExtend(stream: seq<Option<Message>>, ks: seq<nat>, k: nat)
    ensures Readable(stream, ks + [k]) == Readable(stream, ks) + if EntryAt(stream, k).Some? then [k] else []
  {
    FilterConcat(ks, [k], (k: nat) => EntryAt(stream, k).Some?);
  }

  lemma KeptExtend(ks: seq<nat>, deliveries: map<nat, nat>, cap: nat, k: nat)
    ensures Kept(ks + [k], deliveries, cap) ==
            Kept(ks, deliveries, cap) + if Deliveries(deliveries, k) <= cap then [k] else []
    ensures Over(ks + [k], deliveries, cap) ==
            Over(ks, deliveries, cap) + if Deliveries(deliveries, k) > cap then [k] else []
  {
    FilterConcat(ks, [k], (k: nat) => Deliveries(deliveries, k) <= cap);
    FilterConcat(ks, [k], (k: nat) => Deliveries(deliveries, k) > cap);
  }

  lemma BatchFolds(g: Graph, ms: seq<Message>)
    requires WellFormed(g)
    ensures WellFormed(BatchStep(g, ms)) && SameView(BatchStep(g, ms), Fold(g, ms))
  {
    BatchIsFold(g, ms);
    BestKeyed(ms);
    WriteWellFormed(g, Winners(g, ms));
  }

  // ------------------------------------------------------------- call bound

  function CeilLog2(n: nat): nat
  {
    if n <= 1 then 0 else 1 + CeilLog2((n + 1) / 2)
  }

  function Pow2(n: nat): nat
  {
    if n == 0 then 1 else 2 * Pow2(n - 1)
  }

  lemma {:induction false} CeilLog2Meaning(n: nat)
    requires n >= 1
    ensures n <= Pow2(CeilLog2(n)) && (n > 1 ==> Pow2(CeilLog2(n) - 1) < n)
  {
    if n > 1 {
      CeilLog2Meaning((n + 1) / 2);
    }
  }

  lemma {:induction false} CeilLog2Monotone(m: nat, n: nat)
    requires m <= n
    ensures CeilLog2(m) <= CeilLog2(n)
  {
    if m > 1 {
      CeilLog2Monotone((m + 1) / 2, (n + 1) / 2);
    }
  }

  /** Apply calls that reach the store, for one (sub-)batch. */
  function Calls(ks: seq<nat>, poison: set<nat>, retries: nat): nat
    decreases |ks|
  {
    if ks == [] then 0
    else if Poisoned(ks, poison) == [] then 1
    else if |ks| == 1 then retries + 1
    else retries + 1 + Calls(ks[..|ks| / 2], poison, 0) + Calls(ks[|ks| / 2..], poison, 0)
  }

  /** 2 · p · c, by recursion on the number of levels. */
  function Cost(p: nat, c: nat): nat
  {
    if c == 0 then 0 else 2 * p + Cost(p, c - 1)
  }

  lemma {:induction false} CostIs(p: nat, c: nat)
    ensures Cost(p, c) == 2 * p * c
  {
    if c > 0 {
      CostIs(p, c - 1);
    }
  }

  lemma {:induction false} CostAdds(p: nat, q: nat, c: nat)
    ensures Cost(p, c) + Cost(q, c) == Cost(p + q, c)
  {
    if c > 0 {
      CostAdds(p, q, c - 1);
    }
  }

  lemma {:induction false} CostGrows(p: nat, c: nat, d: nat)
    requires c <= d
    ensures Cost(p, c) <= Cost(p, d)
  {
    if c < d {
      CostGrows(p, c, d - 1);
    }
  }

  lemma TwoHalves(x: nat, y: nat, p: nat, q: nat, c: nat)
    requires x <= 1 + Cost(p, c) && y <= 1 + Cost(q, c) && p + q >= 1
    ensures x + y <= Cost(p + q, c + 1)
  {
    CostAdds(p, q, c);
  }

  /** Isolating `p` poison entries among `n` costs at most two extra calls per
      entry and level of halving, on top of the retry ladder. */
  lemma {:induction false} LadderBound(ks: seq<nat>, poison: set<nat>, retries: nat)
    requires Poisoned(ks, poison) != []
    ensures Calls(ks, poison, retries) <= retries + 1 + Cost(|Poisoned(ks, poison)|, CeilLog2(|ks|))
    decreases |ks|, 1
  {
    if |ks| > 1 {
      var mid := |ks| / 2;
      Middle(|ks|);
      Halves(ks, poison, mid);
      PartsBound(ks[..mid], ks[mid..], poison);
    }
  }

  lemma Middle(n: nat)
    requires n > 1
    ensures 0 < n / 2 <= n - n / 2 < n && CeilLog2(n) == 1 + CeilLog2(n - n / 2)
  {
    assert n - n / 2 == (n + 1) / 2;
  }

  lemma {:induction false} PartsBound(left: seq<nat>, right: seq<nat>, poison: set<nat>)
    requires 0 < |left| <= |right| && |Poisoned(left, poison)| + |Poisoned(right, poison)| > 0
    ensures Calls(left, poison, 0) + Calls(right, poison, 0)
            <= Cost(|Poisoned(left, poison)| + |Poisoned(right, poison)|, CeilLog2(|right|) + 1)
    decreases |left| + |right|, 0
  {
    var c := CeilLog2(|right|);
    CeilLog2Monotone(|left|, |right|);
    var p := HalfBound(left, poison, c);
    var q := HalfBound(right, poison, c);
    TwoHalves(Calls(left, poison, 0), Calls(right, poison, 0), p, q, c);
  }

  lemma {:induction false} HalfBound(half: seq<nat>, poison: set<nat>, c: nat) returns (p: nat)
    requires 0 < |half| && CeilLog2(|half|) <= c
    ensures p == |Poisoned(half, poison)|
    ensures Calls(half, poison, 0) <= 1 + Cost(p, c)
    decreases |half|, 2
  {
    p := |Poisoned(half, poison)|;
    if p > 0 {
      LadderBound(half, poison, 0);
      CostGrows(p, CeilLog2(|half|), c);
    }
  }

  lemma CallBound(ks: seq<nat>, poison: set<nat>, retries: nat)
    requires Poisoned(ks, poison) != []
    ensures Calls(ks, poison, retries) <= retries + 1 + 2 * |Poisoned(ks, poison)| * CeilLog2(|ks|)
  {
    LadderBound(ks, poison, retries);
    CostIs(|Poisoned(ks, poison)|, CeilLog2(|ks|));
  }

  // ------------------------------------------------------------- the consumer

  class StreamConsumer {
    const stream: seq<Option<Message>>
    const poison: set<nat>
    const maxRetries: nat
    const maxDeliveries: nat
    var graph: Graph
    var acked: set<nat>
    var dlq: seq<nat>
    var calls: nat        // apply calls the store answered, by success or failure
    var outages: nat      // connection failures still to come, before or after a commit
    var read: nat
    var applied: nat
    var skipped: nat
    var invalid: nat
    var deadLettered: nat

    constructor (stream: seq<Option<Message>>, poison: set<nat>, maxRetries: nat, maxDeliveries: nat, graph: Graph,
                 outages: nat)
      ensures this.stream == stream && this.poison == poison && this.graph == graph && this.outages == outages
      ensures this.maxRetries == maxRetries && this.maxDeliveries == maxDeliveries
      ensures acked == {} && dlq == [] && calls == read == applied == skipped == invalid == deadLettered == 0
    {
      this.stream, this.poison, this.graph, this.outages := stream, poison, graph, outages;
      this.maxRetries, this.maxDeliveries := maxRetries, maxDeliveries;
      acked, dlq := {}, [];
      calls, read, applied, skipped, invalid, deadLettered := 0, 0, 0, 0, 0, 0;
    }

    /** One call of the apply function. */
    method CallApply(ks: seq<nat>) returns (o: Outcome, a: nat, k: nat)
      modifies this`graph, this`calls, this`outages
      ensures !o.LateFail?
      ensures if Out(o) then outages < old(outages) && calls == old(calls)
              else outages == old(outages) && calls == old(calls) + 1
      ensures (o.Ok? || o.LateOutage? ==> Poisoned(ks, poison) == []) && (o.Fail? ==> Poisoned(ks, poison) != [])
      ensures graph == if o.Ok? || o.LateOutage? then BatchStep(old(graph), MsgsAt(stream, ks)) else old(graph)
      ensures o.Ok? ==> a + k == |MsgsAt(stream, ks)|
    {
      a, k := 0, 0;
      var ms := MsgsAt(stream, ks);
      if outages > 0 {
        if * {
          outages := outages - 1;
          return Outage, 0, 0;
        }
        var late := *;
        if late && Poisoned(ks, poison) == [] {
          outages := outages - 1;
          graph := BatchStep(graph, ms);
          return LateOutage, 0, 0;
        }
      }
      calls := calls + 1;
      if Poisoned(ks, poison) != [] {
        return Fail, 0, 0;
      }
      BestFits(ms);
      MapSizes(Winners(graph, ms), Best(ms));
      o, a, k := Ok, |Winners(graph, ms)|, |ms| - |Winners(graph, ms)|;
      graph := BatchStep(graph, ms);
    }

    method DeadLetter(k: nat)
      modifies this`dlq, this`acked, this`deadLettered
      ensures dlq == old(dlq) + [k] && acked == old(acked) + {k} && deadLettered == old(deadLettered) + 1
    {
      dlq := dlq + [k];
      acked := acked + {k};
      deadLettered := deadLettered + 1;
    }

    /** Apply a batch as it is, with its retries; outages never use one up. */
    method Attempt(ks: seq<nat>, retries: nat) returns (ok: bool)
      requires WellFormed(graph) && ks != [] && forall k :: k in ks ==> EntryAt(stream, k).Some?
      modifies this`graph, this`acked, this`calls, this`outages, this`applied, this`skipped
      ensures ok <==> Poisoned(ks, poison) == []
      ensures !ok ==> graph == old(graph) && acked == old(acked) && applied == old(applied) && skipped == old(skipped)
      ensures calls == old(calls) + if ok then 1 else retries + 1
      ensures ok ==> graph == BatchStep(old(graph), MsgsAt(stream, ks)) && acked == old(acked) + KeySet(ks)
      ensures ok ==> applied + skipped == old(applied + skipped) + |ks|
    {
      var attempt := 0;
      while true
        invariant attempt <= retries && (attempt > 0 ==> Poisoned(ks, poison) != [])
        invariant || graph == old(graph)
                  || (Poisoned(ks, poison) == [] && graph == BatchStep(old(graph), MsgsAt(stream, ks)))
        invariant acked == old(acked) && calls == old(calls) + attempt
        invariant applied == old(applied) && skipped == old(skipped)
        decreases retries - attempt, outages
      {
        BatchTwice(old(graph), MsgsAt(stream, ks));
        var o, a, k := CallApply(ks);
        match o {
          case Outage => continue;
          case LateOutage => continue;
          case Fail =>
            attempt := attempt + 1;
            if attempt > retries {
              return false;
            }
          case Ok =>
            applied, skipped := applied + a, skipped + k;
            acked := acked + KeySet(ks);
            MsgsSize(stream, ks);
            return true;
        }
      }
    }

    /** Exactly the poison entries are dead-lettered, exactly the others applied,
        both in stream order; everything is acknowledged. */
    method ApplyEntries(ks: seq<nat>, retries: nat)
      requires WellFormed(graph) && forall k :: k in ks ==> EntryAt(stream, k).Some?
      modifies this`graph, this`acked, this`dlq, this`calls, this`outages, this`applied, this`skipped, this`deadLettered
      ensures dlq == old(dlq) + Poisoned(ks, poison)
      ensures acked == old(acked) + KeySet(ks)
      ensures WellFormed(graph) && SameView(graph, Fold(old(graph), MsgsAt(stream, Sound(ks, poison))))
      ensures calls == old(calls) + Calls(ks, poison, retries)
      ensures deadLettered == old(deadLettered) + |Poisoned(ks, poison)|
      ensures applied + skipped == old(applied + skipped) + |Sound(ks, poison)|
      decreases |ks|
    {
      if ks == [] {
        return;
      }
      var ok := Attempt(ks, retries);
      if ok {
        AllSound(ks, poison);
        BatchFolds(old(graph), MsgsAt(stream, ks));
        return;
      }
      if |ks| == 1 {
        OnlyPoison(ks, poison);
        DeadLetter(ks[0]);
        return;
      }
      var left, right := ks[..|ks| / 2], ks[|ks| / 2..];
      assert left + right == ks;
      KeySetConcat(left, right);
      Halves(ks, poison, |ks| / 2);
      ApplyEntries(left, 0);
      ghost var g := graph;
      ApplyEntries(right, 0);
      FoldTwice(stream, old(graph), g, graph, Sound(left, poison), Sound(right, poison));
      RegroupSets(old(acked), KeySet(left), KeySet(right));
      Regroup(old(dlq), Poisoned(left, poison), Poisoned(right, poison));
    }

    method AckInvalid(ks: seq<nat>) returns (pairs: seq<nat>)
      modifies this`acked, this`read, this`invalid
      ensures pairs == Readable(stream, ks) && KeySet(pairs) <= KeySet(ks)
      ensures forall k :: k in pairs ==> EntryAt(stream, k).Some?
      ensures acked == old(acked) + (KeySet(ks) - KeySet(pairs))
      ensures read == old(read) + |ks| && invalid == old(invalid) + |ks| - |pairs|
    {
      pairs := [];
      var bad: seq<nat> := [];
      for i := 0 to |ks|
        invariant pairs == Readable(stream, ks[..i])
        invariant forall k :: k in bad <==> k in ks[..i] && EntryAt(stream, k).None?
        invariant acked == old(acked) && read == old(read) + i && invalid == old(invalid) + i - |pairs|
      {
        read := read + 1;
        assert ks[..i + 1] == ks[..i] + [ks[i]];
        ReadableExtend(stream, ks[..i], ks[i]);
        if EntryAt(stream, ks[i]).Some? {
          pairs := pairs + [ks[i]];
        } else {
          invalid := invalid + 1;
          bad := bad + [ks[i]];
        }
      }
      assert ks[..|ks|] == ks;
      acked := acked + KeySet(bad);
    }

    method Quarantine(ks: seq<nat>, deliveries: map<nat, nat>) returns (kept: seq<nat>)
      modifies this`dlq, this`acked, this`deadLettered
      ensures kept == Kept(ks, deliveries, maxDeliveries)
      ensures dlq == old(dlq) + Over(ks, deliveries, maxDeliveries)
      ensures acked == old(acked) + KeySet(Over(ks, deliveries, maxDeliveries))
      ensures deadLettered == old(deadLettered) + |ks| - |kept|
    {
      var cap := maxDeliveries;
      kept := [];
      ghost var over: seq<nat> := [];
      for i := 0 to |ks|
        invariant kept == Kept(ks[..i], deliveries, cap) && over == Over(ks[..i], deliveries, cap)
        invariant dlq == old(dlq) + over && acked == old(acked) + KeySet(over)
        invariant deadLettered == old(deadLettered) + i - |kept|
      {
        assert ks[..i + 1] == ks[..i] + [ks[i]];
        KeptExtend(ks[..i], deliveries, cap, ks[i]);
        if Deliveries(deliveries, ks[i]) > cap {
          KeySetConcat(over, [ks[i]]);
          assert KeySet([ks[i]]) == {ks[i]};
          over := over + [ks[i]];
          DeadLetter(ks[i]);
        } else {
          kept := kept + [ks[i]];
        }
      }
      assert ks[..|ks|] == ks;
    }

    /** Parse, and on a pending drain screen: what is left reaches the apply. */
    method Screen(ks: seq<nat>, pending: bool, deliveries: map<nat, nat>) returns (pairs: seq<nat>)
      modifies this`dlq, this`acked, this`deadLettered, this`read, this`invalid
      ensures pairs == InPlay(ks, pending, deliveries) && KeySet(pairs) <= KeySet(ks)
      ensures forall k :: k in pairs ==> EntryAt(stream, k).Some?
      ensures acked == old(acked) + (KeySet(ks) - KeySet(pairs))
      ensures dlq == old(dlq) + if pending then Over(Readable(stream, ks), deliveries, maxDeliveries) else []
      ensures read == old(read) + |ks|
      ensures invalid + deadLettered == old(invalid + deadLettered) + |ks| - |pairs|
    {
      pairs := AckInvalid(ks);
      KeptAndOver(pairs, deliveries, maxDeliveries);
      if pending && pairs != [] {
        pairs := Quarantine(pairs, deliveries);
      }
    }

    /** A whole batch as read: every entry of it ends acknowledged, and each was
        found invalid, quarantined, isolated as poison, or applied. */
    method ApplyBatch(ks: seq<nat>, pending: bool, deliveries: map<nat, nat>)
      requires WellFormed(graph)
      modifies this
      ensures acked == old(acked) + KeySet(ks)
      ensures WellFormed(graph)
      ensures SameView(graph, Fold(old(graph), MsgsAt(stream, Sound(InPlay(ks, pending, deliveries), poison))))
      ensures dlq == old(dlq) + (if pending then Over(Readable(stream, ks), deliveries, maxDeliveries) else [])
                     + Poisoned(InPlay(ks, pending, deliveries), poison)
      ensures read == old(read) + |ks|
      ensures applied + skipped + invalid + deadLettered == old(applied + skipped + invalid + deadLettered) + |ks|
      ensures calls == old(calls) + Calls(InPlay(ks, pending, deliveries), poison, maxRetries)
    {
      var pairs := Screen(ks, pending, deliveries);
      AllSound(pairs, poison);
      ApplyEntries(pairs, maxRetries);
    }

    /** The entries that reach the apply function. */
    function InPlay(ks: seq<nat>, pending: bool, deliveries: map<nat, nat>): seq<nat>
    {
      if pending then Kept(Readable(stream, ks), deliveries, maxDeliveries) else Readable(stream, ks)
    }
  }

  lemma WriteNothing(g: Graph)
    ensures Write(g, map[]) == g
  {
    var h := Write(g, map[]);
    assert h.nodes == g.nodes;
    assert h.edges == g.edges;
  }

  lemma NoWinnersAgain(g: Graph, ms: seq<Message>)
    ensures Winners(BatchStep(g, ms), ms) == map[]
  {
    forall id | id in Best(ms)
      ensures id !in Winners(BatchStep(g, ms), ms)
    {
      WrittenWatermark(g, ms, id);
    }
  }

  /** Applying a batch again changes nothing: a lost reply costs no more than a retry. */
  lemma BatchTwice(g: Graph, ms: seq<Message>)
    ensures BatchStep(BatchStep(g, ms), ms) == BatchStep(g, ms)
  {
    NoWinnersAgain(g, ms);
    WriteNothing(BatchStep(g, ms));
  }

  lemma KeptAndOver(ks: seq<nat>, deliveries: map<nat, nat>, cap: nat)
    ensures KeySet(Over(ks, deliveries, cap)) == KeySet(ks) - KeySet(Kept(ks, deliveries, cap))
    ensures KeySet(Kept(ks, deliveries, cap)) <= KeySet(ks)
    ensures ks == [] ==> Kept(ks, deliveries, cap) == [] && Over(ks, deliveries, cap) == []
  {
  }

  lemma OnlyPoison(ks: seq<nat>, poison: set<nat>)
    requires |ks| == 1 && Poisoned(ks, poison) != []
    ensures Poisoned(ks, poison) == ks && Sound(ks, poison) == []
  {
    assert ks[1..] == [];
    assert ks == [ks[0]];
  }

  lemma {:induction false} MsgsSize(stream: seq<Option<Message>>, ks: seq<nat>)
    requires forall k :: k in ks ==> EntryAt(stream, k).Some?
    ensures |MsgsAt(stream, ks)| == |ks|
  {
    if ks != [] {
      MsgsSize(stream, ks[1..]);
    }
  }

  lemma FoldTwice(stream: seq<Option<Message>>, g: Graph, h: Graph, f: Graph, a: seq<nat>, b: seq<nat>)
    requires WellFormed(g) && WellFormed(h) && SameView(h, Fold(g, MsgsAt(stream, a)))
    requires SameView(f, Fold(h, MsgsAt(stream, b)))
    ensures SameView(f, Fold(g, MsgsAt(stream, a + b)))
  {
    MsgsConcat(stream, a, b);
    FoldConcat(g, MsgsAt(stream, a), MsgsAt(stream, b));
    FoldWellFormed(g, MsgsAt(stream, a));
    FoldSameView(h, Fold(g, MsgsAt(stream, a)), MsgsAt(stream, b));
    ViewTransitive(f, Fold(h, MsgsAt(stream, b)), Fold(g, MsgsAt(stream, a + b)));
  }

  lemma ViewTransitive(f: Graph, g: Graph, h: Graph)
    requires SameView(f, g) && SameView(g, h)
    ensures SameView(f, h)
  {
    assert forall id :: Known(f, id) <==> Known(g, id);
  }
}
