/** Dispatch policy: bounded admission, probe-driven health, and the choice among
    backends. */
module Dispatch {
  import opened Messages

  datatype HealthState = Healthy | Degraded | Down

  datatype Probe = Ok | Slow | Fail

  const READMISSION_PROBES := 3

  datatype Health = Health(state: HealthState, streak: nat)

  function Rate(p: Probe): HealthState
  {
    if p.Ok? then Healthy else Degraded
  }

  /** One probe's effect. */
  function Observe(h: Health, p: Probe): Health
  {
    if p.Fail? then Health(Down, 0)
    else if h.state.Down? then
      if h.streak + 1 >= READMISSION_PROBES then Health(Rate(p), 0) else Health(Down, h.streak + 1)
    else h.(state := Rate(p))
  }

  function Probed(h: Health, ps: seq<Probe>): Health
  {
    if ps == [] then h else Observe(Probed(h, ps[..|ps| - 1]), ps[|ps| - 1])
  }

  predicate NoFailure(ps: seq<Probe>)
  {
    forall p :: p in ps ==> !p.Fail?
  }

  /** The last `n` probes passed. */
  predicate Passing(ps: seq<Probe>, n: nat)
  {
    n <= |ps| && NoFailure(ps[|ps| - n..])
  }

  lemma OneMorePass(ps: seq<Probe>, n: nat, p: Probe)
    requires Passing(ps, n) && !p.Fail?
    ensures Passing(ps + [p], n + 1) && (n > 0 ==> Passing(ps + [p], n))
  {
    assert (ps + [p])[|ps| - n..] == ps[|ps| - n..] + [p];
    if n > 0 {
      assert (ps + [p])[|ps| + 1 - n..] == ps[|ps| - n..][1..] + [p];
    }
  }

  /** What a history of probes says of the health it leads to. */
  predicate Earned(h: Health, ps: seq<Probe>)
  {
    && h.streak < READMISSION_PROBES && Passing(ps, h.streak)
    && (h.state.Down? ==> |ps| > h.streak && ps[|ps| - h.streak - 1].Fail?)
    && (!h.state.Down? ==> h.streak == 0 && (NoFailure(ps) || Passing(ps, READMISSION_PROBES)))
  }

  /** Readmission is earned: a backend that ever failed a probe is back only after
      three passes in a row, and a streak never outlives a failure. */
  lemma {:induction false} ReadmissionIsEarned(ps: seq<Probe>)
    ensures Earned(Probed(Health(Healthy, 0), ps), ps)
  {
    if ps != [] {
      var k := |ps| - 1;
      ReadmissionIsEarned(ps[..k]);
      assert ps == ps[..k] + [ps[k]];
      var g := Probed(Health(Healthy, 0), ps[..k]);
      if !ps[k].Fail? {
        OneMorePass(ps[..k], g.streak, ps[k]);
        if !g.state.Down? && !NoFailure(ps[..k]) {
          OneMorePass(ps[..k], READMISSION_PROBES, ps[k]);
        }
      }
    }
  }

  /** `soft`: failing lately; `measured`: a first-token latency has been seen. */
  datatype Standing = Standing(soft: bool, unhealthy: bool, measured: bool, latency: real)

  /** Tuples of booleans and a number, compared left to right; False sorts first. */
  predicate Before(a: Standing, b: Standing)
  {
    if a.soft != b.soft then b.soft
    else if a.unhealthy != b.unhealthy then b.unhealthy
    else if a.measured != b.measured then b.measured
    else a.latency < b.latency
  }

  /** What a choice among backends depends on. */
  datatype Looks = Looks(state: HealthState, standing: Standing)

  /** The index of the first best one among those not down. */
  function Pick(looks: seq<Looks>): (c: Option<nat>)
    ensures c.Some? ==> c.value < |looks| && !looks[c.value].state.Down?
  {
    if looks == [] then None
    else
      var k := |looks| - 1;
      var best := Pick(looks[..k]);
      if looks[k].state.Down? then best
      else if best.None? || Before(looks[k].standing, looks[best.value].standing) then Some(k)
      else best
  }

  /** None only if all are down; otherwise nobody is better, and whoever stands
      earlier is strictly worse. */
  lemma {:induction false} PickMeans(looks: seq<Looks>)
    ensures Pick(looks).None? <==> forall i :: 0 <= i < |looks| ==> looks[i].state.Down?
    ensures Pick(looks).Some? ==>
              var c := Pick(looks).value;
              && c < |looks| && !looks[c].state.Down?
              && (forall i :: 0 <= i < |looks| && !looks[i].state.Down? ==>
                    !Before(looks[i].standing, looks[c].standing))
              && (forall i :: 0 <= i < c && !looks[i].state.Down? ==> Before(looks[c].standing, looks[i].standing))
  {
    if looks != [] {
      var k := |looks| - 1;
      PickMeans(looks[..k]);
      assert forall i :: 0 <= i < k ==> looks[..k][i] == looks[i];
    }
  }

  class Backend {
    const name: string
    const queueMax: nat
    var inFlight: nat
    var health: Health
    var standing: Standing

    constructor (name: string, queueMax: nat)
      ensures this.name == name && this.queueMax == queueMax && inFlight == 0 && health == Health(Healthy, 0)
    {
      this.name, this.queueMax, inFlight, health := name, queueMax, 0, Health(Healthy, 0);
      standing := Standing(false, false, false, 0.0);
    }

    /** Admit one request, or refuse it when the queue is full. */
    method Admit() returns (ok: bool)
      modifies this`inFlight
      ensures ok <==> old(inFlight) < queueMax
      ensures inFlight == if ok then old(inFlight) + 1 else old(inFlight)
    {
      if inFlight >= queueMax {
        return false;
      }
      inFlight := inFlight + 1;
      ok := true;
    }

    method Release()
      modifies this`inFlight
      ensures inFlight == if old(inFlight) > 0 then old(inFlight) - 1 else 0
    {
      inFlight := if inFlight > 0 then inFlight - 1 else 0;
    }

    /** An outcome enters the error window; its rate may now deprioritise. */
    method ObserveOutcome(ok: bool)
      modifies this`standing
    {
      var failing := *;
      standing := standing.(soft := failing);
    }

    /** What probes and the outcomes of other requests made of it meanwhile. */
    method Turn(looks: Looks)
      modifies this`health, this`standing
      ensures Looks(health.state, standing) == looks
    {
      health, standing := health.(state := looks.state), looks.standing;
    }

    method Probe(p: Probe)
      modifies this`health
      ensures health == Observe(old(health), p)
    {
      if p.Fail? {
        health := Health(Down, 0);
      } else if health.state.Down? {
        health := health.(streak := health.streak + 1);
        if health.streak >= READMISSION_PROBES {
          health := Health(Rate(p), 0);
        }
      } else {
        health := health.(state := Rate(p));
      }
    }
  }

  function LooksOf(backends: seq<Backend>): seq<Looks>
    reads backends
  {
    seq(|backends|,
        i requires 0 <= i < |backends| reads backends => Looks(backends[i].health.state, backends[i].standing))
  }

  /** The first of the best standing among the backends that are not down. */
  function Choose(backends: seq<Backend>): (c: Option<nat>)
    reads backends
    ensures c.Some? ==> c.value < |backends| && !backends[c.value].health.state.Down?
  {
    Pick(LooksOf(backends))
  }
}
