/** dispatch/pricing_client.py: the circuit breaker, against the history of what was reported to it. */
module CircuitBreaking {
  /** The three fields behind the breaker's lock. */
  datatype Fields = Fields(failures: int, openedAt: real, probing: bool)

  /** One call under the lock, with the clock it reads. */
  datatype Event = Allow(now: real) | Success | Failure(now: real)

  datatype Grant = Closed | Refused | Probe

  datatype Config = Config(threshold: int, cooldown: real)

  const FRESH := Fields(0, 0.0, false)

  /** What `allow` answers. */
  function Answer(cfg: Config, f: Fields, now: real): Grant {
    if f.failures < cfg.threshold then Closed
    else if now - f.openedAt < cfg.cooldown then Refused
    else if f.probing then Refused
    else Probe
  }

  function Apply(cfg: Config, f: Fields, e: Event): Fields {
    match e
    case Allow(now) => if Answer(cfg, f, now) == Probe then f.(probing := true) else f
    case Success => f.(failures := 0, probing := false)
    case Failure(now) =>
      Fields(f.failures + 1, if f.failures + 1 == cfg.threshold then now else f.openedAt, false)
  }

  function Run(cfg: Config, es: seq<Event>): Fields {
    if es == [] then FRESH else Apply(cfg, Run(cfg, es[..|es| - 1]), es[|es| - 1])
  }

  class CircuitBreaker {
    const cfg: Config
    var failures: int
    var openedAt: real
    var probing: bool

    function State(): Fields
      reads this
    {
      Fields(failures, openedAt, probing)
    }

    constructor (cfg: Config)
      ensures State() == FRESH && this.cfg == cfg
    {
      this.cfg := cfg;
      failures, openedAt, probing := 0, 0.0, false;
    }

    method TryAllow(now: real) returns (ok: bool)
      modifies this
      ensures ok <==> Answer(cfg, old(State()), now) != Refused
      ensures State() == Apply(cfg, old(State()), Allow(now))
    {
      if failures < cfg.threshold {
        return true;
      }
      var elapsed := now - openedAt;
      if elapsed < cfg.cooldown {
        return false;
      }
      if probing {
        return false;
      }
      probing := true;
      return true;
    }

    method OnSuccess()
      modifies this
      ensures State() == Apply(cfg, old(State()), Success)
    {
      failures := 0;
      probing := false;
    }

    method OnFailure(now: real)
      modifies this
      ensures State() == Apply(cfg, old(State()), Failure(now))
    {
      failures := failures + 1;
      probing := false;
      if failures == cfg.threshold {
        openedAt := now;
      }
    }
  }

  // ---- the history the fields stand for ----------------------------------------------------

  /** The outcomes reported, in order. */
  function Reports(es: seq<Event>): seq<Event> {
    if es == [] then []
    else Reports(es[..|es| - 1]) + if es[|es| - 1].Allow? then [] else [es[|es| - 1]]
  }

  /** The last n outcomes, and no more, are failures. */
  predicate TrailingRun(rs: seq<Event>, n: int) {
    && 0 <= n <= |rs|
    && (forall i | |rs| - n <= i < |rs| :: rs[i].Failure?)
    && (n < |rs| ==> !rs[|rs| - n - 1].Failure?)
  }

  lemma TrailingRunUnique(rs: seq<Event>, m: int, n: int)
    requires TrailingRun(rs, m) && TrailingRun(rs, n)
    ensures m == n
  {
  }

  /** Call i was granted as the probe. */
  ghost predicate ProbeAt(cfg: Config, es: seq<Event>, i: int) {
    0 <= i < |es| && es[i].Allow? && Answer(cfg, Run(cfg, es[..i]), es[i].now) == Probe
  }

  /** A probe was granted and nothing was reported since. */
  ghost predicate ProbeOut(cfg: Config, es: seq<Event>) {
    exists i :: ProbeAt(cfg, es, i) && forall k | i < k < |es| :: es[k].Allow?
  }

  /**
   * Whatever threads interleave: the counter is the length of the trailing failure run, the stamp is
   * the moment of that run's threshold-th failure, the flag says that a probe is out.
   */
  lemma {:induction false} FieldsAreHistory(cfg: Config, es: seq<Event>)
    requires cfg.threshold >= 1
    ensures var f, rs := Run(cfg, es), Reports(es);
            && TrailingRun(rs, f.failures)
            && (f.failures >= cfg.threshold ==>
                  var k := |rs| - f.failures + cfg.threshold - 1; rs[k].Failure? && f.openedAt == rs[k].now)
            && (f.probing <==> ProbeOut(cfg, es))
  {
    if es != [] {
      var before, e := es[..|es| - 1], es[|es| - 1];
      FieldsAreHistory(cfg, before);
      ProbeOutStep(cfg, es);
      var rs, rs' := Reports(before), Reports(es);
      if e.Failure? {
        assert rs' == rs + [e];
        assert forall i | 0 <= i < |rs| :: rs'[i] == rs[i];
      }
    }
  }

  /** How one call changes whether a probe is out. */
  lemma ProbeOutStep(cfg: Config, es: seq<Event>)
    requires es != []
    ensures ProbeOut(cfg, es) <==>
              && es[|es| - 1].Allow?
              && (ProbeOut(cfg, es[..|es| - 1]) || ProbeAt(cfg, es, |es| - 1))
  {
    var n := |es| - 1;
    var before := es[..n];
    forall i | 0 <= i < n
      ensures ProbeAt(cfg, before, i) == ProbeAt(cfg, es, i)
    {
      assert before[..i] == es[..i];
    }
    if ProbeOut(cfg, es) {
      var i :| ProbeAt(cfg, es, i) && forall k | i < k < |es| :: es[k].Allow?;
      assert i < n ==> ProbeAt(cfg, before, i);
    }
    if es[n].Allow? && ProbeOut(cfg, before) {
      var i :| ProbeAt(cfg, before, i) && forall k | i < k < |before| :: before[k].Allow?;
      assert ProbeAt(cfg, es, i);
      forall k | i < k < |es|
        ensures es[k].Allow?
      {
        assert k < n ==> before[k] == es[k];
      }
    }
  }

  /** Between two probes somebody reported an outcome. */
  lemma ProbesAreSeparated(cfg: Config, es: seq<Event>, i: int, j: int)
    requires cfg.threshold >= 1 && ProbeAt(cfg, es, i) && ProbeAt(cfg, es, j) && i < j
    ensures exists k | i < k < j :: !es[k].Allow?
  {
    if forall k | i < k < j :: es[k].Allow? {
      var before := es[..j];
      assert before[..i] == es[..i];
      assert ProbeAt(cfg, before, i);
      FieldsAreHistory(cfg, before);
      assert ProbeOut(cfg, before);
      assert false;
    }
  }

  /** The breaker refuses only after `threshold` failures with no success among them. */
  lemma OpensOnlyAfterThresholdFailures(cfg: Config, es: seq<Event>, now: real)
    requires cfg.threshold >= 1
    ensures Answer(cfg, Run(cfg, es), now) != Closed <==>
              |Reports(es)| >= cfg.threshold
              && forall i | |Reports(es)| - cfg.threshold <= i < |Reports(es)| :: Reports(es)[i].Failure?
  {
    FieldsAreHistory(cfg, es);
    var rs, n := Reports(es), Run(cfg, es).failures;
    if n < cfg.threshold <= |rs| {
      assert !rs[|rs| - n - 1].Failure?;
    }
  }

  /**
   * The breaker refuses exactly when the trailing failures are at the threshold and either the cooldown
   * since the threshold-th of them is not over or a probe is out.
   */
  lemma RefusedIff(cfg: Config, es: seq<Event>, now: real, n: int)
    requires cfg.threshold >= 1 && TrailingRun(Reports(es), n)
    ensures var rs := Reports(es);
            Answer(cfg, Run(cfg, es), now) == Refused
            <==> n >= cfg.threshold && (now - rs[|rs| - n + cfg.threshold - 1].now < cfg.cooldown || Run(cfg, es).probing)
  {
    FieldsAreHistory(cfg, es);
    TrailingRunUnique(Reports(es), n, Run(cfg, es).failures);
  }

  /** A probe is out only while the failures are at the threshold. */
  lemma {:induction false} ProbeNeedsFailures(cfg: Config, es: seq<Event>)
    ensures Run(cfg, es).probing ==> Run(cfg, es).failures >= cfg.threshold
  {
    if es != [] {
      ProbeNeedsFailures(cfg, es[..|es| - 1]);
    }
  }

  /** A probe that is never reported blocks every later call, however long it waits. */
  lemma {:induction false} AbandonedProbeBlocks(cfg: Config, f: Fields, nows: seq<real>, i: nat)
    requires f.probing && f.failures >= cfg.threshold && i <= |nows|
    ensures WaitFor(cfg, f, nows[..i]) == f
    ensures forall now :: Answer(cfg, WaitFor(cfg, f, nows[..i]), now) == Refused
  {
    if i > 0 {
      AbandonedProbeBlocks(cfg, f, nows, i - 1);
      assert nows[..i][..i - 1] == nows[..i - 1];
    }
  }

  /** The fields after calls of `allow` at these times and no report. */
  function WaitFor(cfg: Config, f: Fields, nows: seq<real>): Fields {
    if nows == [] then f else Apply(cfg, WaitFor(cfg, f, nows[..|nows| - 1]), Allow(nows[|nows| - 1]))
  }

  /**
   * The documentation promises another cooldown after a failed probe. A failure starts a full
   * cooldown exactly when it is the threshold-th of its run (or the stamp is not in the past).
   */
  lemma FailureStartsCooldownIff(cfg: Config, f: Fields, now: real)
    requires cfg.cooldown > 0.0
    ensures var f' := Apply(cfg, f, Failure(now));
            (forall later | now <= later < now + cfg.cooldown :: Answer(cfg, f', later) == Refused)
            <==> f.failures + 1 == cfg.threshold || (f.failures + 1 > cfg.threshold && f.openedAt >= now)
  {
    var f' := Apply(cfg, f, Failure(now));
    if f.failures + 1 > cfg.threshold && f.openedAt < now {
      var stamped := f.openedAt + cfg.cooldown;
      var later := if stamped > now then stamped else now;
      assert now <= later < now + cfg.cooldown && Answer(cfg, f', later) == Probe;
    } else if f.failures + 1 < cfg.threshold {
      assert Answer(cfg, f', now) == Closed;
    }
  }

  /** So after a failed probe the very next call goes through as a probe again. */
  lemma FailedProbeIsFollowedByProbe(cfg: Config, f: Fields, granted: real, failed: real, later: real)
    requires Answer(cfg, f, granted) == Probe && granted <= failed <= later
    ensures Answer(cfg, Apply(cfg, Apply(cfg, f, Allow(granted)), Failure(failed)), later) == Probe
  {
  }
}
