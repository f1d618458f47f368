/** The two fare formulas, and the client that chooses between them. */
module Pricing {
  import opened Wrappers
  import opened Domain
  import opened CircuitBreaking
  import Geo

  // ---- pricing/server.py -------------------------------------------------------------------

  const BASE_FARE_CENTS := 250
  const PER_KM_CENTS := 140.0
  const PICKUP_PER_KM_CENTS := 60.0
  const MIN_FARE_CENTS := 500

  /** Python's `int(x)`: towards zero. */
  function Trunc(x: real): int {
    if x >= 0.0 then x.Floor else -(-x).Floor
  }

  /** What Redis holds for a cell: nothing, something `int` refuses, or a number. */
  datatype Raw = Missing | Garbage | Number(n: int)

  function SurgeBps(raw: Raw): int {
    match raw
    case Missing => 10_000
    case Garbage => 10_000
    case Number(n) =>
      var capped := if n < 30_000 then n else 30_000;
      if capped > 10_000 then capped else 10_000
  }

  function BaseCents(betweenM: real, pickupM: real): int {
    BASE_FARE_CENTS
    + Trunc((betweenM + pickupM) / 1000.0 * PER_KM_CENTS)
    + Trunc(pickupM / 1000.0 * PICKUP_PER_KM_CENTS)
  }

  /** `PricingService.Quote`; `betweenM` is the haversine distance it recomputes. */
  function ServiceFare(betweenM: real, pickupM: real, raw: Raw): int {
    var fare := BaseCents(betweenM, pickupM) * SurgeBps(raw) / 10_000;
    if fare > MIN_FARE_CENTS then fare else MIN_FARE_CENTS
  }

  // ---- dispatch/pricing_client.py ----------------------------------------------------------

  const FALLBACK_BASE_CENTS := 250
  const FALLBACK_PER_KM_CENTS := 140.0
  const FALLBACK_MIN_CENTS := 500
  const BREAKER := Config(5, 10.0)

  function Fallback(betweenM: real, pickupM: real): int {
    var fare := FALLBACK_BASE_CENTS + Trunc((betweenM + pickupM) / 1000.0 * FALLBACK_PER_KM_CENTS);
    if fare > FALLBACK_MIN_CENTS then fare else FALLBACK_MIN_CENTS
  }

  /** What the RPC does when it is made: an answer, a `grpc.RpcError`, or any other exception. */
  datatype Rpc = Answered(fare: int) | RpcError | OtherError

  /** What a quote reports to the breaker. */
  function Reported(rpc: Rpc, endedAt: real): seq<Event> {
    match rpc
    case Answered(_) => [Success]
    case RpcError => [Failure(endedAt)]
    case OtherError => []
  }

  /** One quote as calls on the breaker. */
  function QuoteEvents(f: Fields, now: real, rpc: Rpc, endedAt: real): seq<Event> {
    if CircuitBreaking.Answer(BREAKER, f, now) == Refused then [Allow(now)]
    else [Allow(now)] + Reported(rpc, endedAt)
  }

  /** The breaker lets the call through to the network. */
  predicate Asks(f: Fields, now: real) {
    CircuitBreaking.Answer(BREAKER, f, now) != Refused
  }

  /** The fare of one quote; None when an exception that is no `RpcError` leaves it. */
  function QuotedFare(asked: bool, rpc: Rpc, betweenM: real, pickupM: real): Option<int> {
    if asked && rpc.Answered? then Some(rpc.fare)
    else if asked && rpc.OtherError? then None
    else Some(Fallback(betweenM, pickupM))
  }

  function ApplyAll(f: Fields, es: seq<Event>): Fields
    decreases |es|
  {
    if es == [] then f else ApplyAll(Apply(BREAKER, f, es[0]), es[1..])
  }

  /** The allow, and then the report if there is one. */
  lemma QuoteEventsApplied(f: Fields, now: real, rpc: Rpc, endedAt: real)
    ensures var g := Apply(BREAKER, f, Allow(now));
            ApplyAll(f, QuoteEvents(f, now, rpc, endedAt))
            == if CircuitBreaking.Answer(BREAKER, f, now) == Refused || rpc.OtherError? then g
               else if rpc.RpcError? then Apply(BREAKER, g, Failure(endedAt))
               else Apply(BREAKER, g, Success)
  {
    var g, es := Apply(BREAKER, f, Allow(now)), QuoteEvents(f, now, rpc, endedAt);
    if |es| == 1 {
      assert es[1..] == [];
    } else {
      assert es == [es[0], es[1]] && es[1..] == [es[1]] && [es[1]][1..] == [];
      assert ApplyAll(g, [es[1]]) == Apply(BREAKER, g, es[1]);
    }
  }

  class PricingClient {
    const breaker: CircuitBreaker
    const distance: Geo.Distance

    constructor (distance: Geo.Distance)
      ensures fresh(breaker) && breaker.cfg == BREAKER && breaker.State() == FRESH && this.distance == distance
    {
      breaker := new CircuitBreaker(BREAKER);
      this.distance := distance;
    }

    /** Asks the breaker, then the service, and falls back to the local formula when either fails. */
    method Quote(pickup: LatLng, driver: LatLng, pickupM: real, now: real, rpc: Rpc, endedAt: real)
      returns (fare: Option<int>)
      requires breaker.cfg == BREAKER
      modifies breaker
      ensures breaker.State() == ApplyAll(old(breaker.State()), QuoteEvents(old(breaker.State()), now, rpc, endedAt))
      ensures fare == QuotedFare(Asks(old(breaker.State()), now), rpc, distance(pickup, driver), pickupM)
    {
      QuoteEventsApplied(breaker.State(), now, rpc, endedAt);
      var ok := breaker.TryAllow(now);
      if !ok {
        return Some(Fallback(distance(pickup, driver), pickupM));
      }
      match rpc {
        case OtherError =>
          fare := None;
        case RpcError =>
          breaker.OnFailure(endedAt);
          fare := Some(Fallback(distance(pickup, driver), pickupM));
        case Answered(cents) =>
          breaker.OnSuccess();
          fare := Some(cents);
      }
    }
  }

  // ---- one caller at a time ----------------------------------------------------------------

  datatype Call = Call(now: real, rpc: Rpc, endedAt: real)

  /** Everything a sequence of quotes, one after the other, tells the breaker. */
  function History(calls: seq<Call>): seq<Event> {
    if calls == [] then []
    else
      var before, c := History(calls[..|calls| - 1]), calls[|calls| - 1];
      before + QuoteEvents(Run(BREAKER, before), c.now, c.rpc, c.endedAt)
  }

  lemma {:induction false} RunConcat(f: Fields, es: seq<Event>, more: seq<Event>)
    requires f == Run(BREAKER, es)
    ensures Run(BREAKER, es + more) == ApplyAll(f, more)
    decreases |more|
  {
    if more == [] {
      assert es + more == es;
    } else {
      assert (es + [more[0]])[..|es|] == es;
      RunConcat(Apply(BREAKER, f, more[0]), es + [more[0]], more[1..]);
      assert es + [more[0]] + more[1..] == es + more;
    }
  }

  /** The fields one more quote leaves. */
  lemma OneMoreQuote(calls: seq<Call>, c: Call)
    ensures var f := Run(BREAKER, History(calls));
            Run(BREAKER, History(calls + [c])) == ApplyAll(f, QuoteEvents(f, c.now, c.rpc, c.endedAt))
  {
    var f := Run(BREAKER, History(calls));
    assert (calls + [c])[..|calls|] == calls;
    RunConcat(f, History(calls), QuoteEvents(f, c.now, c.rpc, c.endedAt));
  }

  /** Call i went out as the breaker's probe and left with an exception that is no `RpcError`. */
  predicate Abandons(calls: seq<Call>, i: nat)
    requires i < |calls|
  {
    calls[i].rpc.OtherError? && CircuitBreaking.Answer(BREAKER, Run(BREAKER, History(calls[..i])), calls[i].now) == Probe
  }

  lemma ProbingAfter(f: Fields, c: Call)
    requires f.probing ==> f.failures >= BREAKER.threshold
    ensures ApplyAll(f, QuoteEvents(f, c.now, c.rpc, c.endedAt)).probing
            <==> f.probing || (c.rpc.OtherError? && CircuitBreaking.Answer(BREAKER, f, c.now) == Probe)
  {
    QuoteEventsApplied(f, c.now, c.rpc, c.endedAt);
  }

  /** A probe was granted to one of the quotes and nobody has reported its outcome. */
  predicate ProbeLeft(calls: seq<Call>) {
    Run(BREAKER, History(calls)).probing
  }

  /** The n-th quote leaves a probe out when one was out already or this one abandons it. */
  lemma ProbeAfterQuote(calls: seq<Call>, n: nat)
    requires 0 < n <= |calls|
    ensures ProbeLeft(calls[..n]) <==> ProbeLeft(calls[..n - 1]) || Abandons(calls, n - 1)
  {
    var before, c := calls[..n - 1], calls[n - 1];
    assert before + [c] == calls[..n];
    ProbeNeedsFailures(BREAKER, History(before));
    OneMoreQuote(before, c);
    ProbingAfter(Run(BREAKER, History(before)), c);
  }

  /** Some of the first n quotes abandoned a probe. */
  ghost predicate SomeAbandons(calls: seq<Call>, n: nat)
    requires n <= |calls|
  {
    exists i: nat | i < n :: Abandons(calls, i)
  }

  /** What only ever becomes true by an event is true when there was one. */
  lemma {:induction false} TrueOnceCaused(holds: nat -> bool, cause: nat -> bool, n: nat)
    requires !holds(0) && forall k: nat | 0 < k <= n :: holds(k) <==> holds(k - 1) || cause(k - 1)
    ensures holds(n) <==> exists i: nat | i < n :: cause(i)
  {
    if n > 0 {
      TrueOnceCaused(holds, cause, n - 1);
    }
  }

  /** Quotes made one after the other leave a probe out exactly when one of them abandoned it. */
  lemma ProbeOutIffAbandoned(calls: seq<Call>, n: nat)
    requires n <= |calls|
    ensures ProbeLeft(calls[..n]) <==> SomeAbandons(calls, n)
  {
    var holds := (k: nat) => k <= |calls| && ProbeLeft(calls[..k]);
    var cause := (i: nat) => i < |calls| && Abandons(calls, i);
    forall k: nat | 0 < k <= n
      ensures holds(k) <==> holds(k - 1) || cause(k - 1)
    {
      ProbeAfterQuote(calls, k);
    }
    TrueOnceCaused(holds, cause, n);
    assert forall i: nat | i < n :: cause(i) == Abandons(calls, i);
  }

  /**
   * For sequential quotes the network is skipped exactly when the last outcomes are at least five
   * failures and less than ten seconds passed since the fifth of them, or a probe was abandoned.
   */
  lemma NetworkSkippedIff(calls: seq<Call>, now: real, n: int)
    requires TrailingRun(Reports(History(calls)), n)
    ensures var rs := Reports(History(calls));
            CircuitBreaking.Answer(BREAKER, Run(BREAKER, History(calls)), now) == Refused
            <==> n >= 5 && (now - rs[|rs| - n + 4].now < 10.0 || SomeAbandons(calls, |calls|))
  {
    RefusedIff(BREAKER, History(calls), now, n);
    assert calls[..|calls|] == calls;
    ProbeOutIffAbandoned(calls, |calls|);
  }

  /** Once a probe is abandoned no later quote reaches the network, whatever the others' times and outcomes. */
  lemma AbandonedProbeSkipsForGood(calls: seq<Call>, i: nat, j: nat, now: real)
    requires i < j <= |calls| && Abandons(calls, i)
    ensures !Asks(Run(BREAKER, History(calls[..j])), now)
  {
    assert SomeAbandons(calls, j);
    ProbeOutIffAbandoned(calls, j);
    ProbeNeedsFailures(BREAKER, History(calls[..j]));
  }

  /** A quote that fails as the probe is followed by a probe at once: there is no further cooldown. */
  lemma FailedProbeQuoteStartsNoCooldown(calls: seq<Call>, c: Call, later: real)
    requires CircuitBreaking.Answer(BREAKER, Run(BREAKER, History(calls)), c.now) == Probe
    requires c.rpc.RpcError? && c.now <= c.endedAt <= later
    ensures CircuitBreaking.Answer(BREAKER, Run(BREAKER, History(calls + [c])), later) == Probe
  {
    var f := Run(BREAKER, History(calls));
    OneMoreQuote(calls, c);
    QuoteEventsApplied(f, c.now, c.rpc, c.endedAt);
    FailedProbeIsFollowedByProbe(BREAKER, f, c.now, c.endedAt, later);
  }

  /** n quotes at time zero while pricing is down. */
  function Outage(n: nat): seq<Call> {
    seq(n, k => Call(0.0, RpcError, 0.0))
  }

  lemma OneMoreFailure(n: nat)
    requires n < 5
    ensures var f := Fields(n, 0.0, false);
            ApplyAll(f, QuoteEvents(f, 0.0, RpcError, 0.0)) == Fields(n + 1, 0.0, false)
  {
    QuoteEventsApplied(Fields(n, 0.0, false), 0.0, RpcError, 0.0);
  }

  lemma {:induction false} OutageOpens(n: nat)
    requires n <= 5
    ensures Run(BREAKER, History(Outage(n))) == Fields(n, 0.0, false)
  {
    if n > 0 {
      var c := Call(0.0, RpcError, 0.0);
      OutageOpens(n - 1);
      assert Outage(n) == Outage(n - 1) + [c];
      OneMoreQuote(Outage(n - 1), c);
      OneMoreFailure(n - 1);
    }
  }

  /**
   * Both happen: after five failures the quote at ten seconds is the probe. When it fails the next
   * call is a probe again; when it raises anything else, no later call goes out.
   */
  lemma ProbesGoWrong(failed: real, later: real, more: seq<Call>, now: real)
    requires 10.0 <= failed <= later
    ensures CircuitBreaking.Answer(BREAKER, Run(BREAKER, History(Outage(5))), 10.0) == Probe
    ensures CircuitBreaking.Answer(BREAKER, Run(BREAKER, History(Outage(5) + [Call(10.0, RpcError, failed)])), later) == Probe
    ensures !Asks(Run(BREAKER, History(Outage(5) + [Call(10.0, OtherError, failed)] + more)), now)
  {
    OutageOpens(5);
    FailedProbeQuoteStartsNoCooldown(Outage(5), Call(10.0, RpcError, failed), later);
    var calls := Outage(5) + [Call(10.0, OtherError, failed)] + more;
    assert calls[..5] == Outage(5) && Abandons(calls, 5);
    assert calls[..|calls|] == calls;
    AbandonedProbeSkipsForGood(calls, 5, |calls|, now);
  }

  // ---- the two formulas against each other -------------------------------------------------

  lemma TruncMonotone(x: real, y: real)
    requires x <= y
    ensures Trunc(x) <= Trunc(y)
  {
  }

  /** The surge is the number in Redis, brought to the nearer of 1x and 3x when it is outside. */
  lemma SurgeBounds(raw: Raw)
    ensures 10_000 <= SurgeBps(raw) <= 30_000
    ensures raw.Number? ==> (SurgeBps(raw) == raw.n <==> 10_000 <= raw.n <= 30_000)
    ensures raw.Number? && raw.n > 30_000 ==> SurgeBps(raw) == 30_000
    ensures raw.Number? && raw.n < 10_000 ==> SurgeBps(raw) == 10_000
    ensures !raw.Number? ==> SurgeBps(raw) == 10_000
  {
  }

  /** The cents of a ride before surge: 250, and 140 a kilometre of the whole way, and 60 of the way to the rider. */
  lemma BaseInCents(betweenM: real, pickupM: real, b: int)
    requires betweenM >= 0.0 && pickupM >= 0.0
    requires b == 250 + ((betweenM + pickupM) * 0.14).Floor + (pickupM * 0.06).Floor
    ensures BaseCents(betweenM, pickupM) == b >= 250
  {
    assert (betweenM + pickupM) / 1000.0 * PER_KM_CENTS == (betweenM + pickupM) * 0.14;
    assert pickupM / 1000.0 * PICKUP_PER_KM_CENTS == pickupM * 0.06;
  }

  /** Whole cents of n basis points of b, rounded down. */
  lemma RoundedDown(b: int, n: int, fare: int)
    requires fare == b * n / 10_000
    ensures 10_000 * fare <= b * n < 10_000 * (fare + 1)
  {
  }

  /**
   * The fare with surge, to the cent: n basis points of the base rounded down, and 500 when that is less.
   */
  lemma FareWithSurge(betweenM: real, pickupM: real, n: int, b: int)
    requires betweenM >= 0.0 && pickupM >= 0.0 && 10_000 <= n <= 30_000
    requires b == 250 + ((betweenM + pickupM) * 0.14).Floor + (pickupM * 0.06).Floor
    ensures var fare := ServiceFare(betweenM, pickupM, Number(n));
            && (b * n >= 5_000_000 ==> 10_000 * fare <= b * n < 10_000 * (fare + 1))
            && (b * n < 5_000_000 ==> fare == 500)
  {
    BaseInCents(betweenM, pickupM, b);
    SurgeBounds(Number(n));
    RoundedDown(b, n, b * n / 10_000);
  }

  /** Double surge doubles a fare above the minimum and triple surge triples it. */
  lemma SurgeMultiplies(betweenM: real, pickupM: real)
    requires betweenM >= 0.0 && pickupM >= 0.0 && ServiceFare(betweenM, pickupM, Missing) > 500
    ensures ServiceFare(betweenM, pickupM, Number(20_000)) == 2 * ServiceFare(betweenM, pickupM, Missing)
    ensures ServiceFare(betweenM, pickupM, Number(30_000)) == 3 * ServiceFare(betweenM, pickupM, Missing)
    ensures ServiceFare(betweenM, pickupM, Number(10_000)) == ServiceFare(betweenM, pickupM, Garbage)
            == ServiceFare(betweenM, pickupM, Missing)
  {
    var b := BaseCents(betweenM, pickupM);
    assert b * 10_000 / 10_000 == b && b * 20_000 / 10_000 == 2 * b && b * 30_000 / 10_000 == 3 * b;
  }

  /** The local fare, to the cent: 250, and 140 a kilometre of the whole way, and 500 when that is less. */
  lemma FallbackInCents(betweenM: real, pickupM: real, b: int)
    requires betweenM >= 0.0 && pickupM >= 0.0 && b == 250 + ((betweenM + pickupM) * 0.14).Floor
    ensures Fallback(betweenM, pickupM) == if b > 500 then b else 500
  {
    assert (betweenM + pickupM) / 1000.0 * FALLBACK_PER_KM_CENTS == (betweenM + pickupM) * 0.14;
  }

  /**
   * What a quote is: the number the service answered on a call that went out, the local fare when the
   * breaker refused or the RPC failed, and nothing when anything else was raised.
   */
  lemma QuoteIs(f: Fields, now: real, rpc: Rpc, betweenM: real, pickupM: real, b: int)
    requires betweenM >= 0.0 && pickupM >= 0.0 && b == 250 + ((betweenM + pickupM) * 0.14).Floor
    ensures var (refused, fare) := (CircuitBreaking.Answer(BREAKER, f, now) == Refused, QuotedFare(Asks(f, now), rpc, betweenM, pickupM));
            && (!refused && rpc.Answered? ==> fare == Some(rpc.fare))
            && (refused || rpc.RpcError? ==> fare == Some(if b > 500 then b else 500))
            && (!refused && rpc.OtherError? ==> fare == None)
  {
    FallbackInCents(betweenM, pickupM, b);
  }

  /** What a quote tells the breaker: nothing when it was refused, otherwise how the RPC ended. */
  lemma QuoteReports(calls: seq<Call>, c: Call)
    ensures var refused := CircuitBreaking.Answer(BREAKER, Run(BREAKER, History(calls)), c.now) == Refused;
            Reports(History(calls + [c])) == Reports(History(calls)) +
              if refused || c.rpc.OtherError? then []
              else if c.rpc.Answered? then [Success]
              else [Failure(c.endedAt)]
  {
    var es, f := History(calls), Run(BREAKER, History(calls));
    assert (calls + [c])[..|calls|] == calls;
    ReportsOfQuote(es, QuoteEvents(f, c.now, c.rpc, c.endedAt), c.now);
  }

  lemma ReportsOfQuote(es: seq<Event>, more: seq<Event>, now: real)
    requires 1 <= |more| <= 2 && more[0] == Allow(now) && (|more| == 2 ==> !more[1].Allow?)
    ensures Reports(es + more) == Reports(es) + more[1..]
  {
    assert (es + [more[0]])[..|es|] == es;
    if |more| == 2 {
      assert (es + more)[..|es| + 1] == es + [more[0]];
    } else {
      assert more == [more[0]];
    }
  }

  /** Multiplying by at least one and at most three. */
  lemma ScaledBounds(base: int, surge: int)
    requires base >= 0 && 10_000 <= surge <= 30_000
    ensures base <= base * surge / 10_000 <= 3 * base
  {
    assert base * 10_000 <= base * surge <= base * 30_000;
  }

  lemma BaseBounds(betweenM: real, pickupM: real)
    requires betweenM >= 0.0 && pickupM >= 0.0
    ensures BaseCents(betweenM, pickupM)
            >= FALLBACK_BASE_CENTS + Trunc((betweenM + pickupM) / 1000.0 * FALLBACK_PER_KM_CENTS) >= 250
  {
    TruncMonotone(0.0, (betweenM + pickupM) / 1000.0 * PER_KM_CENTS);
    TruncMonotone(0.0, pickupM / 1000.0 * PICKUP_PER_KM_CENTS);
  }

  /** A degraded fare is never below the minimum and never above what the service would have charged. */
  lemma FallbackNeverOvercharges(betweenM: real, pickupM: real, raw: Raw)
    requires betweenM >= 0.0 && pickupM >= 0.0
    ensures 500 <= Fallback(betweenM, pickupM) <= ServiceFare(betweenM, pickupM, raw)
  {
    BaseBounds(betweenM, pickupM);
    SurgeBounds(raw);
    ScaledBounds(BaseCents(betweenM, pickupM), SurgeBps(raw));
  }

  /** Without surge the degraded fare forgoes only the driver's way to the rider, at 60 cents a kilometre. */
  lemma WithoutSurgeOnlyTheDeadhead(betweenM: real, pickupM: real, raw: Raw)
    requires betweenM >= 0.0 && pickupM >= 0.0 && SurgeBps(raw) == 10_000
    ensures var deadhead := (pickupM * 0.06).Floor;
            && ServiceFare(betweenM, pickupM, raw) <= Fallback(betweenM, pickupM) + deadhead
            && (betweenM + pickupM >= 1786.0 ==>
                  && ServiceFare(betweenM, pickupM, raw) == Fallback(betweenM, pickupM) + deadhead
                  && Fallback(betweenM, pickupM) == 250 + ((betweenM + pickupM) * 0.14).Floor)
  {
    BaseBounds(betweenM, pickupM);
    assert (betweenM + pickupM) / 1000.0 * FALLBACK_PER_KM_CENTS == (betweenM + pickupM) * 0.14;
    assert pickupM / 1000.0 * PICKUP_PER_KM_CENTS == pickupM * 0.06;
    if betweenM + pickupM >= 1786.0 {
      TruncMonotone(250.0, (betweenM + pickupM) * 0.14);
    }
  }

  /** The service charges at least the minimum and at most three times the base. */
  lemma ServiceFareBounds(betweenM: real, pickupM: real, raw: Raw)
    requires betweenM >= 0.0 && pickupM >= 0.0
    ensures 500 <= ServiceFare(betweenM, pickupM, raw)
    ensures ServiceFare(betweenM, pickupM, raw) <= 500 || ServiceFare(betweenM, pickupM, raw) <= 3 * BaseCents(betweenM, pickupM)
  {
    BaseBounds(betweenM, pickupM);
    SurgeBounds(raw);
    ScaledBounds(BaseCents(betweenM, pickupM), SurgeBps(raw));
  }

  /**
   * When the service is the one that answers, a quote is between the minimum and the service's fare
   * on every path of breaker and RPC; it fails only for a foreign exception on a call that went out.
   */
  lemma QuoteIsFair(asked: bool, rpc: Rpc, betweenM: real, pickupM: real, raw: Raw)
    requires betweenM >= 0.0 && pickupM >= 0.0
    requires rpc.Answered? ==> rpc.fare == ServiceFare(betweenM, pickupM, raw)
    ensures var fare := QuotedFare(asked, rpc, betweenM, pickupM);
            && (fare.None? <==> asked && rpc.OtherError?)
            && (fare.Some? ==> 500 <= fare.value <= ServiceFare(betweenM, pickupM, raw))
  {
    FallbackNeverOvercharges(betweenM, pickupM, raw);
    ServiceFareBounds(betweenM, pickupM, raw);
  }

  lemma ScaledMonotone(base: int, base': int, surge: int, surge': int)
    requires 0 <= base <= base' && 0 <= surge <= surge'
    ensures base * surge / 10_000 <= base' * surge' / 10_000
  {
    assert base * surge <= base' * surge;
    assert base' * surge <= base' * surge';
  }

  /** More metres or more surge never make a ride cheaper. */
  lemma ServiceFareMonotone(betweenM: real, pickupM: real, raw: Raw, betweenM': real, pickupM': real, raw': Raw)
    requires 0.0 <= betweenM <= betweenM' && 0.0 <= pickupM <= pickupM' && SurgeBps(raw) <= SurgeBps(raw')
    ensures ServiceFare(betweenM, pickupM, raw) <= ServiceFare(betweenM', pickupM', raw')
  {
    BaseBounds(betweenM, pickupM);
    SurgeBounds(raw);
    TruncMonotone((betweenM + pickupM) / 1000.0 * PER_KM_CENTS, (betweenM' + pickupM') / 1000.0 * PER_KM_CENTS);
    TruncMonotone(pickupM / 1000.0 * PICKUP_PER_KM_CENTS, pickupM' / 1000.0 * PICKUP_PER_KM_CENTS);
    ScaledMonotone(BaseCents(betweenM, pickupM), BaseCents(betweenM', pickupM'), SurgeBps(raw), SurgeBps(raw'));
  }

  /** Half the earth's circumference, rounded up. */
  const FURTHEST_M := 20_100_000.0

  /** A fare between two points on earth fits the int32 of the wire and the INT of the column. */
  lemma FareFitsInt32(betweenM: real, pickupM: real, raw: Raw)
    requires 0.0 <= betweenM <= FURTHEST_M && 0.0 <= pickupM <= FURTHEST_M
    ensures ServiceFare(betweenM, pickupM, raw) < 0x8000_0000 && Fallback(betweenM, pickupM) < 0x8000_0000
  {
    ServiceFareBounds(betweenM, pickupM, raw);
    FallbackNeverOvercharges(betweenM, pickupM, raw);
    TruncMonotone((betweenM + pickupM) / 1000.0 * PER_KM_CENTS, 5_628_000.0);
    TruncMonotone(pickupM / 1000.0 * PICKUP_PER_KM_CENTS, 1_206_000.0);
  }
}
