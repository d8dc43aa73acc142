/** The chain of ways to read Reddit: each method remembers until when it is to be
    skipped, a crawl tries the methods not on hold in order, and concurrent crawls
    share the memory. Instants are integers on one clock. */
module MethodChain {
  import opened Instants

  // ----- one method's memory -----

  /** The end of a skip; None is the zero instant. */
  type Until = Option<int>

  predicate OnHold(until: Until, now: int) {
    until.Some? && now < until.value
  }

  /** A hold never shortens a longer one. */
  function Extended(until: Until, now: int, d: int): Until {
    if until.Some? && now + d <= until.value then until else Some(now + d)
  }

  /** A success ends a skip unless one placed after the call started still runs. */
  function ClearedSince(until: Until, start: int): Until {
    if OnHold(until, start) then until else None
  }

  class Method {
    const name: string
    var downUntil: Until
    var down: bool

    constructor (name: string)
      ensures this.name == name && downUntil == None && !down
    {
      this.name, downUntil, down := name, None, false;
    }

    method Hold(now: int, d: int)
      modifies this`downUntil
      ensures downUntil == Extended(old(downUntil), now, d)
    {
      var until := now + d;
      if downUntil == None || downUntil.value < until {
        downUntil := Some(until);
      }
    }

    method Clear(start: int) returns (ended: bool)
      modifies this`downUntil
      ensures downUntil == ClearedSince(old(downUntil), start)
      ensures ended <==> !OnHold(old(downUntil), start)
    {
      if downUntil.Some? && start < downUntil.value {
        return false;
      }
      downUntil := None;
      return true;
    }

    method Report(isDown: bool) returns (changed: bool)
      modifies this`down
      ensures down == isDown && changed == (old(down) != isDown)
    {
      changed := down != isDown;
      down := isDown;
    }

    /** Skips the method for at least d and reports it down; first tells whether
        that is news. */
    method HoldDown(now: int, d: int) returns (first: bool)
      modifies this`downUntil, this`down
      ensures downUntil == Extended(old(downUntil), now, d) && down
      ensures first == !old(down)
    {
      Hold(now, d);
      first := Report(true);
    }

    /** Takes over a hold other replicas recorded, as a starting pod does. */
    method LoadHold(now: int, left: Option<int>) returns (first: bool)
      modifies this`downUntil, this`down
      ensures var held := left.Some? && 0 < left.value;
              && downUntil == (if held then Extended(old(downUntil), now, left.value) else old(downUntil))
              && down == (old(down) || held) && first == (held && !old(down))
              && (held ==> OnHold(downUntil, now))
    {
      first := false;
      if left.Some? && 0 < left.value {
        Hold(now, left.value);
        first := Report(true);
      }
    }

    /** Records a success of a call that began at start: the skip ends unless a hold
        placed since still runs, and recovered tells whether the method was down. */
    method MarkUp(start: int) returns (recovered: bool)
      modifies this`downUntil, this`down
      ensures downUntil == ClearedSince(old(downUntil), start)
      ensures down == (old(down) && OnHold(old(downUntil), start))
      ensures recovered == (old(down) && !OnHold(old(downUntil), start))
    {
      var ended := Clear(start);
      if !ended {
        return false;
      }
      recovered := Report(false);
    }
  }

  // ----- choosing the candidates -----

  const BROWSER := "browser"

  /** One method as a crawl finds it: its own memory and what replicas recorded. */
  datatype Leg = Leg(name: string, until: Until, sharedLeft: Option<int>)

  predicate InScope(leg: Leg, directOnly: bool) {
    !(directOnly && leg.name == BROWSER)
  }

  /** The later of the two holds. */
  function Effective(leg: Leg, now: int): Until {
    if leg.sharedLeft.Some? then Extended(leg.until, now, leg.sharedLeft.value) else leg.until
  }

  predicate Free(leg: Leg, directOnly: bool, now: int) {
    InScope(leg, directOnly) && !OnHold(Effective(leg, now), now)
  }

  predicate Waiting(leg: Leg, directOnly: bool, now: int) {
    InScope(leg, directOnly) && OnHold(Effective(leg, now), now)
  }

  function Remaining(leg: Leg, now: int): int
    requires Effective(leg, now).Some?
  {
    Effective(leg, now).value - now
  }

  /** The places of the free methods, in configured order. */
  ghost function FreePlaces(legs: seq<Leg>, directOnly: bool, now: int): seq<nat> {
    if legs == [] then []
    else
      var k := |legs| - 1;
      FreePlaces(legs[..k], directOnly, now) + if Free(legs[k], directOnly, now) then [k] else []
  }

  /** The smallest wait among the methods on hold, or 0 when none is. */
  ghost function Soonest(legs: seq<Leg>, directOnly: bool, now: int): int {
    if legs == [] then 0
    else
      var last, before := legs[|legs| - 1], Soonest(legs[..|legs| - 1], directOnly, now);
      if Waiting(last, directOnly, now) && (before == 0 || Remaining(last, now) < before) then Remaining(last, now)
      else before
  }

  /** The places of the methods in scope on hold, in configured order. */
  ghost function HeldPlaces(legs: seq<Leg>, directOnly: bool, now: int): seq<nat> {
    if legs == [] then []
    else
      var k := |legs| - 1;
      HeldPlaces(legs[..k], directOnly, now) + if Waiting(legs[k], directOnly, now) then [k] else []
  }

  /** Looks at every method in scope once: the free ones are candidates, in
      configured order, and each of the others is reported down. */
  method Choose(legs: seq<Leg>, directOnly: bool, now: int)
    returns (candidates: seq<nat>, reported: seq<nat>, soonest: int)
    ensures candidates == FreePlaces(legs, directOnly, now)
    ensures reported == HeldPlaces(legs, directOnly, now)
    ensures soonest == Soonest(legs, directOnly, now)
  {
    candidates, reported, soonest := [], [], 0;
    for i := 0 to |legs|
      invariant candidates == FreePlaces(legs[..i], directOnly, now)
      invariant reported == HeldPlaces(legs[..i], directOnly, now)
      invariant soonest == Soonest(legs[..i], directOnly, now)
    {
      assert legs[..i + 1][..i] == legs[..i];
      var leg := legs[i];
      if directOnly && leg.name == BROWSER {
        continue;
      }
      var until := leg.until;
      if leg.sharedLeft.Some? && (until == None || until.value < now + leg.sharedLeft.value) {
        until := Some(now + leg.sharedLeft.value);
      }
      assert until == Effective(leg, now);
      if !(until.Some? && now < until.value) {
        candidates := candidates + [i];
        continue;
      }
      var wait := until.value - now;
      reported := reported + [i];
      if soonest == 0 || wait < soonest {
        soonest := wait;
      }
    }
    assert legs[..|legs|] == legs;
  }

  ghost predicate Ascending(places: seq<nat>) {
    forall i, j :: 0 <= i < j < |places| ==> places[i] < places[j]
  }

  /** The candidates are exactly the methods in scope that are not on hold, each
      once, in configured order. */
  lemma {:induction false} CandidatesAreFree(legs: seq<Leg>, directOnly: bool, now: int)
    ensures Ascending(FreePlaces(legs, directOnly, now))
    ensures forall i :: i in FreePlaces(legs, directOnly, now) <==> 0 <= i < |legs| && Free(legs[i], directOnly, now)
  {
    if legs != [] {
      hide Free;
      var k := |legs| - 1;
      CandidatesAreFree(legs[..k], directOnly, now);
      assert forall i :: 0 <= i < k ==> legs[..k][i] == legs[i];
      var front := FreePlaces(legs[..k], directOnly, now);
      assert forall i :: 0 <= i < |front| ==> front[i] in front;
    }
  }

  /** Those reported down are exactly the methods in scope on hold, each once: a
      method in scope is either a candidate or reported. */
  lemma {:induction false} ReportedAreHeld(legs: seq<Leg>, directOnly: bool, now: int)
    ensures Ascending(HeldPlaces(legs, directOnly, now))
    ensures forall i :: i in HeldPlaces(legs, directOnly, now) <==> 0 <= i < |legs| && Waiting(legs[i], directOnly, now)
  {
    if legs != [] {
      hide Waiting;
      var k := |legs| - 1;
      ReportedAreHeld(legs[..k], directOnly, now);
      assert forall i :: 0 <= i < k ==> legs[..k][i] == legs[i];
      var front := HeldPlaces(legs[..k], directOnly, now);
      assert forall i :: 0 <= i < |front| ==> front[i] in front;
    }
  }

  /** When every method in scope is on hold, the wait told is the smallest that
      remains: one method is free by then, and none before. */
  lemma {:induction false} AllHeldWaitIsExact(legs: seq<Leg>, directOnly: bool, now: int)
    requires FreePlaces(legs, directOnly, now) == []
    requires exists i :: 0 <= i < |legs| && InScope(legs[i], directOnly)
    ensures 0 < Soonest(legs, directOnly, now)
    ensures exists i :: 0 <= i < |legs| && Waiting(legs[i], directOnly, now)
              && Remaining(legs[i], now) == Soonest(legs, directOnly, now)
    ensures forall i :: 0 <= i < |legs| && Waiting(legs[i], directOnly, now) ==>
              Soonest(legs, directOnly, now) <= Remaining(legs[i], now)
  {
    SoonestIsSmallest(legs, directOnly, now);
    CandidatesAreFree(legs, directOnly, now);
    var i :| 0 <= i < |legs| && InScope(legs[i], directOnly);
    assert i !in FreePlaces(legs, directOnly, now);
    assert Waiting(legs[i], directOnly, now);
  }

  ghost predicate SmallestIs(legs: seq<Leg>, directOnly: bool, now: int, soonest: int) {
    && 0 <= soonest
    && (soonest == 0 || exists i ::
          0 <= i < |legs| && Waiting(legs[i], directOnly, now) && Remaining(legs[i], now) == soonest)
    && (forall i :: 0 <= i < |legs| && Waiting(legs[i], directOnly, now) ==> 0 < soonest <= Remaining(legs[i], now))
  }

  lemma {:induction false} SoonestIsSmallest(legs: seq<Leg>, directOnly: bool, now: int)
    ensures SmallestIs(legs, directOnly, now, Soonest(legs, directOnly, now))
  {
    if legs != [] {
      var k := |legs| - 1;
      var before := Soonest(legs[..k], directOnly, now);
      SoonestIsSmallest(legs[..k], directOnly, now);
      assert forall i :: 0 <= i < k ==> legs[..k][i] == legs[i];
      if Soonest(legs, directOnly, now) == before && before != 0 {
        var i :| 0 <= i < k && Waiting(legs[..k][i], directOnly, now) && Remaining(legs[..k][i], now) == before;
        assert Waiting(legs[i], directOnly, now) && Remaining(legs[i], now) == before;
      }
    }
  }

  // ----- trying the candidates -----

  datatype Kind = Http403 | Http429 | Captcha | BotBlock | UpstreamError | OtherKind

  /** An error of a call; fetch tells a classified one, noFallback one every method
      would meet. */
  datatype Failure = Failure(fetch: bool, kind: Kind, noFallback: bool, retryAfter: int)

  /** The next method can get around it. */
  predicate Failover(e: Failure) {
    e.fetch && !e.noFallback && !e.kind.OtherKind?
  }

  /** What a call through a method comes to: held when Reddit answered but asked
      for back-off; ended when the caller's context had ended by then. */
  datatype Result = Answered(held: bool) | Failed(error: Failure, ended: bool)

  datatype HoldFor = HoldFor(place: nat, d: int)

  /** The call is not the last: the next candidate is tried after it. */
  predicate MovesOn(r: Result) {
    r.Failed? && Failover(r.error) && !r.ended
  }

  /** A failed call holds its method, except that an upstream fault never holds the
      last candidate left. */
  predicate Holds(r: Result, lastCandidate: bool) {
    r.Failed? && Failover(r.error) && (!r.error.kind.UpstreamError? || !lastCandidate)
  }

  /** The holds the first n calls leave behind. */
  ghost function HoldsOf(candidates: seq<nat>, results: seq<Result>, cooldown: int, n: nat): seq<HoldFor>
    requires n <= |candidates| == |results|
  {
    if n == 0 then []
    else
      HoldsOf(candidates, results, cooldown, n - 1) +
      if Holds(results[n - 1], n == |candidates|) then
        [HoldFor(candidates[n - 1], Max(cooldown, results[n - 1].error.retryAfter))]
      else []
  }

  /** The error is of a kind another method can get around. */
  ghost predicate CanFailOver(e: Failure) {
    e.fetch && !e.noFallback
    && (e.kind == Http403 || e.kind == Http429 || e.kind == Captcha || e.kind == BotBlock || e.kind == UpstreamError)
  }

  /** Each call that failed so leaves its method on hold for the cooldown and for as
      long as the upstream asked, whichever is longer, except the last candidate for
      an upstream fault; no other call leaves a hold. */
  lemma {:induction false} HoldsExactly(candidates: seq<nat>, results: seq<Result>, cooldown: int, n: nat, h: HoldFor)
    requires n <= |candidates| == |results|
    ensures h in HoldsOf(candidates, results, cooldown, n) <==> exists i ::
              && 0 <= i < n && h.place == candidates[i]
              && results[i].Failed? && CanFailOver(results[i].error)
              && !(results[i].error.kind == UpstreamError && i == |candidates| - 1)
              && cooldown <= h.d && results[i].error.retryAfter <= h.d
              && (h.d == cooldown || h.d == results[i].error.retryAfter)
  {
    if 0 < n {
      HoldsExactly(candidates, results, cooldown, n - 1, h);
    }
  }

  /** The run stopped after call n - 1: each before it moved on, and it did not or
      was the last. */
  ghost predicate StoppedAt(results: seq<Result>, n: nat) {
    && 0 < n <= |results|
    && (forall i :: 0 <= i < n - 1 ==> MovesOn(results[i]))
    && (n < |results| ==> !MovesOn(results[n - 1]))
  }

  /** Calls the candidates in order until one answers or fails for good. served is
      the method that answered, recovered whether its skip may end. */
  method TryInOrder(candidates: seq<nat>, results: seq<Result>, cooldown: int)
    returns (calls: seq<nat>, served: Option<nat>, recovered: bool, holds: seq<HoldFor>, error: Option<Failure>)
    requires 0 < |candidates| == |results|
    ensures StoppedAt(results, |calls|) && calls == candidates[..|calls|]
    ensures holds == HoldsOf(candidates, results, cooldown, |calls|)
    ensures match results[|calls| - 1]
            case Answered(held) => served == Some(calls[|calls| - 1]) && recovered == !held && error == None
            case Failed(e, _) => served == None && !recovered && error == Some(e)
  {
    calls, served, recovered, holds, error := [], None, false, [], None;
    for i := 0 to |candidates|
      invariant calls == candidates[..i] && served == None && !recovered
      invariant forall j :: 0 <= j < i ==> MovesOn(results[j])
      invariant holds == HoldsOf(candidates, results, cooldown, i)
      invariant 0 < i ==> results[i - 1].Failed? && error == Some(results[i - 1].error)
    {
      calls := calls + [candidates[i]];
      match results[i]
      case Answered(held) =>
        served, recovered, error := Some(candidates[i]), !held, None;
        return;
      case Failed(e, ended) =>
        error := Some(e);
        if !Failover(e) {
          return;
        }
        if !e.kind.UpstreamError? || i < |candidates| - 1 {
          holds := holds + [HoldFor(candidates[i], Max(cooldown, e.retryAfter))];
        }
        if ended {
          return;
        }
    }
  }

  /** A lone candidate is never held for an upstream fault, whoever it is. */
  lemma {:induction false} LastCandidateKeptOnUpstreamFault(candidates: seq<nat>, results: seq<Result>,
                                                            cooldown: int, n: nat)
    requires 0 < n == |candidates| == |results| && Ascending(candidates)
    requires results[n - 1].Failed? && results[n - 1].error.kind.UpstreamError?
    ensures forall i :: 0 <= i < |HoldsOf(candidates, results, cooldown, n)| ==>
              HoldsOf(candidates, results, cooldown, n)[i].place < candidates[n - 1]
  {
    HoldsInOrder(candidates, results, cooldown, n - 1);
  }

  lemma {:induction false} HoldsInOrder(candidates: seq<nat>, results: seq<Result>, cooldown: int, n: nat)
    requires n < |candidates| == |results| && Ascending(candidates)
    ensures forall i :: 0 <= i < |HoldsOf(candidates, results, cooldown, n)| ==>
              HoldsOf(candidates, results, cooldown, n)[i].place < candidates[n]
  {
    if 0 < n {
      HoldsInOrder(candidates, results, cooldown, n - 1);
      assert candidates[n - 1] < candidates[n];
    }
  }

  // ----- concurrent crawls on one pod -----

  type Crawl = nat

  /** One method's memory, the clock, and for each running crawl the instant it
      started choosing and whether it has the method among its candidates. */
  datatype Pod = Pod(until: Until, now: int, started: map<Crawl, int>, chosen: set<Crawl>)

  datatype Step =
    | Tick(ms: nat)
    | Begin(c: Crawl)
    | Select(c: Crawl, sharedLeft: Option<int>)  // the crawl looks at the method
    | HoldOn(d: int)                             // a failure, a back-off, or a replica's hold
    | Succeed(c: Crawl)

  ghost predicate Enabled(p: Pod, step: Step) {
    match step
    case Tick(_) => true
    case Begin(c) => c !in p.started
    case Select(c, left) => c in p.started && Free(Leg("", p.until, left), false, p.started[c])
    case HoldOn(_) => true
    case Succeed(c) => c in p.started && c in p.chosen
  }

  ghost function Next(p: Pod, step: Step): Pod
    requires Enabled(p, step)
  {
    match step
    case Tick(ms) => p.(now := p.now + ms)
    case Begin(c) => p.(started := p.started[c := p.now])
    case Select(c, _) => p.(chosen := p.chosen + {c})
    case HoldOn(d) => p.(until := Extended(p.until, p.now, d))
    case Succeed(c) =>
      p.(until := ClearedSince(p.until, p.started[c]), started := p.started - {c}, chosen := p.chosen - {c})
  }

  ghost predicate Run(states: seq<Pod>, steps: seq<Step>) {
    && |states| == |steps| + 1
    && states[0].started == map[] && states[0].chosen == {}
    && forall i :: 0 <= i < |steps| ==> Enabled(states[i], steps[i]) && states[i + 1] == Next(states[i], steps[i])
  }

  ghost predicate StartedBefore(p: Pod) {
    forall c :: c in p.started ==> p.started[c] <= p.now
  }

  lemma {:induction false} StartsInThePast(states: seq<Pod>, steps: seq<Step>, i: nat)
    requires Run(states, steps) && i <= |steps|
    ensures StartedBefore(states[i])
  {
    if 0 < i {
      StartsInThePast(states, steps, i - 1);
    }
  }

  /** However crawls interleave, a hold that still runs is never shortened or
      ended. */
  lemma {:induction false} LiveHoldIsKept(states: seq<Pod>, steps: seq<Step>, i: nat, j: nat)
    requires Run(states, steps) && i <= j <= |steps|
    requires OnHold(states[i].until, states[j].now)
    ensures OnHold(states[j].until, states[j].now) && states[i].until.value <= states[j].until.value
    decreases j
  {
    if i < j {
      StartsInThePast(states, steps, j - 1);
      assert states[j] == Next(states[j - 1], steps[j - 1]);
      LiveHoldIsKept(states, steps, i, j - 1);
    }
  }

  /** No crawl ever takes as a candidate a method that is on hold as it looks. */
  lemma HeldIsNeverSelected(states: seq<Pod>, steps: seq<Step>, i: nat)
    requires Run(states, steps) && i < |steps| && steps[i].Select?
    ensures !OnHold(states[i].until, states[i].now)
    ensures steps[i].sharedLeft.Some? ==> steps[i].sharedLeft.value <= 0
  {
    StartsInThePast(states, steps, i);
    assert Enabled(states[i], steps[i]);
  }

  /** A method that is on hold when a crawl gets to call it was put on hold after
      that crawl looked: the hold is never one the crawl could have seen. */
  lemma {:induction false} HeldWhenCalledWasHeldSince(states: seq<Pod>, steps: seq<Step>, i: nat, j: nat)
    returns (m: nat)
    requires Run(states, steps) && i < j <= |steps| && steps[i].Select?
    requires OnHold(states[j].until, states[j].now)
    ensures i < m < j && steps[m].HoldOn?
    decreases j
  {
    assert states[j] == Next(states[j - 1], steps[j - 1]);
    if i + 1 == j {
      HeldIsNeverSelected(states, steps, i);
      assert false;
    } else if steps[j - 1].HoldOn? {
      m := j - 1;
    } else {
      m := HeldWhenCalledWasHeldSince(states, steps, i, j - 1);
    }
  }
}
