/** Completion-spaced slots with a delay of their own. A place in flight yields
    bookings at least the delay apart, which bounds how many of them an interval
    can hold; and with more places than the limit no delay is enough. The violating
    run also withdraws bookings whose wait was zero, which the code does only for a
    caller that finds its deadline already past. */
module LimiterDelay {
  import opened Instants
  import opened DomainSlots
  import opened LimiterRuns
  import opened LimiterWithdrawals
  import opened LimiterExact

  // ----- each place books at most once in a delay -----

  /** Bookings past an instant are still in flight. */
  ghost predicate LaterArePending(sends: seq<int>, inFlight: multiset<int>, lastSend: Option<int>) {
    forall x :: (lastSend.Some? ==> lastSend.value < x) ==> multiset(sends)[x] <= inFlight[x]
  }

  lemma {:induction false} CountInPending(s: seq<int>, inFlight: multiset<int>, from: int, width: int)
    requires forall x :: from <= x < from + width ==> multiset(s)[x] <= inFlight[x]
    ensures CountIn(s, from, width) <= |inFlight|
  {
    if s != [] {
      assert s == [s[0]] + s[1..];
      if from <= s[0] < from + width {
        assert s[0] in multiset(s) && s[0] in inFlight;
        CountInPending(s[1..], inFlight - multiset{s[0]}, from, width);
      } else {
        CountInPending(s[1..], inFlight, from, width);
      }
    }
  }

  ghost predicate PlacesInv(r: Run, p: Pacing, cap: nat) {
    && |r.inFlight| <= cap
    && LaterArePending(r.sends, r.inFlight, r.slot.lastSend)
    && (r.slot.lastSend.Some? ==> r.slot.lastSend.value <= r.now)
    && QuotaHolds(r.sends, cap, p.minDelay)
  }

  /** A booking a delay past the last completion meets only pending ones. */
  lemma PlacesBooked(sends: seq<int>, inFlight: multiset<int>, lastSend: Option<int>,
                     cap: nat, minDelay: int, at: int)
    requires LaterArePending(sends, inFlight, lastSend) && |inFlight| < cap && QuotaHolds(sends, cap, minDelay)
    requires lastSend.Some? ==> lastSend.value + minDelay <= at
    ensures QuotaHolds(sends + [at], cap, minDelay)
    ensures LaterArePending(sends + [at], inFlight + multiset{at}, lastSend)
  {
    forall from
      ensures CountIn(sends + [at], from, minDelay) <= cap
    {
      CountInConcat(sends, [at], from, minDelay);
      assert [at][1..] == [];
      if from <= at < from + minDelay {
        CountInPending(sends, inFlight, from, minDelay);
      } else {
        assert CountIn(sends, from, minDelay) <= cap;
      }
    }
    assert multiset(sends + [at]) == multiset(sends) + multiset{at};
  }

  lemma {:induction false} CountInRemoved(s: seq<int>, at: int, from: int, width: int)
    ensures CountIn(RemoveFirst(s, at), from, width) <= CountIn(s, from, width)
  {
    if s != [] && s[0] != at {
      CountInRemoved(s[1..], at, from, width);
      assert ([s[0]] + RemoveFirst(s[1..], at))[1..] == RemoveFirst(s[1..], at);
    }
  }

  lemma PlacesWithdrawn(sends: seq<int>, inFlight: multiset<int>, lastSend: Option<int>,
                        cap: nat, minDelay: int, at: int)
    requires LaterArePending(sends, inFlight, lastSend) && at in inFlight && QuotaHolds(sends, cap, minDelay)
    ensures QuotaHolds(RemoveFirst(sends, at), cap, minDelay)
    ensures LaterArePending(RemoveFirst(sends, at), inFlight - multiset{at}, lastSend)
  {
    hide RemoveFirst, CountIn;
    RemoveFirstMultiset(sends, at);
    forall from
      ensures CountIn(RemoveFirst(sends, at), from, minDelay) <= cap
    {
      CountInRemoved(sends, at, from, minDelay);
      assert CountIn(sends, from, minDelay) <= cap;
    }
  }

  lemma PlacesStep(r: Run, p: Pacing, cap: nat, step: Step)
    requires p.Valid() && !p.spaceSends && PlacesInv(r, p, cap) && Enabled(r, cap, step)
    ensures PlacesInv(Next(r, p, step), p, cap)
  {
    hide LaterArePending, QuotaHolds;
    match step
    case Admit =>
      PlacesAdmit(r, p, cap);
    case Withdraw(at) =>
      PlacesWithdrawn(r.sends, r.inFlight, r.slot.lastSend, cap, p.minDelay, at);
    case Complete(at) =>
      PlacesCompleted(r.sends, r.inFlight, r.slot.lastSend, at, r.now);
    case _ =>
  }

  lemma PlacesAdmit(r: Run, p: Pacing, cap: nat)
    requires p.Valid() && !p.spaceSends && PlacesInv(r, p, cap) && |r.inFlight| < cap
    ensures PlacesInv(Next(r, p, Admit), p, cap)
  {
    hide LaterArePending, QuotaHolds, Next, BookInto;
    var base := Base(r.slot, p, r.now);
    CompletionAdmitFields(r, p);
    BookNotBefore(r.slot.sent, p.limit, p.period, base);
    var at := BookInto(r.slot.sent, p.limit, p.period, base).at;
    PlacesBooked(r.sends, r.inFlight, r.slot.lastSend, cap, p.minDelay, at);
  }

  lemma PlacesCompleted(sends: seq<int>, inFlight: multiset<int>, lastSend: Option<int>, at: int, now: int)
    requires LaterArePending(sends, inFlight, lastSend) && at <= now
    requires lastSend.Some? ==> lastSend.value <= now
    ensures LaterArePending(sends, inFlight - multiset{at}, Some(now))
  {
  }

  lemma {:induction false} PlacesHold(p: Pacing, cap: nat, start: int, steps: seq<Step>)
    requires p.Valid() && !p.spaceSends && Legal(p, cap, start, steps)
    ensures PlacesInv(Exec(p, start, steps), p, cap)
  {
    hide PlacesInv, Next, Enabled;
    if steps == [] {
      StartsPlaced(p, cap, start);
    } else {
      PlacesHold(p, cap, start, steps[..|steps| - 1]);
      PlacesStep(Exec(p, start, steps[..|steps| - 1]), p, cap, steps[|steps| - 1]);
    }
  }

  lemma StartsPlaced(p: Pacing, cap: nat, start: int)
    ensures PlacesInv(Start(start), p, cap)
  {
  }

  // ----- intervals wider than a delay -----

  lemma {:induction false} CountInSplits(s: seq<int>, from: int, a: nat, b: nat)
    ensures CountIn(s, from, a + b) == CountIn(s, from, a) + CountIn(s, from + a, b)
  {
    if s != [] {
      CountInSplits(s[1..], from, a, b);
    }
  }

  lemma {:induction false} CountInMultiple(s: seq<int>, cap: nat, width: nat, k: nat, from: int)
    requires QuotaHolds(s, cap, width)
    ensures CountIn(s, from, k * width) <= k * cap
  {
    if k == 0 {
      CountInOutside(s, from, 0);
    } else {
      CountInMultiple(s, cap, width, k - 1, from);
      assert (k - 1) * width + width == k * width && (k - 1) * cap + cap == k * cap;
      CountInSplits(s, from, (k - 1) * width, width);
      assert CountIn(s, from + (k - 1) * width, width) <= cap;
    }
  }

  lemma {:induction false} CountInWider(s: seq<int>, from: int, a: int, b: int)
    requires a <= b
    ensures CountIn(s, from, a) <= CountIn(s, from, b)
  {
    if s != [] {
      CountInWider(s[1..], from, a, b);
    }
  }

  /** With any withdrawals and holds, a completion-spaced slot keeps its quota when
      the delays that cover a period, times the callers in flight, fit the limit. */
  lemma CompletionQuotaByPlaces(p: Pacing, cap: nat, k: nat, start: int, steps: seq<Step>)
    requires p.Valid() && 0 < p.limit && !p.spaceSends
    requires p.period <= k * p.minDelay && k * cap <= p.limit
    requires Legal(p, cap, start, steps)
    ensures QuotaHolds(Exec(p, start, steps).sends, p.limit, p.period)
  {
    hide CountIn, Exec, Legal;
    PlacesHold(p, cap, start, steps);
    var sends := Exec(p, start, steps).sends;
    forall from
      ensures CountIn(sends, from, p.period) <= p.limit
    {
      CountInMultiple(sends, cap, p.minDelay, k, from);
      CountInWider(sends, from, p.period, k * p.minDelay);
    }
  }

  // ----- what is sent, when the wait is jittered -----

  /** Whenever the bookings keep the quota, by any of the sufficient conditions, the
      sends keep it over intervals shorter by 499 ms. */
  lemma JitteredRunsKeepQuota(p: Pacing, cap: nat, k: nat, start: int, steps: seq<Step>, actual: seq<int>)
    requires p.Valid() && 0 < p.limit && !p.spaceSends && Legal(p, cap, start, steps)
    requires WithoutWithdrawals(steps) || cap <= 2 || p.limit == 1
          || (p.period <= k * p.minDelay && k * cap <= p.limit)
    requires Jittered(Exec(p, start, steps).sends, actual)
    ensures QuotaHolds(actual, p.limit, p.period - 499)
  {
    hide Exec, Legal, QuotaHolds, Jittered;
    if WithoutWithdrawals(steps) {
      QuotaWithoutWithdrawals(p, start, steps);
    } else if cap <= 2 || p.limit == 1 {
      CompletionQuota(p, cap, start, steps);
    } else {
      CompletionQuotaByPlaces(p, cap, k, start, steps);
    }
    JitteredSendsKeepQuota(Exec(p, start, steps).sends, actual, p.limit, p.period);
  }

  // ----- more places than the limit: a violating run for every delay -----

  /** Everything at instant zero, nothing sent yet: what is booked is in flight. */
  ghost function AllPending(sent: seq<int>): Run {
    Run(Slot(None, [], None, sent), 0, multiset(sent), sent)
  }

  ghost predicate Crowdable(p: Pacing, cap: nat) {
    p.Valid() && !p.spaceSends && 1 < p.limit < cap
  }

  lemma BookPending(p: Pacing, cap: nat, sent: seq<int>, at: int)
    requires Crowdable(p, cap) && Reachable(p, cap, AllPending(sent)) && |sent| < cap
    requires sent == [] || -p.period < sent[0]
    requires at == WindowWait(sent, p.limit, p.period, 0)
    ensures Reachable(p, cap, AllPending(sent + [at]))
  {
    hide Reachable, WindowWait;
    ReachesAdmit(p, cap, AllPending(sent), sent, at);
    assert multiset(sent + [at]) == multiset(sent) + multiset{at};
  }

  lemma DropPending(p: Pacing, cap: nat, sent: seq<int>)
    requires Reachable(p, cap, AllPending(sent)) && sent != []
    ensures Reachable(p, cap, AllPending(sent[1..]))
  {
    hide Reachable;
    ReachesNext(p, cap, AllPending(sent), Withdraw(sent[0]));
    assert sent == [sent[0]] + sent[1..];
    assert multiset(sent) - multiset{sent[0]} == multiset(sent[1..]);
  }

  /** With the window full, one caller books a period behind the first, which then
      gives up. */
  lemma SlidePending(p: Pacing, cap: nat, v: int, rest: seq<int>)
    requires Crowdable(p, cap) && Reachable(p, cap, AllPending([v] + rest)) && |rest| + 1 == p.limit && 0 <= v
    ensures Reachable(p, cap, AllPending(rest + [v + p.period]))
  {
    hide Reachable;
    BookPending(p, cap, [v] + rest, v + p.period);
    DropPending(p, cap, [v] + rest + [v + p.period]);
    assert ([v] + rest + [v + p.period])[1..] == rest + [v + p.period];
  }

  lemma {:induction false} FillPending(p: Pacing, cap: nat, k: nat)
    requires Crowdable(p, cap) && k <= p.limit
    ensures Reachable(p, cap, AllPending(Repeat(0, k)))
  {
    hide Reachable;
    if k == 0 {
      ReachesStart(p, cap, 0);
      assert AllPending(Repeat(0, 0)) == Start(0);
    } else {
      FillPending(p, cap, k - 1);
      RepeatGrows(0, k - 1);
      BookPending(p, cap, Repeat(0, k - 1), 0);
    }
  }

  /** Places slide one after the other from v to a period later, behind what stands
      between. */
  lemma {:induction false} SlideAll(p: Pacing, cap: nat, v: int, k: nat, middle: seq<int>, b: nat)
    requires Crowdable(p, cap) && 0 <= v && b <= k && k + |middle| == p.limit
    requires Reachable(p, cap, AllPending(Repeat(v, k) + middle))
    ensures Reachable(p, cap, AllPending(Repeat(v, k - b) + middle + Repeat(v + p.period, b)))
  {
    hide Reachable, AllPending, Repeat;
    if b == 0 {
      SlidNothing(v, v + p.period, k, middle);
    } else {
      SlideAll(p, cap, v, k, middle, b - 1);
      var rest := Repeat(v, k - b) + middle + Repeat(v + p.period, b - 1);
      SlidSequence(v, v + p.period, k, middle, b);
      SlidePending(p, cap, v, rest);
    }
  }

  lemma SlidNothing(v: int, w: int, k: nat, middle: seq<int>)
    ensures Repeat(v, k) + middle + Repeat(w, 0) == Repeat(v, k) + middle
  {
  }

  lemma SlidSequence(v: int, w: int, k: nat, middle: seq<int>, b: nat)
    requires 0 < b <= k
    ensures var rest := Repeat(v, k - b) + middle + Repeat(w, b - 1);
            && |rest| == k + |middle| - 1
            && Repeat(v, k - (b - 1)) + middle + Repeat(w, b - 1) == [v] + rest
            && Repeat(v, k - b) + middle + Repeat(w, b) == rest + [w]
  {
    RepeatGrows(v, k - b);
    RepeatGrows(w, b - 1);
  }

  lemma {:induction false} Climb(p: Pacing, cap: nat, j: nat)
    requires Crowdable(p, cap)
    ensures Reachable(p, cap, AllPending(Repeat(j * p.period, p.limit)))
  {
    hide Reachable;
    if j == 0 {
      FillPending(p, cap, p.limit);
    } else {
      var v := (j - 1) * p.period;
      Climb(p, cap, j - 1);
      assert v + p.period == j * p.period && 0 <= v;
      assert Repeat(v, p.limit) + [] == Repeat(v, p.limit);
      SlideAll(p, cap, v, p.limit, [], p.limit);
      assert Repeat(v, 0) + [] + Repeat(j * p.period, p.limit) == Repeat(j * p.period, p.limit);
    }
  }

  /** A late booking in front of an early one, and late ones behind. */
  ghost function Turned(p: Pacing, late: int): seq<int>
    requires 1 < p.limit
  {
    [late, 0] + Repeat(late, p.limit - 2)
  }

  lemma TurnedIs(p: Pacing, late: int)
    requires 1 < p.limit
    ensures Turned(p, late) == [late, 0] + Repeat(late, p.limit - 2)
  {
  }

  lemma ReachesTurned(p: Pacing, cap: nat, j: nat)
    requires Crowdable(p, cap) && 0 < j
    ensures Reachable(p, cap, AllPending(Turned(p, j * p.period)))
  {
    hide Reachable, AllPending;
    var L, v := p.limit, (j - 1) * p.period;
    var late := v + p.period;
    assert late == j * p.period && 0 <= v;
    Climb(p, cap, j - 1);
    ReachesTurnedFrom(p, cap, v);
  }

  lemma ReachesTurnedFrom(p: Pacing, cap: nat, v: int)
    requires Crowdable(p, cap) && 0 <= v && Reachable(p, cap, AllPending(Repeat(v, p.limit)))
    ensures Reachable(p, cap, AllPending(Turned(p, v + p.period)))
  {
    hide Reachable, AllPending, Turned;
    var L, late := p.limit, v + p.period;
    RepeatGrows(v, L - 1);
    SlidePending(p, cap, v, Repeat(v, L - 1));
    RepeatGrows(v, L - 2);
    DropPending(p, cap, Repeat(v, L - 1) + [late]);
    assert (Repeat(v, L - 1) + [late])[1..] == Repeat(v, L - 2) + [late];
    BookPending(p, cap, Repeat(v, L - 2) + [late], 0);
    assert Repeat(v, L - 2) + [late] + [0] == Repeat(v, L - 2) + [late, 0];
    SlideAll(p, cap, v, L - 2, [late, 0], L - 2);
    assert Repeat(v, 0) + [late, 0] + Repeat(late, L - 2) == Turned(p, late) by {
      TurnedIs(p, late);
      assert Repeat(v, 0) == [];
      assert [] + [late, 0] == [late, 0];
    }
  }

  /** The early caller has sent: from now on nobody sends before the delay is over. */
  ghost function EarlySent(p: Pacing, sent: seq<int>, inFlight: multiset<int>): Run {
    Run(Slot(Some(0), [], None, sent), 0, inFlight, sent)
  }

  lemma BookAfterEarly(p: Pacing, cap: nat, sent: seq<int>, inFlight: multiset<int>, at: int)
    requires Crowdable(p, cap) && Reachable(p, cap, EarlySent(p, sent, inFlight)) && |inFlight| < cap
    requires sent != [] && p.minDelay - p.period < sent[0]
    requires at == p.minDelay + WindowWait(sent, p.limit, p.period, p.minDelay)
    ensures Reachable(p, cap, EarlySent(p, sent + [at], inFlight + multiset{at}))
  {
    hide Reachable, WindowWait;
    ReachesAdmit(p, cap, EarlySent(p, sent, inFlight), sent, at);
  }

  lemma WithdrawAfterEarly(p: Pacing, cap: nat, front: seq<int>, late: int, last: int,
                           inFlight: multiset<int>)
    requires Reachable(p, cap, EarlySent(p, front + [late] + [last], inFlight)) && late !in front && late in inFlight
    ensures Reachable(p, cap, EarlySent(p, front + [last], inFlight - multiset{late}))
  {
    hide Reachable;
    ReachesNext(p, cap, EarlySent(p, front + [late] + [last], inFlight), Withdraw(late));
    WithdrawBehind(front, late, last);
  }

  /** The instant the two callers too many book: the window, a place on, opens a
      period after the early booking. */
  ghost function Meeting(p: Pacing): int {
    Max(p.minDelay, p.period)
  }

  lemma ReachesMeeting(p: Pacing, cap: nat, late: int) returns (r: Run)
    requires Crowdable(p, cap) && Reachable(p, cap, AllPending(Turned(p, late)))
    requires p.minDelay <= late && 0 < late && p.minDelay - p.period < late
    ensures Reachable(p, cap, r) && r.sends == Turned(p, late) + [Meeting(p)] + [Meeting(p)]
  {
    hide Reachable, Turned, Meeting, EarlySent;
    var t, e, later := Turned(p, late), Meeting(p), late + p.period;
    var others := multiset(t) - multiset{0};
    EarlySends(p, cap, late);
    WaitsBehind(p, late, []);
    assert t + [] == t;
    BookAfterEarly(p, cap, t, others, later);
    var i1 := others + multiset{later};
    WaitsBehind(p, late, [later]);
    BookAfterEarly(p, cap, t + [later], i1, e);
    var i2 := i1 + multiset{e};
    NotTurned(p, late);
    WithdrawAfterEarly(p, cap, t, later, e, i2);
    var i3 := i2 - multiset{later};
    assert i3 == others + multiset{e};
    WaitsBehind(p, late, [e]);
    BookAfterEarly(p, cap, t + [e], i3, e);
    r := EarlySent(p, t + [e] + [e], i3 + multiset{e});
    assert r.sends == t + [e] + [e] by {
      SentEarly(p, t + [e] + [e], i3 + multiset{e});
    }
  }

  lemma SentEarly(p: Pacing, sent: seq<int>, inFlight: multiset<int>)
    ensures EarlySent(p, sent, inFlight).sends == sent
  {
  }

  /** The early caller of the turned window sends and is done. */
  lemma EarlySends(p: Pacing, cap: nat, late: int)
    requires Crowdable(p, cap) && Reachable(p, cap, AllPending(Turned(p, late)))
    ensures var others := multiset(Turned(p, late)) - multiset{0};
            |others| == p.limit - 1 && Reachable(p, cap, EarlySent(p, Turned(p, late), others))
  {
    hide Reachable;
    var t := Turned(p, late);
    assert t[1] == 0;
    assert 0 in multiset(t);
    ReachesNext(p, cap, AllPending(t), Complete(0));
  }

  /** How long a caller waits behind the turned window, alone or with one more. */
  lemma WaitsBehind(p: Pacing, late: int, more: seq<int>)
    requires 1 < p.limit && 0 < p.period && p.minDelay <= late && |more| <= 1
    ensures var sent := Turned(p, late) + more;
            && sent != [] && sent[0] == late
            && p.minDelay + WindowWait(sent, p.limit, p.period, p.minDelay)
               == if more == [] then late + p.period else Meeting(p)
  {
    var sent := Turned(p, late) + more;
    assert |sent| == p.limit + |more| && sent[0] == late && sent[1] == 0;
  }

  lemma NotTurned(p: Pacing, late: int)
    requires 1 < p.limit && 0 < p.period && 0 < late
    ensures late + p.period !in Turned(p, late)
  {
  }

  lemma MeetingBreaksQuota(p: Pacing, late: int)
    requires 1 < p.limit && 0 < p.period && Meeting(p) <= late < Meeting(p) + p.period
    ensures p.limit < CountIn(Turned(p, late) + [Meeting(p)] + [Meeting(p)], Meeting(p), p.period)
  {
    var e, P := Meeting(p), p.period;
    var tail := Repeat(late, p.limit - 2);
    CountInConcat(Turned(p, late) + [e], [e], e, P);
    CountInConcat(Turned(p, late), [e], e, P);
    CountInConcat([late, 0], tail, e, P);
    CountInAll(tail, e, P);
    CountInAll([e], e, P);
    assert [late, 0] == [late] + [0];
    CountInConcat([late], [0], e, P);
    CountInAll([late], e, P);
  }

  /** A multiple of the period in the period from the delay on. */
  lemma LateMultiple(minDelay: int, period: int) returns (j: nat)
    requires 0 <= minDelay && 0 < period
    ensures 0 < j && Max(minDelay, period) <= j * period < Max(minDelay, period) + period
  {
    if minDelay <= period {
      j := 1;
    } else {
      j := (minDelay - 1) / period + 1;
      assert (j - 1) * period <= minDelay - 1 < (j - 1) * period + period;
      assert j * period == (j - 1) * period + period;
    }
  }

  /** More callers in flight than a limit above one break the quota, whatever the
      delay is. */
  lemma CrowdBreaksQuota(p: Pacing, cap: nat)
    requires Crowdable(p, cap)
    ensures !QuotaSafe(p, cap)
  {
    hide Turned, Meeting, CountIn;
    var j := LateMultiple(p.minDelay, p.period);
    var late := j * p.period;
    assert Meeting(p) <= late < Meeting(p) + p.period && p.minDelay <= Meeting(p) && p.period <= Meeting(p) by {
      MeetingIs(p);
    }
    ReachesTurned(p, cap, j);
    var r := ReachesMeeting(p, cap, late);
    MeetingBreaksQuota(p, late);
    var start, steps :| Legal(p, cap, start, steps) && Exec(p, start, steps) == r;
    assert !QuotaHolds(Exec(p, start, steps).sends, p.limit, p.period);
  }

  lemma MeetingIs(p: Pacing)
    ensures Meeting(p) == Max(p.minDelay, p.period)
  {
  }

  /** When one delay covers a period, a completion-spaced slot keeps its quota under
      withdrawals exactly when the limit is one or no more callers can be in flight
      than the limit. */
  lemma WideDelayQuotaExactly(p: Pacing, cap: nat)
    requires p.Valid() && 0 < p.limit && !p.spaceSends && p.period <= p.minDelay
    ensures QuotaSafe(p, cap) <==> cap <= p.limit || p.limit == 1
  {
    if cap <= p.limit || p.limit == 1 {
      forall start, steps | Legal(p, cap, start, steps)
        ensures QuotaHolds(Exec(p, start, steps).sends, p.limit, p.period)
      {
        if p.limit == 1 {
          CompletionQuota(p, cap, start, steps);
        } else {
          CompletionQuotaByPlaces(p, cap, 1, start, steps);
        }
      }
    } else {
      CrowdBreaksQuota(p, cap);
    }
  }
}
