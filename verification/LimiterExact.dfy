/** The exact conditions: the runs on which withdrawn bookings break the rolling
    quota, for every limit and period, and the two equivalences they complete. Any
    caller in flight may withdraw. The completion-spaced run withdraws two bookings
    whose wait was zero, which the code does only for callers that find their
    deadline already past: a wait of zero exceeds no budget but a negative one. */
module LimiterExact {
  import opened Instants
  import opened DomainSlots
  import opened LimiterRuns
  import opened LimiterWithdrawals

  /** One admission, with what eviction leaves and what the window adds spelled out. */
  lemma AdmitIs(p: Pacing, r: Run, live: seq<int>, at: int)
    requires 0 < p.limit && !p.spaceSends
    requires live == Evicted(r.slot.sent, Base(r.slot, p, r.now) - p.period)
    requires at == Base(r.slot, p, r.now) + WindowWait(live, p.limit, p.period, Base(r.slot, p, r.now))
    ensures Next(r, p, Admit)
         == Run(r.slot.(sent := live + [at]), r.now, r.inFlight + multiset{at}, r.sends + [at])
  {
    hide Evicted, WindowWait;
  }

  lemma ReachesAdmit(p: Pacing, cap: nat, r: Run, live: seq<int>, at: int)
    requires Reachable(p, cap, r) && |r.inFlight| < cap && 0 < p.limit && !p.spaceSends
    requires live == Evicted(r.slot.sent, Base(r.slot, p, r.now) - p.period)
    requires at == Base(r.slot, p, r.now) + WindowWait(live, p.limit, p.period, Base(r.slot, p, r.now))
    ensures Reachable(p, cap, Run(r.slot.(sent := live + [at]), r.now, r.inFlight + multiset{at}, r.sends + [at]))
  {
    hide Reachable, Evicted, WindowWait, Base;
    AdmitIs(p, r, live, at);
    ReachesNext(p, cap, r, Admit);
  }

  ghost function Repeat(v: int, k: nat): seq<int> {
    seq(k, _ => v)
  }

  lemma RepeatGrows(v: int, k: nat)
    ensures Repeat(v, k) + [v] == Repeat(v, k + 1) == [v] + Repeat(v, k)
  {
  }

  // ----- completion-spaced: three callers in flight break any limit above one -----

  /** The settings of the run: no spacing of its own, as in the request quota
      that only bounds a count. */
  ghost predicate CountOnly(p: Pacing) {
    p.Valid() && !p.spaceSends && p.minDelay == 0 && 1 < p.limit
  }

  /** k requests sent and finished at instant zero. */
  ghost function SentAtZero(k: nat): Run {
    Run(Slot(if k == 0 then None else Some(0), [], None, Repeat(0, k)), 0, multiset{}, Repeat(0, k))
  }

  lemma {:induction false} ReachesSentAtZero(p: Pacing, cap: nat, k: nat)
    requires CountOnly(p) && 3 <= cap && k < p.limit
    ensures Reachable(p, cap, SentAtZero(k))
  {
    hide Reachable;
    if k == 0 {
      ReachesStart(p, cap, 0);
      assert Start(0) == SentAtZero(0);
    } else {
      ReachesSentAtZero(p, cap, k - 1);
      RepeatGrows(0, k - 1);
      var r := SentAtZero(k - 1);
      ReachesAdmit(p, cap, r, r.slot.sent, 0);
      var booked := Run(r.slot.(sent := Repeat(0, k)), 0, multiset{0}, Repeat(0, k));
      assert multiset{} + multiset{0} == multiset{0};
      ReachesNext(p, cap, booked, Complete(0));
      assert multiset{0} - multiset{0} == multiset{};
    }
  }

  /** Three callers book; the third waits a whole period behind the first. The
      two in front give up, and a fourth books at once: the window is unsorted. */
  ghost function Unsorted(p: Pacing): Run
    requires 1 < p.limit
  {
    var sent := Repeat(0, p.limit - 2) + [p.period, 0];
    Run(Slot(if p.limit == 2 then None else Some(0), [], None, sent), 0, multiset{p.period, 0}, sent)
  }

  /** The slot of the run while its window holds the given list. */
  ghost function AtZero(p: Pacing, sent: seq<int>, inFlight: multiset<int>): Run {
    Run(Slot(if p.limit == 2 then None else Some(0), [], None, sent), 0, inFlight, sent)
  }

  lemma AdmitAtZero(p: Pacing, cap: nat, sent: seq<int>, inFlight: multiset<int>, at: int)
    requires CountOnly(p) && Reachable(p, cap, AtZero(p, sent, inFlight)) && |inFlight| < cap
    requires sent == [] || -p.period < sent[0]
    requires at == WindowWait(sent, p.limit, p.period, 0)
    ensures Reachable(p, cap, AtZero(p, sent + [at], inFlight + multiset{at}))
  {
    hide Reachable, WindowWait;
    ReachesAdmit(p, cap, AtZero(p, sent, inFlight), sent, at);
  }

  lemma WithdrawAtZero(p: Pacing, cap: nat, k: nat, rest: seq<int>, inFlight: multiset<int>)
    requires CountOnly(p) && Reachable(p, cap, AtZero(p, Repeat(0, k + 1) + rest, inFlight)) && 0 in inFlight
    ensures Reachable(p, cap, AtZero(p, Repeat(0, k) + rest, inFlight - multiset{0}))
  {
    hide Reachable;
    WithdrawHead(0, k, rest);
    ReachesNext(p, cap, AtZero(p, Repeat(0, k + 1) + rest, inFlight), Withdraw(0));
  }

  lemma ReachesFull(p: Pacing, cap: nat)
    requires CountOnly(p) && 3 <= cap
    ensures Reachable(p, cap, AtZero(p, Repeat(0, p.limit) + [p.period], multiset{0, 0, p.period}))
  {
    hide Reachable;
    var L, P := p.limit, p.period;
    ReachesSentAtZero(p, cap, L - 2);
    RepeatGrows(0, L - 2);
    RepeatGrows(0, L - 1);
    AdmitAtZero(p, cap, Repeat(0, L - 2), multiset{}, 0);
    assert multiset{} + multiset{0} == multiset{0};
    AdmitAtZero(p, cap, Repeat(0, L - 1), multiset{0}, 0);
    assert multiset{0} + multiset{0} == multiset{0, 0};
    AdmitAtZero(p, cap, Repeat(0, L), multiset{0, 0}, P);
    assert multiset{0, 0} + multiset{P} == multiset{0, 0, P};
  }

  lemma ReachesUnsorted(p: Pacing, cap: nat)
    requires CountOnly(p) && 3 <= cap
    ensures Reachable(p, cap, Unsorted(p))
  {
    hide Reachable;
    var L, P := p.limit, p.period;
    ReachesFull(p, cap);
    WithdrawAtZero(p, cap, L - 1, [P], multiset{0, 0, P});
    assert multiset{0, 0, P} - multiset{0} == multiset{0, P};
    WithdrawAtZero(p, cap, L - 2, [P], multiset{0, P});
    assert multiset{0, P} - multiset{0} == multiset{P};
    AdmitAtZero(p, cap, Repeat(0, L - 2) + [P], multiset{P}, 0);
    assert Repeat(0, L - 2) + [P] + [0] == Repeat(0, L - 2) + [P, 0];
    assert multiset{P} + multiset{0} == multiset{P, 0};
  }

  lemma WithdrawHead(v: int, k: nat, rest: seq<int>)
    ensures RemoveFirst(Repeat(v, k + 1) + rest, v) == Repeat(v, k) + rest
  {
    assert (Repeat(v, k + 1) + rest)[1..] == Repeat(v, k) + rest;
  }

  /** One period later both pending callers have sent, and k more after them. */
  ghost function OnePeriodLater(p: Pacing, k: nat): Run
    requires 1 < p.limit
  {
    var live := [p.period, 0] + Repeat(p.period, k);
    var history := Repeat(0, p.limit - 2) + live;
    Run(Slot(Some(p.period), [], None, if k == 0 then history else live), p.period, multiset{}, history)
  }

  lemma {:induction false} EvictZeros(k: nat, rest: seq<int>)
    requires rest != [] && 0 < rest[0]
    ensures Evicted(Repeat(0, k) + rest, 0) == rest
  {
    EvictedDropsFront(Repeat(0, k), rest, 0);
  }

  lemma {:induction false} ReachesOnePeriodLater(p: Pacing, cap: nat, k: nat)
    requires CountOnly(p) && 3 <= cap && k <= p.limit - 2
    ensures Reachable(p, cap, OnePeriodLater(p, k))
    ensures Evicted(OnePeriodLater(p, k).slot.sent, 0) == [p.period, 0] + Repeat(p.period, k)
  {
    hide Reachable;
    var P := p.period;
    var live := [P, 0] + Repeat(P, k);
    EvictZeros(p.limit - 2, live);
    EvictZeros(0, live);
    assert Repeat(0, 0) + live == live;
    if k == 0 {
      ReachesFirstPeriodLater(p, cap);
    } else {
      ReachesOnePeriodLater(p, cap, k - 1);
      OneMoreThatPeriod(p, cap, k - 1);
    }
  }

  lemma OneMoreThatPeriod(p: Pacing, cap: nat, k: nat)
    requires CountOnly(p) && 3 <= cap && k < p.limit - 2
    requires Reachable(p, cap, OnePeriodLater(p, k))
    requires Evicted(OnePeriodLater(p, k).slot.sent, 0) == [p.period, 0] + Repeat(p.period, k)
    ensures Reachable(p, cap, OnePeriodLater(p, k + 1))
  {
    hide Reachable, Evicted;
    var P, r := p.period, OnePeriodLater(p, k);
    var before := [P, 0] + Repeat(P, k);
    RepeatGrows(P, k);
    ReachesAdmit(p, cap, r, before, P);
    assert before + [P] == [P, 0] + Repeat(P, k + 1);
    assert r.sends + [P] == OnePeriodLater(p, k + 1).sends;
    assert multiset{} + multiset{P} == multiset{P};
    var booked := OnePeriodLater(p, k + 1).(inFlight := multiset{P});
    assert Reachable(p, cap, booked);
    ReachesNext(p, cap, booked, Complete(P));
    assert multiset{P} - multiset{P} == multiset{};
  }

  lemma ReachesFirstPeriodLater(p: Pacing, cap: nat)
    requires CountOnly(p) && 3 <= cap
    ensures Reachable(p, cap, OnePeriodLater(p, 0))
  {
    hide Reachable;
    var P, r := p.period, Unsorted(p);
    ReachesUnsorted(p, cap);
    ReachesNext(p, cap, r, Complete(0));
    var r1 := Run(r.slot.(lastSend := Some(0)), 0, multiset{P}, r.sends);
    assert multiset{P, 0} - multiset{0} == multiset{P};
    assert Next(r, p, Complete(0)) == r1;
    ReachesNext(p, cap, r1, Tick(P));
    var r2 := r1.(now := P);
    ReachesNext(p, cap, r2, Complete(P));
    assert multiset{P} - multiset{P} == multiset{};
    assert [P, 0] + Repeat(P, 0) == [P, 0];
  }

  /** limit + 1 bookings at one instant. */
  ghost function Crowded(p: Pacing): seq<int>
    requires 1 < p.limit
  {
    Repeat(0, p.limit - 2) + ([p.period, 0] + Repeat(p.period, p.limit))
  }

  /** At one period, with the window's list and the history given past the zeros. */
  ghost function AtPeriod(p: Pacing, sent: seq<int>, inFlight: multiset<int>): Run
    requires 1 < p.limit
  {
    Run(Slot(Some(p.period), [], None, sent), p.period, inFlight, Repeat(0, p.limit - 2) + sent)
  }

  lemma AdmitAtPeriod(p: Pacing, cap: nat, sent: seq<int>, inFlight: multiset<int>, at: int)
    requires CountOnly(p) && Reachable(p, cap, AtPeriod(p, sent, inFlight)) && |inFlight| < cap
    requires sent != [] && 0 < sent[0]
    requires at == p.period + WindowWait(sent, p.limit, p.period, p.period)
    ensures Reachable(p, cap, AtPeriod(p, sent + [at], inFlight + multiset{at}))
  {
    hide Reachable, WindowWait;
    ReachesAdmit(p, cap, AtPeriod(p, sent, inFlight), sent, at);
    assert Repeat(0, p.limit - 2) + sent + [at] == Repeat(0, p.limit - 2) + (sent + [at]);
  }

  /** The window is full, and the booking `limit` places back is the late one. */
  lemma ReachesLateBooking(p: Pacing, cap: nat, live: seq<int>)
    requires CountOnly(p) && 3 <= cap && live == [p.period, 0] + Repeat(p.period, p.limit - 2)
    ensures Reachable(p, cap, AtPeriod(p, live + [2 * p.period], multiset{2 * p.period}))
  {
    hide Reachable;
    var P, r := p.period, OnePeriodLater(p, p.limit - 2);
    ReachesOnePeriodLater(p, cap, p.limit - 2);
    ReachesAdmit(p, cap, r, live, 2 * P);
    assert r.sends + [2 * P] == Repeat(0, p.limit - 2) + (live + [2 * P]);
    assert multiset{} + multiset{2 * P} == multiset{2 * P};
  }

  lemma WithdrawBehind(front: seq<int>, late: int, last: int)
    requires late !in front
    ensures RemoveFirst(front + [late] + [last], late) == front + [last]
  {
    assert front + [late] + [last] == front + ([late] + [last]);
    RemoveFirstSkips(front, [late] + [last], late);
    assert ([late] + [last])[1..] == [last];
  }

  lemma WithdrawLate(p: Pacing, cap: nat, live: seq<int>, late: int, last: int)
    requires CountOnly(p) && late !in live && 0 < late != last
    requires Reachable(p, cap, AtPeriod(p, live + [late] + [last], multiset{late, last}))
    ensures Reachable(p, cap, AtPeriod(p, live + [last], multiset{last}))
  {
    hide Reachable;
    var front := Repeat(0, p.limit - 2);
    var r := AtPeriod(p, live + [late] + [last], multiset{late, last});
    ReachesNext(p, cap, r, Withdraw(late));
    WithdrawBehind(live, late, last);
    WithdrawBehind(front + live, late, last);
    assert r.sends == front + live + [late] + [last];
    assert front + live + [last] == front + (live + [last]);
    assert multiset{late, last} - multiset{late} == multiset{last};
  }

  lemma ReachesCrowded(p: Pacing, cap: nat) returns (r: Run)
    requires CountOnly(p) && 3 <= cap
    ensures Reachable(p, cap, r) && r.sends == Crowded(p)
  {
    hide Reachable;
    var L, P := p.limit, p.period;
    var live := [P, 0] + Repeat(P, L - 2);
    ReachesLateBooking(p, cap, live);
    // One place on, the booking is the early one: the next caller may send at once.
    assert (live + [2 * P])[1] == 0;
    AdmitAtPeriod(p, cap, live + [2 * P], multiset{2 * P}, P);
    assert multiset{2 * P} + multiset{P} == multiset{2 * P, P};
    WithdrawLate(p, cap, live, 2 * P, P);
    assert (live + [P])[1] == 0;
    AdmitAtPeriod(p, cap, live + [P], multiset{P}, P);
    r := AtPeriod(p, live + [P] + [P], multiset{P} + multiset{P});
    RepeatGrows(P, L - 2);
    RepeatGrows(P, L - 1);
    assert live + [P] + [P] == [P, 0] + (Repeat(P, L - 2) + [P] + [P]);
  }

  lemma CrowdedBreaksQuota(p: Pacing)
    requires 1 < p.limit && 0 < p.period
    ensures p.limit < CountIn(Crowded(p), p.period, p.period)
  {
    var P := p.period;
    var tail := Repeat(P, p.limit);
    CountInConcat(Repeat(0, p.limit - 2), [P, 0] + tail, P, P);
    CountInConcat([P, 0], tail, P, P);
    CountInAll(tail, P, P);
    assert [P, 0][1..] == [0];
    assert CountIn([P, 0], P, P) == 1 + CountIn([0], P, P);
  }

  /** A completion-spaced slot without spacing of its own keeps its quota under
      withdrawals exactly when at most two callers can be in flight or the limit
      is one. */
  lemma CompletionQuotaExactly(p: Pacing, cap: nat)
    requires p.Valid() && 0 < p.limit && !p.spaceSends && p.minDelay == 0
    ensures QuotaSafe(p, cap) <==> cap <= 2 || p.limit == 1
  {
    if cap <= 2 || p.limit == 1 {
      forall start, steps | Legal(p, cap, start, steps)
        ensures QuotaHolds(Exec(p, start, steps).sends, p.limit, p.period)
      {
        CompletionQuota(p, cap, start, steps);
      }
    } else {
      var r := ReachesCrowded(p, cap);
      CrowdedBreaksQuota(p);
      var start, steps :| Legal(p, cap, start, steps) && Exec(p, start, steps) == r;
      assert !QuotaHolds(Exec(p, start, steps).sends, p.limit, p.period);
    }
  }

  // ----- send-spaced: two callers in flight break a quota the spacing does not fill -----

  ghost predicate SpacedTooFast(p: Pacing) {
    p.Valid() && p.spaceSends && 0 < p.limit && p.limit * p.minDelay < p.period
  }

  /** 0, d, 2d, ... */
  ghost function Steady(d: int, k: nat): seq<int> {
    seq(k, i => i * d)
  }

  lemma SteadyGrows(d: int, k: nat)
    ensures Steady(d, k) + [k * d] == Steady(d, k + 1)
  {
  }

  lemma SteadyBelow(d: int, k: nat, limit: nat)
    requires 0 <= d && k <= limit
    ensures forall i :: 0 <= i < k ==> 0 <= i * d <= limit * d
    ensures 0 <= k * d <= limit * d
  {
    forall i | 0 <= i <= k
      ensures 0 <= i * d <= limit * d
    {
      assert (limit - i) * d == limit * d - i * d;
    }
    assert 0 <= k <= k;
  }

  /** k sends made one at a time at the spacing, nothing in flight, nothing evicted. */
  ghost predicate SteadySent(r: Run, p: Pacing, k: nat) {
    && r.inFlight == multiset{}
    && r.slot.notBefore == None
    && r.sends == r.slot.sent == Steady(p.minDelay, k)
    && r.now == if k == 0 then 0 else (k - 1) * p.minDelay
  }

  lemma ReachableSpaced(p: Pacing, cap: nat, r: Run)
    requires p.Valid() && p.spaceSends && Reachable(p, cap, r)
    ensures SpacedInv(r, p)
    ensures Base(r.slot, p, r.now) == SpacedBaseOf(r.sends, r.now, p.minDelay, r.slot.notBefore)
  {
    var start, steps :| Legal(p, cap, start, steps) && Exec(p, start, steps) == r;
    SpacedHolds(p, start, steps);
    SpacedBase(r, p);
  }

  lemma {:induction false} ReachesSteady(p: Pacing, cap: nat, k: nat) returns (r: Run)
    requires SpacedTooFast(p) && 2 <= cap && k <= p.limit
    ensures Reachable(p, cap, r) && SteadySent(r, p, k)
  {
    hide Reachable;
    if k == 0 {
      r := Start(0);
      ReachesStart(p, cap, 0);
    } else {
      r := ReachesSteady(p, cap, k - 1);
      r := OneMoreSteady(p, cap, k - 1, r);
    }
  }

  lemma OneMoreSteady(p: Pacing, cap: nat, k: nat, r: Run) returns (s: Run)
    requires SpacedTooFast(p) && 2 <= cap && k < p.limit
    requires Reachable(p, cap, r) && SteadySent(r, p, k)
    ensures Reachable(p, cap, s) && SteadySent(s, p, k + 1)
  {
    hide Reachable, Base;
    var at, list := k * p.minDelay, Steady(p.minDelay, k);
    SteadyBelow(p.minDelay, k, p.limit);
    SteadyGrows(p.minDelay, k);
    SteadyBase(r, p, k);
    assert Evicted(list, at - p.period) == list;
    SpacedAdmitIs(p, cap, r, at, list);
    var r1 := Next(r, p, Admit);
    assert multiset{} + multiset{at} == multiset{at};
    ReachesNext(p, cap, r1, Tick(at - r.now));
    var r2 := Next(r1, p, Tick(at - r.now));
    ReachesNext(p, cap, r2, Complete(at));
    s := Next(r2, p, Complete(at));
    assert multiset{at} - multiset{at} == multiset{};
  }

  /** The next send after k steady ones is due one spacing on. */
  lemma SteadyBase(r: Run, p: Pacing, k: nat)
    requires p.Valid() && SteadySent(r, p, k)
    ensures SpacedBaseOf(r.sends, r.now, p.minDelay, r.slot.notBefore) == k * p.minDelay
    ensures r.now <= k * p.minDelay
  {
    if 0 < k {
      assert r.sends[k - 1] == (k - 1) * p.minDelay;
      assert k * p.minDelay == (k - 1) * p.minDelay + p.minDelay;
    }
  }

  lemma {:induction false} EvictedKeepsLast(s: seq<int>, last: int, cutoff: int)
    requires cutoff < last
    ensures Evicted(s + [last], cutoff) == Evicted(s, cutoff) + [last]
  {
    if s != [] && s[0] <= cutoff {
      assert (s + [last])[1..] == s[1..] + [last];
      EvictedKeepsLast(s[1..], last, cutoff);
    }
  }

  /** What one admission does to a spaced slot, by its history. */
  lemma SpacedAdmitIs(p: Pacing, cap: nat, r: Run, base: int, live: seq<int>)
    requires p.Valid() && p.spaceSends && 0 < p.limit && Reachable(p, cap, r) && |r.inFlight| < cap
    requires base == SpacedBaseOf(r.sends, r.now, p.minDelay, r.slot.notBefore)
    requires live == Evicted(r.slot.sent, base - p.period)
    ensures var at := base + WindowWait(live, p.limit, p.period, base);
            var s := Next(r, p, Admit);
            && Reachable(p, cap, s)
            && s.sends == r.sends + [at] && s.slot.sent == live + [at]
            && s.inFlight == r.inFlight + multiset{at}
            && s.now == r.now && s.slot.notBefore == r.slot.notBefore
  {
    hide Reachable, WindowWait, SpacedInv, SpacedBaseOf, Base, Next, Evicted;
    ReachableSpaced(p, cap, r);
    SpacedAdmitFields(r, p);
    ReachesNext(p, cap, r, Admit);
  }

  lemma SteadyList(p: Pacing)
    requires SpacedTooFast(p)
    ensures var s := Steady(p.minDelay, p.limit);
            && s[0] == 0 && 0 <= p.minDelay <= p.limit * p.minDelay
            && (forall i :: 0 <= i < |s| ==> 0 <= s[i] < p.period)
  {
    SteadyBelow(p.minDelay, p.limit, p.limit);
    assert (p.limit - 1) * p.minDelay == p.limit * p.minDelay - p.minDelay;
  }

  /** What the eviction at one spacing past the period leaves of the steady sends. */
  lemma SteadyKept(p: Pacing)
    requires SpacedTooFast(p)
    ensures var kept := Evicted(Steady(p.minDelay, p.limit), p.minDelay);
            |kept| < p.limit && forall i :: 0 <= i < |kept| ==> 0 <= kept[i] < p.period
  {
    var s := Steady(p.minDelay, p.limit);
    SteadyList(p);
    EvictedIsSuffix(s, p.minDelay);
    EvictedIsSuffix(s[1..], p.minDelay);
  }

  /** After limit steady sends the next caller books a period after the first. */
  lemma ReachesFirstLate(p: Pacing, cap: nat) returns (r: Run)
    requires SpacedTooFast(p) && 2 <= cap
    ensures Reachable(p, cap, r) && r.inFlight == multiset{p.period} && r.slot.notBefore == None
    ensures r.sends == r.slot.sent == Steady(p.minDelay, p.limit) + [p.period]
    ensures r.now <= p.limit * p.minDelay
    ensures SpacedBaseOf(Steady(p.minDelay, p.limit), r.now, p.minDelay, None) == p.limit * p.minDelay
  {
    hide Reachable;
    SteadyList(p);
    var r0 := ReachesSteady(p, cap, p.limit);
    SteadyBase(r0, p, p.limit);
    SpacedAdmitIs(p, cap, r0, p.limit * p.minDelay, Steady(p.minDelay, p.limit));
    r := Next(r0, p, Admit);
    assert multiset{} + multiset{p.period} == multiset{p.period};
  }

  /** The caller behind it books later still, and evicts the first real send. */
  lemma ReachesForgetful(p: Pacing, cap: nat) returns (r: Run, second: int)
    requires SpacedTooFast(p) && 2 <= cap
    ensures Reachable(p, cap, r) && p.period <= second
    ensures r.sends == Steady(p.minDelay, p.limit) + [p.period] + [second]
    ensures r.slot.sent == Evicted(Steady(p.minDelay, p.limit), p.minDelay) + [p.period] + [second]
    ensures r.inFlight == multiset{p.period, second} && r.slot.notBefore == None
    ensures SpacedBaseOf(Steady(p.minDelay, p.limit), r.now, p.minDelay, None) == p.limit * p.minDelay
  {
    hide Reachable, Evicted, Steady;
    var P, s := p.period, Steady(p.minDelay, p.limit);
    var r1 := ReachesFirstLate(p, cap);
    assert p.minDelay < P by { SteadyList(p); }
    EvictedKeepsLast(s, P, p.minDelay);
    SpacedAdmitIs(p, cap, r1, P + p.minDelay, Evicted(s, p.minDelay) + [P]);
    r := Next(r1, p, Admit);
    second := r.sends[|r.sends| - 1];
    assert multiset{P} + multiset{second} == multiset{P, second};
  }

  /** Both give up, and only the steady sends are left. */
  lemma ReachesBothWithdrawn(p: Pacing, cap: nat) returns (r: Run)
    requires SpacedTooFast(p) && 2 <= cap
    ensures Reachable(p, cap, r) && r.inFlight == multiset{} && r.slot.notBefore == None
    ensures r.sends == Steady(p.minDelay, p.limit)
    ensures r.slot.sent == Evicted(Steady(p.minDelay, p.limit), p.minDelay)
    ensures SpacedBaseOf(r.sends, r.now, p.minDelay, None) == p.limit * p.minDelay
  {
    hide Reachable, Evicted, Steady, SpacedBaseOf;
    var P, s := p.period, Steady(p.minDelay, p.limit);
    var kept := Evicted(s, p.minDelay);
    var r0, second := ReachesForgetful(p, cap);
    SteadyList(p);
    SteadyKept(p);
    ReachesNext(p, cap, r0, Withdraw(P));
    var r1 := Next(r0, p, Withdraw(P));
    WithdrawBehind(kept, P, second);
    WithdrawBehind(s, P, second);
    assert multiset{P, second} - multiset{P} == multiset{second};
    ReachesNext(p, cap, r1, Withdraw(second));
    r := Next(r1, p, Withdraw(second));
    WithdrawOnlyLast(kept, second);
    WithdrawOnlyLast(s, second);
    assert multiset{second} - multiset{second} == multiset{};
  }

  lemma WithdrawOnlyLast(front: seq<int>, last: int)
    requires last !in front
    ensures RemoveFirst(front + [last], last) == front
  {
    RemoveFirstSkips(front, [last], last);
    assert front + [] == front;
  }

  /** What is left of the window has room for one send too many. */
  lemma ReachesOvercrowded(p: Pacing, cap: nat) returns (r: Run)
    requires SpacedTooFast(p) && 2 <= cap
    ensures Reachable(p, cap, r) && r.sends == Steady(p.minDelay, p.limit + 1)
  {
    hide Reachable;
    var kept := Evicted(Steady(p.minDelay, p.limit), p.minDelay);
    var r0 := ReachesBothWithdrawn(p, cap);
    SteadyKept(p);
    SteadyGrows(p.minDelay, p.limit);
    SpacedAdmitIs(p, cap, r0, p.limit * p.minDelay, kept);
    r := Next(r0, p, Admit);
  }

  /** A send-spaced slot keeps its quota under withdrawals exactly when one caller
      can be in flight at a time or limit spacings fill a period. */
  lemma SpacedQuotaExactly(p: Pacing, cap: nat)
    requires p.Valid() && 0 < p.limit && p.spaceSends
    ensures QuotaSafe(p, cap) <==> cap <= 1 || p.period <= p.limit * p.minDelay
  {
    if cap <= 1 || p.period <= p.limit * p.minDelay {
      forall start, steps | Legal(p, cap, start, steps)
        ensures QuotaHolds(Exec(p, start, steps).sends, p.limit, p.period)
      {
        SpacedQuota(p, cap, start, steps);
      }
    } else {
      var r := ReachesOvercrowded(p, cap);
      SteadyBelow(p.minDelay, p.limit + 1, p.limit + 1);
      SteadyList(p);
      SteadyGrows(p.minDelay, p.limit);
      CountInAll(r.sends, 0, p.period);
      var start, steps :| Legal(p, cap, start, steps) && Exec(p, start, steps) == r;
      assert p.limit < CountIn(Exec(p, start, steps).sends, 0, p.period);
    }
  }
}
