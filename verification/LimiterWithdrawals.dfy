/** When the rolling quota survives withdrawn bookings. Completion-spaced slots keep
    it on every run when at most two callers are in flight or the limit is one;
    send-spaced slots keep it when one caller is in flight at a time or the spacing
    alone is enough. LimiterExact shows that nothing less will do. */
module LimiterWithdrawals {
  import opened Instants
  import opened DomainSlots
  import opened LimiterRuns

  // ----- completion-spaced, two callers in flight -----

  /** Bookings past the base instant are still in flight. */
  ghost predicate LateArePending(sends: seq<int>, inFlight: multiset<int>, base: int) {
    forall x :: base < x ==> multiset(sends)[x] <= inFlight[x]
  }

  /** The last booking, when it is past the base instant, stands `limit` places
      behind a booking at most one period earlier, counted over the bookings that
      can no longer be withdrawn from in front of it. */
  ghost predicate LastSupported(sends: seq<int>, inFlight: nat, limit: nat, period: int, base: int) {
    var n := |sends|;
    0 < n && base < sends[n - 1] ==>
      && 0 < limit && 0 < inFlight && limit + inFlight <= n + 1
      && sends[n - 1] <= sends[n + 1 - inFlight - limit] + period
  }

  lemma SupportLater(sends: seq<int>, inFlight: multiset<int>, limit: nat, period: int, base: int, later: int)
    requires LateArePending(sends, inFlight, base) && LastSupported(sends, |inFlight|, limit, period, base)
    requires base <= later
    ensures LateArePending(sends, inFlight, later) && LastSupported(sends, |inFlight|, limit, period, later)
  {
  }

  lemma LatePending(sends: seq<int>, inFlight: multiset<int>, base: int)
    requires LateArePending(sends, inFlight, base)
    requires sends != [] && base < sends[|sends| - 1]
    ensures 0 < |inFlight|
  {
    var last := sends[|sends| - 1];
    assert last in multiset(sends);
    assert 0 < inFlight[last];
  }

  lemma SupportCompleted(sends: seq<int>, inFlight: multiset<int>, limit: nat, period: int, base: int, at: int)
    requires Sorted(sends) && LastSupported(sends, |inFlight|, limit, period, base)
    requires LateArePending(sends, inFlight, base) && at in inFlight && at <= base
    ensures LateArePending(sends, inFlight - multiset{at}, base)
    ensures LastSupported(sends, |inFlight| - 1, limit, period, base)
  {
    var n, k := |sends|, |inFlight|;
    assert |inFlight - multiset{at}| == k - 1;
    if 0 < n && base < sends[n - 1] {
      LatePending(sends, inFlight - multiset{at}, base);
      assert sends[n + 1 - k - limit] <= sends[n + 1 - (k - 1) - limit];
    }
  }

  /** The elements of an ordered list only grow in place when one is removed. */
  ghost predicate Shifted(s: seq<int>, r: seq<int>) {
    && |s| - 1 <= |r| <= |s|
    && (forall i {:trigger r[i]} :: 0 <= i < |r| ==> s[i] <= r[i])
    && (r != [] ==> r[|r| - 1] <= s[|s| - 1])
  }

  lemma WithoutPlaceShifted(s: seq<int>, r: seq<int>, k: nat)
    requires Sorted(s) && WithoutPlace(s, r, k)
    ensures Shifted(s, r)
  {
  }

  lemma RemoveFirstShifts(s: seq<int>, v: int)
    requires Sorted(s)
    ensures Shifted(s, RemoveFirst(s, v))
  {
    if v in s {
      RemoveFirstPlace(s, v);
      WithoutPlaceShifted(s, RemoveFirst(s, v), FirstIndex(s, v));
    } else {
      RemoveFirstAbsent(s, v);
    }
  }

  lemma LateWithdrawn(sends: seq<int>, inFlight: multiset<int>, base: int, at: int)
    requires LateArePending(sends, inFlight, base) && at in inFlight
    ensures LateArePending(RemoveFirst(sends, at), inFlight - multiset{at}, base)
  {
    RemoveFirstMultiset(sends, at);
  }

  lemma SupportWithdrawn(sends: seq<int>, inFlight: multiset<int>, limit: nat, period: int, base: int, at: int)
    requires Sorted(sends) && LastSupported(sends, |inFlight|, limit, period, base)
    requires LateArePending(sends, inFlight, base) && at in inFlight
    ensures LateArePending(RemoveFirst(sends, at), inFlight - multiset{at}, base)
    ensures LastSupported(RemoveFirst(sends, at), |inFlight| - 1, limit, period, base)
  {
    hide Sorted, LateArePending, RemoveFirst, Shifted;
    var rest, others := RemoveFirst(sends, at), inFlight - multiset{at};
    assert |others| == |inFlight| - 1;
    LateWithdrawn(sends, inFlight, base, at);
    RemoveFirstShifts(sends, at);
    RemoveFirstSorted(sends, at);
    if rest != [] && base < rest[|rest| - 1] {
      LatePending(rest, others, base);
      SupportIndex(sends, rest, |inFlight|, limit, period);
    }
  }

  lemma SupportIndex(sends: seq<int>, rest: seq<int>, k: nat, limit: nat, period: int)
    requires 0 < limit && 1 < k && Sorted(sends) && Sorted(rest)
    requires Shifted(sends, rest) && rest != []
    requires sends != [] && limit + k <= |sends| + 1
    requires sends[|sends| - 1] <= sends[|sends| + 1 - k - limit] + period
    ensures limit + (k - 1) <= |rest| + 1
    ensures rest[|rest| - 1] <= rest[|rest| + 1 - (k - 1) - limit] + period
  {
    var i, j := |sends| + 1 - k - limit, |rest| + 1 - (k - 1) - limit;
    assert i <= j < |rest|;
    assert sends[i] <= rest[i] <= rest[j];
  }

  lemma SupportBooked(sends: seq<int>, inFlight: multiset<int>, limit: nat, period: int, base: int, at: int)
    requires 0 < limit && |inFlight| <= 1 && Sorted(sends + [at])
    requires LateArePending(sends, inFlight, base)
    requires base < at ==> limit <= |sends| && at == sends[|sends| - limit] + period
    ensures LateArePending(sends + [at], inFlight + multiset{at}, base)
    ensures LastSupported(sends + [at], |inFlight| + 1, limit, period, base)
  {
    var all := sends + [at];
    assert multiset(all) == multiset(sends) + multiset{at};
    if base < at {
      assert all[|sends| - limit] <= all[|sends| + 1 - |inFlight| - limit];
    }
  }

  /** With at most one other caller in flight, a booking is never before the last. */
  lemma SupportOrders(sends: seq<int>, inFlight: multiset<int>, limit: nat, period: int, base: int, at: int)
    requires 0 < limit && |inFlight| <= 1 && base <= at
    requires LateArePending(sends, inFlight, base) && LastSupported(sends, |inFlight|, limit, period, base)
    requires limit <= |sends| ==> sends[|sends| - limit] + period <= at
    ensures sends != [] ==> sends[|sends| - 1] <= at
  {
    if sends != [] && base < sends[|sends| - 1] {
      LatePending(sends, inFlight, base);
    }
  }

  ghost predicate TwoInFlight(r: Run, p: Pacing, base: int)
    requires 0 < p.limit
  {
    && Kept(r.sends, r.slot.sent, p.limit, p.period, base)
    && LateArePending(r.sends, r.inFlight, base)
    && LastSupported(r.sends, |r.inFlight|, p.limit, p.period, base)
    && (r.slot.lastSend.Some? ==> r.slot.lastSend.value <= r.now)
    && |r.inFlight| <= 2
  }

  /** What an admission does to a completion-spaced slot, field by field. */
  lemma CompletionAdmitFields(r: Run, p: Pacing)
    requires !p.spaceSends
    ensures var b := BookInto(r.slot.sent, p.limit, p.period, Base(r.slot, p, r.now));
            var s := Next(r, p, Admit);
            && s.sends == r.sends + [b.at] && s.slot.sent == b.sent
            && s.inFlight == r.inFlight + multiset{b.at}
            && s.now == r.now && s.slot.lastSend == r.slot.lastSend
  {
    hide BookInto, Base;
  }

  lemma SupportAdmits(sends: seq<int>, sent: seq<int>, inFlight: multiset<int>, limit: nat, period: int, base: int)
    requires 0 < limit && |inFlight| <= 1 && Kept(sends, sent, limit, period, base)
    requires LateArePending(sends, inFlight, base) && LastSupported(sends, |inFlight|, limit, period, base)
    ensures var b := BookInto(sent, limit, period, base);
            && Kept(sends + [b.at], b.sent, limit, period, base)
            && LateArePending(sends + [b.at], inFlight + multiset{b.at}, base)
            && LastSupported(sends + [b.at], |inFlight| + 1, limit, period, base)
  {
    hide Sorted, Spread, IsTail, LateArePending, LastSupported, BookInto;
    var at := BookInto(sent, limit, period, base).at;
    BookWaitsForHistory(sends, sent, base - period, limit, period, base);
    SupportOrders(sends, inFlight, limit, period, base, at);
    KeptBooked(sends, sent, limit, period, base);
    SupportBooked(sends, inFlight, limit, period, base, at);
  }

  lemma TwoInFlightAdmit(r: Run, p: Pacing)
    requires p.Valid() && 0 < p.limit && !p.spaceSends
    requires TwoInFlight(r, p, Base(r.slot, p, r.now)) && |r.inFlight| < 2
    ensures TwoInFlight(Next(r, p, Admit), p, Base(r.slot, p, r.now))
  {
    hide Kept, LateArePending, LastSupported, Next, Base, BookInto;
    var base := Base(r.slot, p, r.now);
    CompletionAdmitFields(r, p);
    SupportAdmits(r.sends, r.slot.sent, r.inFlight, p.limit, p.period, base);
    assert |Next(r, p, Admit).inFlight| == |r.inFlight| + 1;
  }

  lemma TwoInFlightWithdraw(r: Run, p: Pacing, base: int, at: int)
    requires 0 < p.limit && TwoInFlight(r, p, base) && at in r.inFlight
    ensures TwoInFlight(Next(r, p, Withdraw(at)), p, base)
  {
    hide Spread, IsTail, LateArePending, LastSupported;
    KeptWithdrawn(r.sends, r.slot.sent, p.limit, p.period, base, at);
    SupportWithdrawn(r.sends, r.inFlight, p.limit, p.period, base, at);
    assert |r.inFlight - multiset{at}| == |r.inFlight| - 1;
  }

  lemma TwoInFlightComplete(r: Run, p: Pacing, base: int, at: int)
    requires 0 < p.limit && TwoInFlight(r, p, base) && at in r.inFlight && at <= base
    ensures TwoInFlight(Next(r, p, Complete(at)), p, base)
  {
    hide Spread, IsTail, LateArePending, LastSupported;
    SupportCompleted(r.sends, r.inFlight, p.limit, p.period, base, at);
    assert |r.inFlight - multiset{at}| == |r.inFlight| - 1;
  }

  lemma TwoInFlightLater(r: Run, p: Pacing, base: int, later: int)
    requires 0 < p.limit && TwoInFlight(r, p, base) && base <= later
    ensures TwoInFlight(r, p, later)
  {
    KeptLater(r.sends, r.slot.sent, p.limit, p.period, base, later);
    SupportLater(r.sends, r.inFlight, p.limit, p.period, base, later);
  }

  lemma TwoInFlightStep(r: Run, p: Pacing, step: Step)
    requires p.Valid() && 0 < p.limit && !p.spaceSends && Enabled(r, 2, step)
    requires TwoInFlight(r, p, Base(r.slot, p, r.now))
    ensures TwoInFlight(Next(r, p, step), p, Base(Next(r, p, step).slot, p, Next(r, p, step).now))
  {
    hide Kept, LateArePending, LastSupported;
    var s, base := Next(r, p, step), Base(r.slot, p, r.now);
    match step {
      case Admit => TwoInFlightAdmit(r, p);
      case Withdraw(at) => TwoInFlightWithdraw(r, p, base, at);
      case Complete(at) => TwoInFlightComplete(r, p, base, at);
      case _ =>
    }
    CompletionBaseNeverEarlier(r, p, step);
    TwoInFlightLater(s, p, base, Base(s.slot, p, s.now));
  }

  lemma {:induction false} TwoInFlightHolds(p: Pacing, cap: nat, start: int, steps: seq<Step>)
    requires p.Valid() && 0 < p.limit && !p.spaceSends && cap <= 2
    requires Legal(p, cap, start, steps)
    ensures TwoInFlight(Exec(p, start, steps), p, Base(Exec(p, start, steps).slot, p, Exec(p, start, steps).now))
  {
    if steps != [] {
      TwoInFlightHolds(p, cap, start, steps[..|steps| - 1]);
      TwoInFlightStep(Exec(p, start, steps[..|steps| - 1]), p, steps[|steps| - 1]);
    }
  }

  // ----- completion-spaced, a limit of one -----

  ghost predicate SingleInv(r: Run, p: Pacing) {
    && Kept(r.sends, r.slot.sent, 1, p.period, Base(r.slot, p, r.now))
    && (r.slot.lastSend.Some? ==> r.slot.lastSend.value <= r.now)
  }

  lemma SingleStep(r: Run, p: Pacing, step: Step)
    requires p.Valid() && p.limit == 1 && !p.spaceSends && SingleInv(r, p)
    ensures SingleInv(Next(r, p, step), p)
  {
    hide Sorted, Spread, IsTail;
    var s, base := Next(r, p, step), Base(r.slot, p, r.now);
    match step {
      case Admit =>
        BookWaitsForHistory(r.sends, r.slot.sent, base - p.period, 1, p.period, base);
        KeptBooked(r.sends, r.slot.sent, 1, p.period, base);
      case Withdraw(at) => KeptWithdrawn(r.sends, r.slot.sent, 1, p.period, base, at);
      case _ =>
    }
    CompletionBaseNeverEarlier(r, p, step);
    KeptLater(s.sends, s.slot.sent, 1, p.period, base, Base(s.slot, p, s.now));
  }

  lemma {:induction false} SingleHolds(p: Pacing, start: int, steps: seq<Step>)
    requires p.Valid() && p.limit == 1 && !p.spaceSends
    ensures SingleInv(Exec(p, start, steps), p)
  {
    if steps != [] {
      SingleHolds(p, start, steps[..|steps| - 1]);
      SingleStep(Exec(p, start, steps[..|steps| - 1]), p, steps[|steps| - 1]);
    }
  }

  /** With any withdrawals and holds, a completion-spaced slot keeps its quota on
      every run with at most two callers in flight, or with a limit of one. */
  lemma CompletionQuota(p: Pacing, cap: nat, start: int, steps: seq<Step>)
    requires p.Valid() && 0 < p.limit && !p.spaceSends && (cap <= 2 || p.limit == 1)
    requires Legal(p, cap, start, steps)
    ensures Sorted(Exec(p, start, steps).sends)
    ensures Spread(Exec(p, start, steps).sends, p.limit, p.period)
    ensures QuotaHolds(Exec(p, start, steps).sends, p.limit, p.period)
  {
    if cap <= 2 {
      TwoInFlightHolds(p, cap, start, steps);
    } else {
      SingleHolds(p, start, steps);
    }
    SpreadImpliesQuota(Exec(p, start, steps).sends, p.limit, p.period);
  }

  // ----- send-spaced, one caller in flight -----

  /** The bookings that were sent; the one in flight, if any, is the last. */
  ghost function Settled(r: Run): seq<int>
    requires r.inFlight == multiset{} || r.sends != []
  {
    if r.inFlight == multiset{} then r.sends else r.sends[..|r.sends| - 1]
  }

  ghost function SettledBase(r: Run, p: Pacing): int
    requires r.inFlight == multiset{} || r.sends != []
  {
    SpacedBaseOf(Settled(r), r.now, p.minDelay, r.slot.notBefore)
  }

  ghost predicate AloneInv(r: Run, p: Pacing)
    requires 0 < p.limit
  {
    && (r.inFlight == multiset{} || (r.sends != [] && r.inFlight == multiset{r.sends[|r.sends| - 1]}))
    && (forall i :: 0 <= i < |Settled(r)| ==> Settled(r)[i] <= r.now)
    && Kept(r.sends, r.slot.sent, p.limit, p.period, SettledBase(r, p))
  }

  lemma {:induction false} WithdrawLast(s: seq<int>)
    requires s != [] && Sorted(s)
    ensures RemoveFirst(s, s[|s| - 1]) == s[..|s| - 1]
  {
    var v := s[|s| - 1];
    if s[0] == v {
      assert forall i :: 0 <= i < |s| ==> s[i] == v;
      assert s[1..] == s[..|s| - 1];
    } else {
      WithdrawLast(s[1..]);
      assert s[..|s| - 1] == [s[0]] + s[1..][..|s| - 2];
    }
  }

  lemma AloneAdmit(r: Run, p: Pacing)
    requires p.Valid() && 0 < p.limit && p.spaceSends && SpacedInv(r, p)
    requires AloneInv(r, p) && r.inFlight == multiset{}
    ensures AloneInv(Next(r, p, Admit), p)
  {
    hide Sorted, Spread, IsTail, SpacedInv, BookInto, Next, Base;
    SpacedAdmitFields(r, p);
    var s, base := Next(r, p, Admit), SpacedBaseOf(r.sends, r.now, p.minDelay, r.slot.notBefore);
    KeptBooked(r.sends, r.slot.sent, p.limit, p.period, base);
    AloneBooked(r, s, p, BookInto(r.slot.sent, p.limit, p.period, base).at);
  }

  lemma AloneBooked(r: Run, s: Run, p: Pacing, at: int)
    requires r.inFlight == multiset{} && s.inFlight == r.inFlight + multiset{at}
    requires s.sends == r.sends + [at] && s.now == r.now && s.slot.notBefore == r.slot.notBefore
    ensures s.inFlight == multiset{at} && Settled(s) == r.sends && SettledBase(s, p) == SettledBase(r, p)
  {
    assert s.sends[..|s.sends| - 1] == r.sends;
  }

  lemma AloneWithdraw(r: Run, p: Pacing, at: int)
    requires p.Valid() && 0 < p.limit && AloneInv(r, p) && at in r.inFlight
    ensures AloneInv(Next(r, p, Withdraw(at)), p)
  {
    hide Spread, IsTail, SpacedBaseOf, RemoveFirst;
    WithdrawLast(r.sends);
    KeptWithdrawn(r.sends, r.slot.sent, p.limit, p.period, SettledBase(r, p), at);
    assert r.inFlight - multiset{at} == multiset{};
  }

  lemma AloneComplete(r: Run, p: Pacing, at: int)
    requires p.Valid() && 0 < p.limit && p.spaceSends && AloneInv(r, p) && at in r.inFlight && at <= r.now
    ensures AloneInv(Next(r, p, Complete(at)), p)
  {
    hide Spread, IsTail;
    var s := Next(r, p, Complete(at));
    assert s.inFlight == multiset{} && s.sends == r.sends;
    assert r.sends == Settled(r) + [at];
    SettledGrows(Settled(r), at, r.now, p.minDelay, r.slot.notBefore);
    KeptLater(r.sends, r.slot.sent, p.limit, p.period, SettledBase(r, p), SettledBase(s, p));
  }

  lemma SettledGrows(settled: seq<int>, at: int, now: int, minDelay: int, notBefore: Option<int>)
    requires Sorted(settled + [at])
    ensures SpacedBaseOf(settled, now, minDelay, notBefore) <= SpacedBaseOf(settled + [at], now, minDelay, notBefore)
  {
    if settled != [] {
      assert (settled + [at])[|settled| - 1] <= (settled + [at])[|settled|];
    }
  }

  lemma AloneOther(r: Run, p: Pacing, step: Step)
    requires p.Valid() && 0 < p.limit && AloneInv(r, p) && (step.Tick? || step.Penalize?)
    ensures AloneInv(Next(r, p, step), p)
  {
    hide Kept;
    KeptLater(r.sends, r.slot.sent, p.limit, p.period, SettledBase(r, p), SettledBase(Next(r, p, step), p));
  }

  lemma AloneStep(r: Run, p: Pacing, step: Step)
    requires p.Valid() && 0 < p.limit && p.spaceSends && SpacedInv(r, p)
    requires AloneInv(r, p) && Enabled(r, 1, step)
    ensures AloneInv(Next(r, p, step), p)
  {
    hide Kept, SpacedInv, Next;
    match step
    case Admit =>
      assert r.inFlight == multiset{};
      AloneAdmit(r, p);
    case Withdraw(at) => AloneWithdraw(r, p, at);
    case Complete(at) => AloneComplete(r, p, at);
    case _ => AloneOther(r, p, step);
  }

  lemma {:induction false} AloneHolds(p: Pacing, cap: nat, start: int, steps: seq<Step>)
    requires p.Valid() && 0 < p.limit && p.spaceSends && cap <= 1
    requires Legal(p, cap, start, steps)
    ensures AloneInv(Exec(p, start, steps), p)
  {
    if steps != [] {
      AloneHolds(p, cap, start, steps[..|steps| - 1]);
      SpacedHolds(p, start, steps[..|steps| - 1]);
      AloneStep(Exec(p, start, steps[..|steps| - 1]), p, steps[|steps| - 1]);
    }
  }

  // ----- send-spaced, spacing wide enough for the quota -----

  lemma {:induction false} SpacingScales(s: seq<int>, gap: int, i: nat, j: nat)
    requires 0 <= gap && Spread(s, 1, gap) && i <= j < |s|
    ensures s[i] + (j - i) * gap <= s[j]
    decreases j
  {
    if i < j {
      SpacingScales(s, gap, i, j - 1);
      assert s[j - 1] + gap <= s[j];
      assert (j - i) * gap == (j - 1 - i) * gap + gap;
    }
  }

  lemma SpacingImpliesSpread(s: seq<int>, gap: int, limit: nat, period: int)
    requires 0 <= gap && Spread(s, 1, gap) && period <= limit * gap
    ensures Spread(s, limit, period)
  {
    forall i, j | 0 <= i && i + limit <= j < |s|
      ensures s[i] + period <= s[j]
    {
      SpacingScales(s, gap, i, j);
      assert limit * gap <= (j - i) * gap;
    }
  }

  /** With any withdrawals and holds, a send-spaced slot keeps its quota on every
      run with one caller in flight, or when limit sends fill a period anyway. */
  lemma SpacedQuota(p: Pacing, cap: nat, start: int, steps: seq<Step>)
    requires p.Valid() && 0 < p.limit && p.spaceSends && (cap <= 1 || p.period <= p.limit * p.minDelay)
    requires Legal(p, cap, start, steps)
    ensures Spread(Exec(p, start, steps).sends, p.limit, p.period)
    ensures QuotaHolds(Exec(p, start, steps).sends, p.limit, p.period)
  {
    if cap <= 1 {
      AloneHolds(p, cap, start, steps);
    } else {
      SpacedHolds(p, start, steps);
      SpacingImpliesSpread(Exec(p, start, steps).sends, p.minDelay, p.limit, p.period);
    }
    SpreadImpliesQuota(Exec(p, start, steps).sends, p.limit, p.period);
  }
}
