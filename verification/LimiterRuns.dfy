/** Runs of one host's slot. A run interleaves, in any order, the critical
    sections of all callers of the host: a caller holding one of the semaphore's
    places books an admission, hands it back, or sends and finishes; an upstream
    imposes a hold; the clock advances. `sends` is the history of the bookings
    that were not withdrawn, in the order they were made. */
module LimiterRuns {
  import opened Instants
  import opened DomainSlots

  datatype Step =
    | Tick(ms: nat)
    | Admit
    | Withdraw(at: int)
    | Complete(at: int)
    | Penalize(hold: int)

  datatype Run = Run(slot: Slot, now: int, inFlight: multiset<int>, sends: seq<int>)

  ghost function Start(now: int): Run {
    Run(FRESH_SLOT, now, multiset{}, [])
  }

  /** A caller needs a place in the semaphore to book; it may give up at any time
      before it sends; a request completes after its booked instant. */
  ghost predicate Enabled(r: Run, cap: nat, step: Step) {
    match step
    case Tick(_) => true
    case Admit => |r.inFlight| < cap
    case Withdraw(at) => at in r.inFlight
    case Complete(at) => at in r.inFlight && at <= r.now
    case Penalize(_) => true
  }

  ghost function Next(r: Run, p: Pacing, step: Step): Run {
    match step
    case Tick(ms) => r.(now := r.now + ms)
    case Admit =>
      var b := Reserve(r.slot, p, r.now);
      Run(b.slot, r.now, r.inFlight + multiset{b.at}, r.sends + [b.at])
    case Withdraw(at) =>
      Run(Unbook(r.slot, p, at), r.now, r.inFlight - multiset{at}, RemoveFirst(r.sends, at))
    case Complete(at) =>
      r.(slot := Finish(r.slot, p, r.now), inFlight := r.inFlight - multiset{at})
    case Penalize(hold) =>
      if hold <= 0 then r else r.(slot := Hold(r.slot, r.now + hold))
  }

  ghost function Exec(p: Pacing, start: int, steps: seq<Step>): Run {
    if steps == [] then Start(start)
    else Next(Exec(p, start, steps[..|steps| - 1]), p, steps[|steps| - 1])
  }

  ghost predicate Legal(p: Pacing, cap: nat, start: int, steps: seq<Step>) {
    steps == [] ||
    (Legal(p, cap, start, steps[..|steps| - 1]) &&
     Enabled(Exec(p, start, steps[..|steps| - 1]), cap, steps[|steps| - 1]))
  }

  ghost predicate WithoutWithdrawals(steps: seq<Step>) {
    forall i :: 0 <= i < |steps| ==> !steps[i].Withdraw?
  }

  /** Every legal run of a slot with these settings keeps the rolling quota. */
  ghost predicate QuotaSafe(p: Pacing, cap: nat)
    requires 0 < p.limit
  {
    forall start, steps ::
      Legal(p, cap, start, steps) ==> QuotaHolds(Exec(p, start, steps).sends, p.limit, p.period)
  }

  ghost predicate Reachable(p: Pacing, cap: nat, r: Run) {
    exists start, steps :: Legal(p, cap, start, steps) && Exec(p, start, steps) == r
  }

  lemma ReachesStart(p: Pacing, cap: nat, start: int)
    ensures Reachable(p, cap, Start(start))
  {
    assert Legal(p, cap, start, []) && Exec(p, start, []) == Start(start);
  }

  lemma ReachesNext(p: Pacing, cap: nat, r: Run, step: Step)
    requires Reachable(p, cap, r) && Enabled(r, cap, step)
    ensures Reachable(p, cap, Next(r, p, step))
  {
    var start, steps :| Legal(p, cap, start, steps) && Exec(p, start, steps) == r;
    var more := steps + [step];
    assert more[..|more| - 1] == steps;
    assert Legal(p, cap, start, more) && Exec(p, start, more) == Next(r, p, step);
  }

  // ----- the slot's lists are tails of the history -----

  lemma TailEvicted(all: seq<int>, tail: seq<int>, bound: int, cutoff: int)
    requires IsTail(all, tail, bound) && bound <= cutoff
    ensures IsTail(all, Evicted(tail, cutoff), cutoff)
  {
    EvictedIsSuffix(tail, cutoff);
    var live := Evicted(tail, cutoff);
    forall i | 0 <= i < |all| - |live|
      ensures all[i] <= cutoff
    {
      if |all| - |tail| <= i {
        assert all[i] == tail[i - (|all| - |tail|)];
      }
    }
  }

  /** Withdrawing a booking from the history and from a tail of it leaves a tail. */
  lemma TailWithdrawn(all: seq<int>, tail: seq<int>, bound: int, at: int)
    requires Sorted(all) && IsTail(all, tail, bound)
    ensures IsTail(RemoveFirst(all, at), RemoveFirst(tail, at), bound)
  {
    var front := all[..|all| - |tail|];
    assert all == front + tail;
    if at !in front {
      RemoveFirstSkips(front, tail, at);
      TailOf(front, RemoveFirst(tail, at), bound);
    } else {
      WithdrawnInFront(front, tail, bound, at);
    }
  }

  lemma WithdrawnInFront(front: seq<int>, tail: seq<int>, bound: int, at: int)
    requires Sorted(front + tail) && at in front
    requires forall i :: 0 <= i < |front| ==> front[i] <= bound
    ensures IsTail(RemoveFirst(front + tail, at), RemoveFirst(tail, at), bound)
  {
    hide IsTail;
    RemoveFirstInFront(front, tail, at);
    WithdrawnBelow(front, at, bound);
    if at in tail {
      HeadOfTail(front, tail, at);
      assert RemoveFirst(front, at) + tail == RemoveFirst(front, at) + [at] + tail[1..];
      TailOf(RemoveFirst(front, at) + [at], tail[1..], bound);
    } else {
      RemoveFirstAbsent(tail, at);
      TailOf(RemoveFirst(front, at), tail, bound);
    }
  }

  lemma TailOf(front: seq<int>, tail: seq<int>, bound: int)
    requires forall i :: 0 <= i < |front| ==> front[i] <= bound
    ensures IsTail(front + tail, tail, bound)
  {
  }

  lemma WithdrawnBelow(front: seq<int>, at: int, bound: int)
    requires forall i :: 0 <= i < |front| ==> front[i] <= bound
    ensures forall i :: 0 <= i < |RemoveFirst(front, at)| ==> RemoveFirst(front, at)[i] <= bound
  {
    if at in front {
      RemoveFirstPlace(front, at);
    } else {
      RemoveFirstAbsent(front, at);
    }
  }

  lemma HeadOfTail(front: seq<int>, tail: seq<int>, at: int)
    requires Sorted(front + tail) && at in front && at in tail
    ensures tail[0] == at
  {
    var i :| 0 <= i < |front| && front[i] == at;
    var j :| 0 <= j < |tail| && tail[j] == at;
    var all := front + tail;
    assert all[i] == at && all[|front|] == tail[0] && all[|front| + j] == at;
  }

  /** The spacing is measured from the latest surviving booking, whatever was
      pruned or withdrawn before. */
  lemma SpacedFromLatest(sends: seq<int>, booked: seq<int>, pruned: int, now: int, minDelay: int)
    requires Sorted(sends) && IsTail(sends, booked, pruned - minDelay) && pruned <= now
    ensures SpacedFrom(booked, now, minDelay)
         == if sends == [] then now else Max(now, sends[|sends| - 1] + minDelay)
  {
    TailEvicted(sends, booked, pruned - minDelay, now - minDelay);
    EvictedIsSuffix(booked, now - minDelay);
  }

  // ----- one admission against the history -----

  /** What an admission books, when everything evicted so far is a whole period
      before the base instant: it waits for the booking `limit` places back in
      the whole history, and for nothing else. */
  lemma BookWaitsForHistory(all: seq<int>, sent: seq<int>, bound: int, limit: int, period: int, at: int)
    requires 0 < limit && IsTail(all, sent, bound) && bound <= at - period
    ensures var b := BookInto(sent, limit, period, at);
            && at <= b.at
            && (limit <= |all| ==> all[|all| - limit] + period <= b.at)
            && (at < b.at ==> limit <= |all| && b.at == all[|all| - limit] + period)
            && IsTail(all + [b.at], b.sent, at - period)
  {
    TailEvicted(all, sent, bound, at - period);
    var live := Evicted(sent, at - period);
    TailAppended(all, live, at - period, BookInto(sent, limit, period, at).at);
  }

  /** The history in order, spread, and ending in the window's list. */
  ghost predicate Kept(sends: seq<int>, sent: seq<int>, limit: nat, period: int, base: int) {
    && Sorted(sends)
    && Spread(sends, limit, period)
    && IsTail(sends, sent, base - period)
  }

  lemma KeptLater(sends: seq<int>, sent: seq<int>, limit: nat, period: int, base: int, later: int)
    requires Kept(sends, sent, limit, period, base) && base <= later
    ensures Kept(sends, sent, limit, period, later)
  {
  }

  lemma KeptWithdrawn(sends: seq<int>, sent: seq<int>, limit: nat, period: int, base: int, at: int)
    requires Kept(sends, sent, limit, period, base)
    ensures Kept(RemoveFirst(sends, at), RemoveFirst(sent, at), limit, period, base)
  {
    RemoveFirstSorted(sends, at);
    RemoveFirstSpread(sends, at, limit, period);
    TailWithdrawn(sends, sent, base - period, at);
  }

  /** A booking keeps the history when it is not before the last one. */
  lemma KeptBooked(sends: seq<int>, sent: seq<int>, limit: nat, period: int, base: int)
    requires 0 < limit && Kept(sends, sent, limit, period, base)
    requires sends != [] ==> sends[|sends| - 1] <= BookInto(sent, limit, period, base).at
    ensures var b := BookInto(sent, limit, period, base);
            Kept(sends + [b.at], b.sent, limit, period, base)
  {
    BookWaitsForHistory(sends, sent, base - period, limit, period, base);
    AppendSpread(sends, limit, period, BookInto(sent, limit, period, base).at);
  }

  // ----- spaced sends survive cancellation -----

  ghost predicate SpacedInv(r: Run, p: Pacing) {
    && Sorted(r.sends)
    && Spread(r.sends, 1, p.minDelay)
    && IsTail(r.sends, r.slot.booked, r.now - p.minDelay)
  }

  /** The base instant of a spaced slot, told from the history alone. */
  ghost function SpacedBaseOf(sends: seq<int>, now: int, minDelay: int, notBefore: Option<int>): int {
    var paced := if sends == [] then now else Max(now, sends[|sends| - 1] + minDelay);
    if notBefore.Some? then Max(paced, notBefore.value) else paced
  }

  lemma SpacedBase(r: Run, p: Pacing)
    requires p.Valid() && p.spaceSends && SpacedInv(r, p)
    ensures Base(r.slot, p, r.now) == SpacedBaseOf(r.sends, r.now, p.minDelay, r.slot.notBefore)
  {
    SpacedFromLatest(r.sends, r.slot.booked, r.now, r.now, p.minDelay);
  }

  /** What an admission does to a spaced slot, field by field. */
  lemma SpacedAdmitFields(r: Run, p: Pacing)
    requires p.Valid() && p.spaceSends && SpacedInv(r, p)
    ensures var base := SpacedBaseOf(r.sends, r.now, p.minDelay, r.slot.notBefore);
            var b := BookInto(r.slot.sent, p.limit, p.period, base);
            var s := Next(r, p, Admit);
            && base <= b.at && Base(r.slot, p, r.now) == base
            && s.sends == r.sends + [b.at] && s.slot.sent == b.sent
            && s.slot.booked == Evicted(r.slot.booked, r.now - p.minDelay) + [b.at]
            && s.inFlight == r.inFlight + multiset{b.at}
            && s.now == r.now && s.slot.notBefore == r.slot.notBefore
  {
    hide SpacedInv, SpacedBaseOf, BookInto, Base, Evicted;
    SpacedBase(r, p);
    BookNotBefore(r.slot.sent, p.limit, p.period, Base(r.slot, p, r.now));
  }

  lemma SpacedAdmit(r: Run, p: Pacing)
    requires p.Valid() && p.spaceSends && SpacedInv(r, p)
    ensures SpacedInv(Next(r, p, Admit), p)
  {
    hide Sorted, Spread, IsTail, Evicted, BookInto, Next, Base;
    SpacedAdmitFields(r, p);
    var s := Next(r, p, Admit);
    var at := s.sends[|r.sends|];
    AppendSpread(r.sends, 1, p.minDelay, at);
    TailEvicted(r.sends, r.slot.booked, r.now - p.minDelay, r.now - p.minDelay);
    TailAppended(r.sends, Evicted(r.slot.booked, r.now - p.minDelay), r.now - p.minDelay, at);
  }

  lemma SpacedWithdraw(r: Run, p: Pacing, at: int)
    requires p.Valid() && p.spaceSends && SpacedInv(r, p)
    ensures SpacedInv(Next(r, p, Withdraw(at)), p)
  {
    RemoveFirstSorted(r.sends, at);
    RemoveFirstSpread(r.sends, at, 1, p.minDelay);
    TailWithdrawn(r.sends, r.slot.booked, r.now - p.minDelay, at);
  }

  lemma SpacedStep(r: Run, p: Pacing, step: Step)
    requires p.Valid() && p.spaceSends && SpacedInv(r, p)
    ensures SpacedInv(Next(r, p, step), p)
  {
    match step
    case Tick(_) =>
    case Admit => SpacedAdmit(r, p);
    case Withdraw(at) => SpacedWithdraw(r, p, at);
    case Complete(_) =>
    case Penalize(_) =>
  }

  lemma {:induction false} SpacedHolds(p: Pacing, start: int, steps: seq<Step>)
    requires p.Valid() && p.spaceSends
    ensures SpacedInv(Exec(p, start, steps), p)
  {
    if steps != [] {
      SpacedHolds(p, start, steps[..|steps| - 1]);
      SpacedStep(Exec(p, start, steps[..|steps| - 1]), p, steps[|steps| - 1]);
    }
  }

  /** In send-spaced mode, after withdrawals in any order, the surviving bookings
      are ordered and minDelay apart, and the next caller is spaced from the
      latest of them alone: a withdrawn caller leaves no phantom wait. */
  lemma SpacedSendsSurviveCancellation(p: Pacing, start: int, steps: seq<Step>, later: int)
    requires p.Valid() && p.spaceSends
    requires Exec(p, start, steps).now <= later
    ensures var r := Exec(p, start, steps);
            && (forall i, j :: 0 <= i < j < |r.sends| ==> r.sends[i] + p.minDelay <= r.sends[j])
            && SpacedFrom(r.slot.booked, later, p.minDelay)
               == if r.sends == [] then later else Max(later, r.sends[|r.sends| - 1] + p.minDelay)
  {
    hide Exec, IsTail, Sorted, SpacedFrom;
    SpacedHolds(p, start, steps);
    var r := Exec(p, start, steps);
    SpacedFromLatest(r.sends, r.slot.booked, r.now, later, p.minDelay);
  }

  // ----- runs without withdrawals -----

  /** A booking past the base instant was put there by a full window. */
  ghost predicate LastQueued(sends: seq<int>, limit: nat, period: int, base: int) {
    var n := |sends|;
    0 < n && base < sends[n - 1] ==> limit < n && sends[n - 1] <= sends[n - 1 - limit] + period
  }

  /** A full window puts the next booking no earlier than the last one. */
  lemma QueuedInOrder(sends: seq<int>, limit: nat, period: int, base: int, at: int)
    requires 0 < limit && Sorted(sends) && LastQueued(sends, limit, period, base) && base <= at
    requires limit <= |sends| ==> sends[|sends| - limit] + period <= at
    requires base < at ==> limit <= |sends| && at == sends[|sends| - limit] + period
    ensures sends != [] ==> sends[|sends| - 1] <= at
    ensures LastQueued(sends + [at], limit, period, base)
  {
    var n := |sends|;
    if 0 < n && base < sends[n - 1] {
      assert sends[n - 1 - limit] <= sends[n - limit];
    }
  }

  /** The next booking never precedes the last one. */
  lemma QueuedBooking(sends: seq<int>, sent: seq<int>, limit: nat, period: int, base: int)
    requires 0 < limit && Kept(sends, sent, limit, period, base) && LastQueued(sends, limit, period, base)
    ensures var b := BookInto(sent, limit, period, base);
            Kept(sends + [b.at], b.sent, limit, period, base) && LastQueued(sends + [b.at], limit, period, base)
  {
    hide Spread, IsTail, BookInto;
    BookWaitsForHistory(sends, sent, base - period, limit, period, base);
    QueuedInOrder(sends, limit, period, base, BookInto(sent, limit, period, base).at);
    KeptBooked(sends, sent, limit, period, base);
  }

  ghost predicate QueueInv(r: Run, p: Pacing)
    requires 0 < p.limit
  {
    && Kept(r.sends, r.slot.sent, p.limit, p.period, Base(r.slot, p, r.now))
    && LastQueued(r.sends, p.limit, p.period, Base(r.slot, p, r.now))
    && (r.slot.lastSend.Some? ==> r.slot.lastSend.value <= r.now)
    && (p.spaceSends ==> SpacedInv(r, p))
  }

  lemma CompletionBaseNeverEarlier(r: Run, p: Pacing, step: Step)
    requires p.Valid() && !p.spaceSends
    requires r.slot.lastSend.Some? ==> r.slot.lastSend.value <= r.now
    ensures Base(r.slot, p, r.now) <= Base(Next(r, p, step).slot, p, Next(r, p, step).now)
  {
  }

  lemma SpacedAdmitLaterBase(r: Run, p: Pacing)
    requires p.Valid() && p.spaceSends && SpacedInv(r, p)
    ensures var s := Next(r, p, Admit);
            SpacedBaseOf(r.sends, r.now, p.minDelay, r.slot.notBefore)
            <= SpacedBaseOf(s.sends, s.now, p.minDelay, s.slot.notBefore)
  {
    hide SpacedInv, BookInto, Next, Base;
    SpacedAdmitFields(r, p);
  }

  lemma SpacedBaseNeverEarlier(r: Run, p: Pacing, step: Step)
    requires p.Valid() && p.spaceSends && SpacedInv(r, p) && !step.Withdraw?
    ensures Base(r.slot, p, r.now) <= Base(Next(r, p, step).slot, p, Next(r, p, step).now)
  {
    SpacedStep(r, p, step);
    SpacedBase(r, p);
    SpacedBase(Next(r, p, step), p);
    if step.Admit? {
      SpacedAdmitLaterBase(r, p);
    }
  }

  lemma QueueStep(r: Run, p: Pacing, step: Step)
    requires p.Valid() && 0 < p.limit && QueueInv(r, p) && !step.Withdraw?
    ensures QueueInv(Next(r, p, step), p)
  {
    hide Kept, SpacedInv;
    var s := Next(r, p, step);
    var base := Base(r.slot, p, r.now);
    if p.spaceSends {
      SpacedStep(r, p, step);
      SpacedBaseNeverEarlier(r, p, step);
    } else {
      CompletionBaseNeverEarlier(r, p, step);
    }
    if step.Admit? {
      QueuedBooking(r.sends, r.slot.sent, p.limit, p.period, base);
    }
    KeptLater(s.sends, s.slot.sent, p.limit, p.period, base, Base(s.slot, p, s.now));
  }

  lemma {:induction false} QueueHolds(p: Pacing, start: int, steps: seq<Step>)
    requires p.Valid() && 0 < p.limit && WithoutWithdrawals(steps)
    ensures QueueInv(Exec(p, start, steps), p)
  {
    if steps != [] {
      QueueHolds(p, start, steps[..|steps| - 1]);
      QueueStep(Exec(p, start, steps[..|steps| - 1]), p, steps[|steps| - 1]);
    }
  }

  /** Without withdrawals, in either mode and with any number of callers in
      flight, bookings are made in order and no interval of one period holds more
      than limit of them. */
  lemma QuotaWithoutWithdrawals(p: Pacing, start: int, steps: seq<Step>)
    requires p.Valid() && 0 < p.limit && WithoutWithdrawals(steps)
    ensures Sorted(Exec(p, start, steps).sends)
    ensures Spread(Exec(p, start, steps).sends, p.limit, p.period)
    ensures QuotaHolds(Exec(p, start, steps).sends, p.limit, p.period)
  {
    QueueHolds(p, start, steps);
    SpreadImpliesQuota(Exec(p, start, steps).sends, p.limit, p.period);
  }

  // ----- the jitter -----

  /** Sends that left less than half a second after their bookings, none before. */
  ghost predicate Jittered(sends: seq<int>, actual: seq<int>) {
    && |actual| == |sends|
    && (forall i {:trigger actual[i]} :: 0 <= i < |sends| ==> sends[i] <= actual[i] < sends[i] + JITTER_CEILING)
  }

  /** What is sent in an interval was booked in it or in the 499 ms before. */
  lemma {:induction false} JitterShifts(sends: seq<int>, actual: seq<int>, from: int, width: int)
    requires Jittered(sends, actual)
    ensures CountIn(actual, from, width - 499) <= CountIn(sends, from - 499, width)
  {
    if sends != [] {
      assert actual[0] < sends[0] + JITTER_CEILING;
      JitterShifts(sends[1..], actual[1..], from, width);
    }
  }

  /** So sends keep the quota of their bookings over intervals shorter by 499 ms. */
  lemma JitteredSendsKeepQuota(sends: seq<int>, actual: seq<int>, limit: nat, period: int)
    requires QuotaHolds(sends, limit, period) && Jittered(sends, actual)
    ensures QuotaHolds(actual, limit, period - 499)
  {
    var width := period - 499;
    forall from
      ensures CountIn(actual, from, width) <= limit
    {
      JitterShifts(sends, actual, from, period);
      var earlier := from - 499;
      assert CountIn(sends, earlier, period) <= limit;
    }
  }
}
