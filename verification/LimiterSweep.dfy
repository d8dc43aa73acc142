/** Dropping an idle slot: one the sweep drops would have answered every later
    caller exactly as a fresh slot does. */
module LimiterSweep {
  import opened Instants
  import opened DomainSlots

  const SLOT_IDLE_FLOOR := 300_000

  function IdleAfter(p: Pacing): int {
    Max(SLOT_IDLE_FLOOR, Max(p.minDelay, p.period))
  }

  // ----- the life of one slot -----

  /** The slot with its references: callers waiting for the semaphore, and the
      bookings of callers in flight. */
  datatype Life = Life(slot: Slot, now: int, waiting: int, inFlight: multiset<int>, lastUsed: Option<int>) {
    ghost function Refs(): int { waiting + |inFlight| }
  }

  datatype Event =
    | Tick(ms: nat)
    | Join
    | Leave
    | Admit
    | Withdraw(at: int)
    | Complete(at: int)
    | Penalize(hold: int)

  ghost predicate Enabled(l: Life, e: Event) {
    match e
    case Leave => 0 < l.waiting
    case Admit => 0 < l.waiting
    case Withdraw(at) => at in l.inFlight
    case Complete(at) => at in l.inFlight && at <= l.now
    case _ => true
  }

  ghost function Next(l: Life, p: Pacing, e: Event): Life {
    match e
    case Tick(ms) => l.(now := l.now + ms)
    case Join => l.(waiting := l.waiting + 1)
    case Leave => l.(waiting := l.waiting - 1, lastUsed := Some(l.now))
    case Admit =>
      var b := Reserve(l.slot, p, l.now);
      l.(slot := b.slot, waiting := l.waiting - 1, inFlight := l.inFlight + multiset{b.at})
    case Withdraw(at) =>
      l.(slot := Unbook(l.slot, p, at), inFlight := l.inFlight - multiset{at}, lastUsed := Some(l.now))
    case Complete(at) =>
      l.(slot := Finish(l.slot, p, l.now), inFlight := l.inFlight - multiset{at}, lastUsed := Some(l.now))
    case Penalize(hold) =>
      if hold <= 0 then l else l.(slot := Hold(l.slot, l.now + hold), lastUsed := Some(l.now))
  }

  /** The life of a slot from its creation through the given events. */
  ghost function LifeOf(p: Pacing, start: int, events: seq<Event>): Life {
    if events == [] then Life(FRESH_SLOT, start, 0, multiset{}, None)
    else Next(LifeOf(p, start, events[..|events| - 1]), p, events[|events| - 1])
  }

  ghost predicate Legal(p: Pacing, start: int, events: seq<Event>) {
    events == [] ||
    (Legal(p, start, events[..|events| - 1]) &&
     Enabled(LifeOf(p, start, events[..|events| - 1]), events[|events| - 1]))
  }

  /** What the sweep asks of a slot before it drops it. */
  ghost predicate Sweepable(l: Life, p: Pacing) {
    && l.Refs() == 0
    && (l.lastUsed.Some? ==> IdleAfter(p) < l.now - l.lastUsed.value)
    && (l.slot.notBefore.Some? ==> l.slot.notBefore.value < l.now)
  }

  /** Whatever the slot still lists is in flight or was let go of by lastUsed. */
  ghost predicate Accounted(list: seq<int>, inFlight: multiset<int>, lastUsed: Option<int>) {
    forall x :: x in multiset(list) ==>
      multiset(list)[x] <= inFlight[x] || (lastUsed.Some? && x <= lastUsed.value)
  }

  ghost predicate LifeInv(l: Life, p: Pacing) {
    && Accounted(l.slot.sent, l.inFlight, l.lastUsed)
    && Accounted(l.slot.booked, l.inFlight, l.lastUsed)
    && (l.slot.lastSend.Some? ==> l.lastUsed.Some? && l.slot.lastSend.value <= l.lastUsed.value)
    && (l.lastUsed.Some? ==> l.lastUsed.value <= l.now)
    && (p.limit <= 0 ==> l.slot.sent == [])
    && (!p.spaceSends ==> l.slot.booked == [])
    && 0 <= l.waiting
  }

  lemma {:induction false} EvictedShrinks(s: seq<int>, cutoff: int)
    ensures multiset(Evicted(s, cutoff)) <= multiset(s)
  {
    if s != [] && s[0] <= cutoff {
      EvictedShrinks(s[1..], cutoff);
      assert s == [s[0]] + s[1..];
    }
  }

  lemma AccountedAdmitted(list: seq<int>, cutoff: int, at: int, inFlight: multiset<int>, lastUsed: Option<int>)
    requires Accounted(list, inFlight, lastUsed)
    ensures Accounted(Evicted(list, cutoff) + [at], inFlight + multiset{at}, lastUsed)
    ensures Accounted(list, inFlight + multiset{at}, lastUsed)
  {
    EvictedShrinks(list, cutoff);
    hide Evicted;
    assert multiset(Evicted(list, cutoff) + [at]) == multiset(Evicted(list, cutoff)) + multiset{at};
  }

  lemma AccountedReleased(list: seq<int>, at: int, inFlight: multiset<int>, lastUsed: Option<int>, now: int)
    requires Accounted(list, inFlight, lastUsed) && at in inFlight
    requires lastUsed.Some? ==> lastUsed.value <= now
    ensures Accounted(RemoveFirst(list, at), inFlight - multiset{at}, Some(now))
    ensures at <= now ==> Accounted(list, inFlight - multiset{at}, Some(now))
  {
    RemoveFirstMultiset(list, at);
  }

  lemma LifeAdmit(l: Life, p: Pacing)
    requires p.Valid() && LifeInv(l, p) && 0 < l.waiting
    ensures LifeInv(Next(l, p, Admit), p)
  {
    hide Accounted, Base, WindowWait, Evicted;
    var base := Base(l.slot, p, l.now);
    var at := BookInto(l.slot.sent, p.limit, p.period, base).at;
    AccountedAdmitted(l.slot.sent, base - p.period, at, l.inFlight, l.lastUsed);
    AccountedAdmitted(l.slot.booked, l.now - p.minDelay, at, l.inFlight, l.lastUsed);
  }

  lemma LifeReleased(l: Life, p: Pacing, at: int)
    requires LifeInv(l, p) && at in l.inFlight
    ensures LifeInv(Next(l, p, Withdraw(at)), p)
    ensures at <= l.now ==> LifeInv(Next(l, p, Complete(at)), p)
  {
    hide Accounted;
    AccountedReleased(l.slot.sent, at, l.inFlight, l.lastUsed, l.now);
    AccountedReleased(l.slot.booked, at, l.inFlight, l.lastUsed, l.now);
  }

  lemma LifeStep(l: Life, p: Pacing, e: Event)
    requires p.Valid() && LifeInv(l, p) && Enabled(l, e)
    ensures LifeInv(Next(l, p, e), p)
  {
    hide Accounted, Reserve, Unbook;
    match e
    case Admit => LifeAdmit(l, p);
    case Withdraw(at) => LifeReleased(l, p, at);
    case Complete(at) => LifeReleased(l, p, at);
    case _ =>
      LaterUse(l.slot.sent, l.inFlight, l.lastUsed, l.now);
      LaterUse(l.slot.booked, l.inFlight, l.lastUsed, l.now);
  }

  lemma LaterUse(list: seq<int>, inFlight: multiset<int>, lastUsed: Option<int>, now: int)
    requires Accounted(list, inFlight, lastUsed) && (lastUsed.Some? ==> lastUsed.value <= now)
    ensures Accounted(list, inFlight, Some(now))
  {
  }

  lemma {:induction false} LifeHolds(p: Pacing, start: int, events: seq<Event>)
    requires p.Valid() && Legal(p, start, events)
    ensures LifeInv(LifeOf(p, start, events), p)
  {
    if events != [] {
      LifeHolds(p, start, events[..|events| - 1]);
      LifeStep(LifeOf(p, start, events[..|events| - 1]), p, events[|events| - 1]);
    }
  }

  // ----- a slot with stale leftovers answers as one without -----

  /** What a later caller asks of the slot. */
  datatype Request =
    | Ask(now: int)
    | Unask(at: int)
    | Done(now: int)
    | Penalty(until: int)

  /** The instants the slot hands out, one for each caller that asks. */
  ghost function Answers(s: Slot, p: Pacing, requests: seq<Request>): seq<int>
    decreases |requests|
  {
    if requests == [] then []
    else
      match requests[0]
      case Ask(now) =>
        var b := Reserve(s, p, now);
        [b.at] + Answers(b.slot, p, requests[1..])
      case Unask(at) => Answers(Unbook(s, p, at), p, requests[1..])
      case Done(now) => Answers(Finish(s, p, now), p, requests[1..])
      case Penalty(until) => Answers(Hold(s, until), p, requests[1..])
  }

  /** Requests made at or after an instant: they hand back only bookings made
      since, and ask for holds that are still ahead. */
  ghost predicate After(requests: seq<Request>, asOf: int) {
    forall i :: 0 <= i < |requests| ==>
      match requests[i]
      case Ask(now) => asOf <= now
      case Unask(at) => asOf <= at
      case Done(now) => asOf <= now
      case Penalty(until) => asOf < until
  }

  /** list is live with entries in front that are older than asOf by the width. */
  ghost predicate StaleFront(list: seq<int>, live: seq<int>, width: int, asOf: int) {
    exists front :: list == front + live &&
      forall i :: 0 <= i < |front| ==> front[i] < asOf && front[i] + width <= asOf
  }

  ghost predicate Stale(s: Slot, f: Slot, p: Pacing, asOf: int) {
    && (if p.limit <= 0 then s.sent == f.sent else StaleFront(s.sent, f.sent, p.period, asOf))
    && (if p.spaceSends then StaleFront(s.booked, f.booked, p.minDelay, asOf) else s.booked == f.booked)
    && Sorted(f.booked)
    && (s.lastSend == f.lastSend
        || (s.lastSend.Some? && s.lastSend.value + p.minDelay <= asOf && f.lastSend == None))
    && (s.notBefore == f.notBefore
        || (s.notBefore.Some? && s.notBefore.value <= asOf && f.notBefore == None))
  }

  lemma StaleFrontEvicted(list: seq<int>, live: seq<int>, width: int, asOf: int, now: int)
    requires StaleFront(list, live, width, asOf) && asOf <= now
    ensures Evicted(list, now - width) == Evicted(live, now - width)
  {
    var front :| list == front + live
      && forall i :: 0 <= i < |front| ==> front[i] < asOf && front[i] + width <= asOf;
    EvictedDropsFront(front, live, now - width);
  }

  lemma StaleFrontWithdrawn(list: seq<int>, live: seq<int>, width: int, asOf: int, at: int)
    requires StaleFront(list, live, width, asOf) && asOf <= at
    ensures StaleFront(RemoveFirst(list, at), RemoveFirst(live, at), width, asOf)
  {
    var front :| list == front + live
      && forall i :: 0 <= i < |front| ==> front[i] < asOf && front[i] + width <= asOf;
    RemoveFirstSkips(front, live, at);
  }

  lemma NoStaleFront(list: seq<int>, width: int, asOf: int)
    ensures StaleFront(list, list, width, asOf)
  {
    assert list == [] + list;
  }

  lemma EvictedLast(list: seq<int>, cutoff: int)
    requires Sorted(list)
    ensures Sorted(Evicted(list, cutoff))
    ensures var live := Evicted(list, cutoff); live != [] ==> cutoff < live[|live| - 1]
  {
    EvictedIsSuffix(list, cutoff);
  }

  lemma BaseAfterNow(f: Slot, p: Pacing, now: int)
    requires p.Valid() && Sorted(f.booked)
    ensures now <= Base(f, p, now)
    ensures p.spaceSends && Evicted(f.booked, now - p.minDelay) != [] ==>
              var live := Evicted(f.booked, now - p.minDelay); live[|live| - 1] <= Base(f, p, now)
  {
    hide Evicted;
    EvictedLast(f.booked, now - p.minDelay);
  }

  lemma SameBase(s: Slot, f: Slot, p: Pacing, asOf: int, now: int)
    requires p.Valid() && Stale(s, f, p, asOf) && asOf <= now
    ensures Base(s, p, now) == Base(f, p, now) && asOf <= Base(f, p, now)
  {
    hide StaleFront, Evicted;
    BaseAfterNow(f, p, now);
    if p.spaceSends {
      StaleFrontEvicted(s.booked, f.booked, p.minDelay, asOf, now);
    }
  }

  /** What is booked does not depend on the stale entries. */
  lemma StaleBook(s: Slot, f: Slot, p: Pacing, asOf: int, at: int)
    requires Stale(s, f, p, asOf) && asOf <= at
    ensures BookInto(s.sent, p.limit, p.period, at) == BookInto(f.sent, p.limit, p.period, at)
  {
    hide StaleFront, Evicted, WindowWait, Sorted;
    if 0 < p.limit {
      StaleFrontEvicted(s.sent, f.sent, p.period, asOf, at);
    }
  }

  /** A booking keeps the spacing list in order. */
  lemma BookedInOrder(f: Slot, p: Pacing, now: int, at: int)
    requires p.Valid() && Sorted(f.booked) && Base(f, p, now) <= at && p.spaceSends
    ensures Sorted(Evicted(f.booked, now - p.minDelay) + [at])
  {
    hide Evicted, Base;
    BaseAfterNow(f, p, now);
    EvictedLast(f.booked, now - p.minDelay);
    AppendSorted(Evicted(f.booked, now - p.minDelay), at);
  }

  lemma StaleAsk(s: Slot, f: Slot, p: Pacing, asOf: int, now: int)
    requires p.Valid() && Stale(s, f, p, asOf) && asOf <= now
    ensures Reserve(s, p, now).at == Reserve(f, p, now).at
    ensures Stale(Reserve(s, p, now).slot, Reserve(f, p, now).slot, p, asOf)
  {
    hide StaleFront, Evicted, Base, BookInto, Sorted;
    SameBase(s, f, p, asOf, now);
    var base, b := Base(f, p, now), Reserve(f, p, now);
    StaleBook(s, f, p, asOf, base);
    NoStaleFront(b.slot.sent, p.period, asOf);
    assert p.limit <= 0 ==> b.slot.sent == s.sent by {
      UnlimitedBook(s.sent, p.limit, p.period, base);
    }
    if p.spaceSends {
      StaleFrontEvicted(s.booked, f.booked, p.minDelay, asOf, now);
      NoStaleFront(b.slot.booked, p.minDelay, asOf);
      BookNotBefore(f.sent, p.limit, p.period, base);
      BookedInOrder(f, p, now, b.at);
    }
  }

  lemma UnlimitedBook(sent: seq<int>, limit: int, period: int, at: int)
    ensures limit <= 0 ==> BookInto(sent, limit, period, at).sent == sent
  {
  }

  lemma AppendSorted(list: seq<int>, at: int)
    requires Sorted(list) && (list != [] ==> list[|list| - 1] <= at)
    ensures Sorted(list + [at])
  {
  }

  lemma StaleUnask(s: Slot, f: Slot, p: Pacing, asOf: int, at: int)
    requires p.Valid() && Stale(s, f, p, asOf) && asOf <= at
    ensures Stale(Unbook(s, p, at), Unbook(f, p, at), p, asOf)
  {
    hide StaleFront;
    if 0 < p.limit {
      StaleFrontWithdrawn(s.sent, f.sent, p.period, asOf, at);
    }
    if p.spaceSends {
      StaleFrontWithdrawn(s.booked, f.booked, p.minDelay, asOf, at);
      RemoveFirstSorted(f.booked, at);
    }
  }

  /** Leftovers older than asOf never show in an answer given from then on. */
  lemma {:induction false} StaleAnswers(s: Slot, f: Slot, p: Pacing, asOf: int, requests: seq<Request>)
    requires p.Valid() && Stale(s, f, p, asOf) && After(requests, asOf)
    ensures Answers(s, p, requests) == Answers(f, p, requests)
    decreases |requests|
  {
    hide Stale, StaleFront, Reserve, Unbook;
    if requests != [] {
      var rest := requests[1..];
      match requests[0]
      case Ask(now) =>
        StaleAsk(s, f, p, asOf, now);
        StaleAnswers(Reserve(s, p, now).slot, Reserve(f, p, now).slot, p, asOf, rest);
      case Unask(at) =>
        StaleUnask(s, f, p, asOf, at);
        StaleAnswers(Unbook(s, p, at), Unbook(f, p, at), p, asOf, rest);
      case Done(now) =>
        StaleDone(s, f, p, asOf, now);
        StaleAnswers(Finish(s, p, now), Finish(f, p, now), p, asOf, rest);
      case Penalty(until) =>
        StalePenalty(s, f, p, asOf, until);
        StaleAnswers(Hold(s, until), Hold(f, until), p, asOf, rest);
    }
  }

  lemma StaleDone(s: Slot, f: Slot, p: Pacing, asOf: int, now: int)
    requires Stale(s, f, p, asOf)
    ensures Stale(Finish(s, p, now), Finish(f, p, now), p, asOf)
  {
  }

  lemma StalePenalty(s: Slot, f: Slot, p: Pacing, asOf: int, until: int)
    requires Stale(s, f, p, asOf) && asOf < until
    ensures Stale(Hold(s, until), Hold(f, until), p, asOf)
  {
  }

  lemma OldEntries(list: seq<int>, lastUsed: Option<int>, width: int, asOf: int)
    requires Accounted(list, multiset{}, lastUsed) && 0 <= width
    requires lastUsed.Some? ==> Max(SLOT_IDLE_FLOOR, width) < asOf - lastUsed.value
    ensures StaleFront(list, [], width, asOf)
  {
    assert list == list + [];
    forall i | 0 <= i < |list|
      ensures list[i] < asOf && list[i] + width <= asOf
    {
      assert list[i] in multiset(list);
    }
  }

  /** A slot the sweep drops would have answered every later caller exactly as a
      fresh slot does, so dropping it changes no admission. */
  lemma SweptSlotIsFresh(p: Pacing, start: int, events: seq<Event>, requests: seq<Request>)
    requires p.Valid() && Legal(p, start, events)
    requires Sweepable(LifeOf(p, start, events), p) && After(requests, LifeOf(p, start, events).now)
    ensures Answers(LifeOf(p, start, events).slot, p, requests) == Answers(FRESH_SLOT, p, requests)
  {
    var l := LifeOf(p, start, events);
    LifeHolds(p, start, events);
    assert l.inFlight == multiset{};
    if 0 < p.limit {
      OldEntries(l.slot.sent, l.lastUsed, p.period, l.now);
    }
    OldEntries(l.slot.booked, l.lastUsed, p.minDelay, l.now);
    StaleAnswers(l.slot, FRESH_SLOT, p, l.now, requests);
  }
}
