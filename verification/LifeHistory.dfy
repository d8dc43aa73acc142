/** The life of a slot against the runs of the limiter: the same bookings, and a
    reference count and a last use that say what has happened. */
module LifeHistory {
  import opened Instants
  import opened DomainSlots
  import opened LimiterSweep
  import Local = LimiterRuns

  /** The step an event is in a run; coming and leaving without a booking is none. */
  ghost function StepOf(e: Event): seq<Local.Step> {
    match e
    case Tick(ms) => [Local.Tick(ms)]
    case Join => []
    case Leave => []
    case Admit => [Local.Admit]
    case Withdraw(at) => [Local.Withdraw(at)]
    case Complete(at) => [Local.Complete(at)]
    case Penalize(hold) => [Local.Penalize(hold)]
  }

  ghost function StepsOf(events: seq<Event>): seq<Local.Step> {
    if events == [] then [] else StepsOf(events[..|events| - 1]) + StepOf(events[|events| - 1])
  }

  ghost predicate Same(l: Life, r: Local.Run) {
    l.slot == r.slot && l.now == r.now && l.inFlight == r.inFlight
  }

  lemma SameStep(l: Life, r: Local.Run, p: Pacing, e: Event)
    requires Same(l, r)
    ensures StepOf(e) == [] ==> Same(Next(l, p, e), r)
    ensures StepOf(e) != [] ==> Same(Next(l, p, e), Local.Next(r, p, StepOf(e)[0]))
  {
    hide Reserve, Unbook, Finish, Hold;
  }

  lemma ExecMore(p: Pacing, start: int, steps: seq<Local.Step>, step: Local.Step)
    ensures Local.Exec(p, start, steps + [step]) == Local.Next(Local.Exec(p, start, steps), p, step)
  {
    assert (steps + [step])[..|steps|] == steps;
  }

  /** A life books, holds and forgets as the run of its steps does. */
  lemma {:induction false} LifeIsARun(p: Pacing, start: int, events: seq<Event>)
    ensures var l, r := LifeOf(p, start, events), Local.Exec(p, start, StepsOf(events));
            l.slot == r.slot && l.now == r.now && l.inFlight == r.inFlight
  {
    hide Next, Local.Next, Local.Exec;
    if events == [] {
      StartsSame(p, start);
    } else {
      var rest, e := events[..|events| - 1], events[|events| - 1];
      LifeIsARun(p, start, rest);
      var before := StepsOf(rest);
      SameStep(LifeOf(p, start, rest), Local.Exec(p, start, before), p, e);
      if StepOf(e) == [] {
        assert before + [] == before;
      } else {
        ExecMore(p, start, before, StepOf(e)[0]);
        assert StepOf(e) == [StepOf(e)[0]];
      }
    }
  }

  lemma StartsSame(p: Pacing, start: int)
    ensures Same(LifeOf(p, start, []), Local.Exec(p, start, []))
  {
  }

  /** The life is one the limiter can lead exactly when its steps are, whatever the
      semaphore's size, and each caller that leaves or books had come. */
  lemma {:induction false} LegalIsARun(p: Pacing, cap: nat, start: int, events: seq<Event>)
    requires Legal(p, start, events) && |events| <= cap
    ensures Local.Legal(p, cap, start, StepsOf(events)) && |LifeOf(p, start, events).inFlight| <= |events|
  {
    hide Next, Enabled, Local.Exec, Local.Enabled, Same;
    if events != [] {
      var rest, e := events[..|events| - 1], events[|events| - 1];
      LegalIsARun(p, cap, start, rest);
      LifeIsARun(p, start, rest);
      var l, before := LifeOf(p, start, rest), StepsOf(rest);
      InFlightGrows(l, p, e);
      assert Same(l, Local.Exec(p, start, before)) by {
        SameIs(l, Local.Exec(p, start, before));
      }
      if StepOf(e) == [] {
        assert before + [] == before;
      } else {
        SameEnabled(l, Local.Exec(p, start, before), cap, e);
        LegalMore(p, cap, start, before, StepOf(e)[0]);
        assert StepOf(e) == [StepOf(e)[0]];
      }
    }
  }

  lemma SameIs(l: Life, r: Local.Run)
    requires l.slot == r.slot && l.now == r.now && l.inFlight == r.inFlight
    ensures Same(l, r)
  {
  }

  lemma SameEnabled(l: Life, r: Local.Run, cap: nat, e: Event)
    requires Same(l, r) && Enabled(l, e) && |l.inFlight| < cap && StepOf(e) != []
    ensures Local.Enabled(r, cap, StepOf(e)[0])
  {
  }

  lemma LegalMore(p: Pacing, cap: nat, start: int, steps: seq<Local.Step>, step: Local.Step)
    requires Local.Legal(p, cap, start, steps) && Local.Enabled(Local.Exec(p, start, steps), cap, step)
    ensures Local.Legal(p, cap, start, steps + [step])
  {
    assert (steps + [step])[..|steps|] == steps;
  }

  /** A caller that waits may leave or book, one in flight may give up at any time and
      finish from its booked instant on; anyone may come, and the clock and the
      upstream need no leave. */
  lemma AllowedExactly(l: Life, at: int, ms: nat, hold: int)
    ensures Enabled(l, Tick(ms)) && Enabled(l, Join) && Enabled(l, Penalize(hold))
    ensures Enabled(l, Leave) <==> l.waiting != 0 && 0 <= l.waiting
    ensures Enabled(l, Admit) <==> l.waiting != 0 && 0 <= l.waiting
    ensures Enabled(l, Withdraw(at)) <==> at in l.inFlight
    ensures Enabled(l, Complete(at)) <==> at in l.inFlight && !(l.now < at)
  {
  }

  lemma InFlightGrows(l: Life, p: Pacing, e: Event)
    ensures |Next(l, p, e).inFlight| <= |l.inFlight| + 1
  {
    hide Reserve, Unbook;
  }

  /** The references taken and not handed back: by those who came and have neither
      left, given up nor finished. */
  ghost function Held(events: seq<Event>): int {
    if events == [] then 0
    else
      Held(events[..|events| - 1]) +
      match events[|events| - 1]
      case Join => 1
      case Leave => -1
      case Withdraw(_) => -1
      case Complete(_) => -1
      case _ => 0
  }

  /** Whether an event hands a reference back. */
  ghost predicate HandsBack(e: Event) {
    e.Leave? || e.Withdraw? || e.Complete? || (e.Penalize? && 0 < e.hold)
  }

  /** When a reference was last handed back. */
  ghost function LastHanded(p: Pacing, start: int, events: seq<Event>): Option<int> {
    if events == [] then None
    else
      var n := |events| - 1;
      if HandsBack(events[n]) then Some(LifeOf(p, start, events[..n]).now) else LastHanded(p, start, events[..n])
  }

  lemma {:induction false} RefsFromHistory(p: Pacing, start: int, events: seq<Event>)
    requires Legal(p, start, events)
    ensures var l := LifeOf(p, start, events);
            l.Refs() == Held(events) && 0 <= l.waiting && l.lastUsed == LastHanded(p, start, events)
  {
    hide Next, Enabled, HandsBack;
    if events != [] {
      var rest, e := events[..|events| - 1], events[|events| - 1];
      RefsFromHistory(p, start, rest);
      RefsStep(LifeOf(p, start, rest), p, e);
    }
  }

  lemma RefsStep(l: Life, p: Pacing, e: Event)
    requires Enabled(l, e) && 0 <= l.waiting
    ensures var next := Next(l, p, e);
            && 0 <= next.waiting && next.lastUsed == (if HandsBack(e) then Some(l.now) else l.lastUsed)
            && next.Refs() == l.Refs() +
               match e
               case Join => 1
               case Leave => -1
               case Withdraw(_) => -1
               case Complete(_) => -1
               case _ => 0
  {
    hide Reserve, Unbook;
  }

  /** The sweep drops a slot exactly when every reference is handed back, the last of
      them longer ago than the floor, the delay and the period, and no hold runs. */
  lemma SweptExactly(p: Pacing, start: int, events: seq<Event>)
    requires Legal(p, start, events)
    ensures var l := LifeOf(p, start, events);
            var used := LastHanded(p, start, events);
            Sweepable(l, p) <==>
            && Held(events) == 0
            && (used.Some? ==>
                  used.value + 300_000 < l.now && used.value + p.minDelay < l.now && used.value + p.period < l.now)
            && (l.slot.notBefore.Some? ==> l.slot.notBefore.value < l.now)
  {
    hide LifeOf, Held, LastHanded;
    RefsFromHistory(p, start, events);
  }
}
