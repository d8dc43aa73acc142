/** What a slot of the in-process limiter books, told from the history of its run:
    its completions, its bookings and the holds upstreams asked for. */
module LimiterHistory {
  import opened Instants
  import opened DomainSlots
  import opened LimiterRuns

  /** The later of an instant there may be and one there is. */
  function Later(a: Option<int>, b: int): Option<int> {
    Some(if a.Some? then Max(a.value, b) else b)
  }

  /** An instant and the wait after one there may be, whichever is later. */
  function After(now: int, at: Option<int>, wait: int): int {
    if at.Some? then Max(now, at.value + wait) else now
  }

  /** The latest end of the positive holds of a run. */
  ghost function HeldUntil(p: Pacing, start: int, steps: seq<Step>): Option<int> {
    if steps == [] then None
    else
      var n := |steps| - 1;
      var held, step := HeldUntil(p, start, steps[..n]), steps[n];
      if step.Penalize? && 0 < step.hold then Later(held, Exec(p, start, steps[..n]).now + step.hold) else held
  }

  /** When a request of the run was last completed. */
  ghost function LastDone(p: Pacing, start: int, steps: seq<Step>): Option<int> {
    if steps == [] then None
    else
      var n := |steps| - 1;
      if steps[n].Complete? then Some(Exec(p, start, steps[..n]).now) else LastDone(p, start, steps[..n])
  }

  /** On every run the slot's hold is the latest that was asked for, and a slot
      spaced from completions remembers the last of them. */
  lemma {:induction false} SlotFromHistory(p: Pacing, start: int, steps: seq<Step>)
    ensures var s := Exec(p, start, steps).slot;
            && s.notBefore == HeldUntil(p, start, steps)
            && s.lastSend == if p.spaceSends then None else LastDone(p, start, steps)
  {
    hide BookInto, Evicted;
    if steps != [] {
      SlotFromHistory(p, start, steps[..|steps| - 1]);
    }
  }

  /** The instant the spacing and the holds allow together, told from the history:
      a delay past the last completion or past the last booking left, by mode, and
      the end of the longest hold. */
  lemma BaseFromHistory(p: Pacing, start: int, steps: seq<Step>)
    requires p.Valid()
    ensures var r := Exec(p, start, steps);
            var last := if r.sends == [] then None else Some(r.sends[|r.sends| - 1]);
            Base(r.slot, p, r.now) ==
            Max(After(r.now, if p.spaceSends then last else LastDone(p, start, steps), p.minDelay),
                After(r.now, HeldUntil(p, start, steps), 0))
  {
    hide Exec, SpacedInv, HeldUntil, LastDone, SpacedFrom;
    SlotFromHistory(p, start, steps);
    if p.spaceSends {
      SpacedHolds(p, start, steps);
      SpacedBase(Exec(p, start, steps), p);
    }
  }

  lemma {:induction false} HeldFrom(p: Pacing, start: int, steps: seq<Step>, i: nat, j: nat)
    requires i < j <= |steps| && steps[i].Penalize? && 0 < steps[i].hold
    ensures HeldUntil(p, start, steps[..j]).Some?
    ensures Exec(p, start, steps[..i]).now + steps[i].hold <= HeldUntil(p, start, steps[..j]).value
    decreases j
  {
    hide Exec;
    assert steps[..j][..j - 1] == steps[..j - 1];
    if i + 1 < j {
      HeldFrom(p, start, steps, i, j - 1);
    }
  }

  /** Nobody books inside a hold, in either mode, whatever happens in between. */
  lemma HoldIsKept(p: Pacing, start: int, steps: seq<Step>, i: nat, j: nat)
    requires p.Valid() && i < j < |steps| && steps[i].Penalize? && 0 < steps[i].hold && steps[j].Admit?
    ensures var sends := Exec(p, start, steps[..j + 1]).sends;
            sends != [] && Exec(p, start, steps[..i]).now + steps[i].hold <= sends[|sends| - 1]
  {
    hide Exec, HeldUntil, BookInto;
    HeldFrom(p, start, steps, i, j);
    SlotFromHistory(p, start, steps[..j]);
    var r := Exec(p, start, steps[..j]);
    assert steps[..j + 1][..j] == steps[..j];
    ExecNext(p, start, steps[..j + 1]);
    BookNotBefore(r.slot.sent, p.limit, p.period, Base(r.slot, p, r.now));
  }

  lemma ExecNext(p: Pacing, start: int, steps: seq<Step>)
    requires steps != []
    ensures Exec(p, start, steps) == Next(Exec(p, start, steps[..|steps| - 1]), p, steps[|steps| - 1])
  {
  }

  /** Without withdrawals a booking is exactly the later of that instant and a period
      after the booking limit places back. */
  lemma BookedFromHistory(p: Pacing, start: int, steps: seq<Step>)
    requires p.Valid() && WithoutWithdrawals(steps)
    ensures var r := Exec(p, start, steps);
            var base := Base(r.slot, p, r.now);
            Next(r, p, Admit).sends == r.sends + [
              if 0 < p.limit <= |r.sends| then Max(base, r.sends[|r.sends| - p.limit] + p.period) else base]
  {
    hide Exec, Base, Sorted, Spread;
    var r := Exec(p, start, steps);
    if 0 < p.limit {
      var base := Base(r.slot, p, r.now);
      QueueHolds(p, start, steps);
      BookWaitsForHistory(r.sends, r.slot.sent, base - p.period, p.limit, p.period, base);
    }
  }
}
