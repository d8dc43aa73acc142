/** The pacing state one host has in the in-process limiter: the rolling quota
    window, the send spacing and the upstream hold. The functions say what each
    critical section computes from the old state; the classes hold the state and
    update it in place. Times are milliseconds. */
module DomainSlots {
  import opened Instants

  /** What a limiter is built with. The constructors are given a positive period
      whenever the quota is on. */
  datatype Pacing = Pacing(minDelay: int, limit: int, period: int, spaceSends: bool) {
    ghost predicate Valid() {
      0 <= minDelay && (0 < limit ==> 0 < period)
    }
  }

  const JITTER_CEILING := 500

  // ----- the rolling window, as functions -----

  /** Drops leading bookings up to the first one still inside the window. */
  function Evicted(sent: seq<int>, cutoff: int): seq<int> {
    if sent != [] && sent[0] <= cutoff then Evicted(sent[1..], cutoff) else sent
  }

  /** The extra wait a full window imposes on a booking at the given instant. */
  function WindowWait(live: seq<int>, limit: int, period: int, at: int): int {
    if 0 < limit <= |live| then Max(0, live[|live| - limit] + period - at) else 0
  }

  datatype Booking = Booking(at: int, sent: seq<int>)

  function BookInto(sent: seq<int>, limit: int, period: int, at: int): Booking {
    if limit <= 0 then Booking(at, sent)
    else
      var live := Evicted(sent, at - period);
      var booked := at + WindowWait(live, limit, period, at);
      Booking(booked, live + [booked])
  }

  class QuotaWindow {
    const limit: int
    const period: int
    var sent: seq<int>

    constructor (limit: int, period: int)
      ensures this.limit == limit && this.period == period && sent == []
    {
      this.limit, this.period, sent := limit, period, [];
    }

    method Evict(now: int)
      modifies this
      ensures sent == Evicted(old(sent), now - period)
    {
      var cutoff := now - period;
      var i := 0;
      while i < |sent| && sent[i] <= cutoff
        invariant 0 <= i <= |sent|
        invariant Evicted(sent[i..], cutoff) == Evicted(sent, cutoff)
      {
        assert sent[i..][1..] == sent[i + 1..];
        i := i + 1;
      }
      sent := sent[i..];
    }

    method Book(at: int) returns (wait: int)
      modifies this
      ensures at + wait == BookInto(old(sent), limit, period, at).at
      ensures sent == BookInto(old(sent), limit, period, at).sent
    {
      wait := 0;
      if limit <= 0 {
        return;
      }
      Evict(at);
      var n := |sent|;
      if limit <= n {
        var free := sent[n - limit] + period - at;
        if 0 < free {
          wait := free;
        }
      }
      sent := sent + [at + wait];
    }

    method Forget(at: int)
      modifies this
      ensures sent == RemoveFirst(old(sent), at)
    {
      var i := 0;
      while i < |sent|
        invariant 0 <= i <= |sent|
        invariant sent == old(sent) && at !in sent[..i]
      {
        if sent[i] == at {
          RemoveFirstSkips(sent[..i], sent[i..], at);
          assert sent[..i] + sent[i..] == sent;
          assert sent[i..][1..] == sent[i + 1..];
          sent := sent[..i] + sent[i + 1..];
          return;
        }
        i := i + 1;
      }
      assert sent[..i] == sent;
      RemoveFirstAbsent(sent, at);
    }
  }

  // ----- the slot, as functions -----

  /** The pacing state of one host. None stands for the zero instant. */
  datatype Slot = Slot(lastSend: Option<int>, booked: seq<int>, notBefore: Option<int>, sent: seq<int>)

  const FRESH_SLOT := Slot(None, [], None, [])

  /** The earliest send the spacing allows: minDelay past the last booking that
      still owes a gap, else now. */
  function SpacedFrom(booked: seq<int>, now: int, minDelay: int): int {
    var live := Evicted(booked, now - minDelay);
    if live == [] then now else live[|live| - 1] + minDelay
  }

  /** The instant the spacing and the upstream hold allow together. */
  function Base(s: Slot, p: Pacing, now: int): int {
    var paced :=
      if p.spaceSends then SpacedFrom(s.booked, now, p.minDelay)
      else if s.lastSend.Some? then Max(now, s.lastSend.value + p.minDelay)
      else now;
    if s.notBefore.Some? then Max(paced, s.notBefore.value) else paced
  }

  datatype Reservation = Reservation(slot: Slot, at: int)

  function Reserve(s: Slot, p: Pacing, now: int): Reservation {
    var b := BookInto(s.sent, p.limit, p.period, Base(s, p, now));
    var booked := if p.spaceSends then Evicted(s.booked, now - p.minDelay) + [b.at] else s.booked;
    Reservation(s.(sent := b.sent, booked := booked), b.at)
  }

  function Unbook(s: Slot, p: Pacing, at: int): Slot {
    s.(sent := RemoveFirst(s.sent, at),
       booked := if p.spaceSends then RemoveFirst(s.booked, at) else s.booked)
  }

  /** The release of a finished request: only the completion-spaced mode reads it. */
  function Finish(s: Slot, p: Pacing, now: int): Slot {
    if p.spaceSends then s else s.(lastSend := Some(now))
  }

  /** An upstream hold until the given instant; it never shortens an earlier one. */
  function Hold(s: Slot, until: int): Slot {
    if s.notBefore.Some? && until <= s.notBefore.value then s else s.(notBefore := Some(until))
  }

  class DomainSlot {
    const spaceSends: bool
    const window: QuotaWindow
    var lastSend: Option<int>
    var booked: seq<int>
    var notBefore: Option<int>
    var refs: int
    var lastUsed: Option<int>
    var dead: bool

    constructor (p: Pacing)
      ensures fresh(this) && fresh(window)
      ensures State() == FRESH_SLOT && Paced(p)
      ensures refs == 0 && lastUsed == None && !dead
    {
      spaceSends := p.spaceSends;
      window := new QuotaWindow(p.limit, p.period);
      lastSend, booked, notBefore := None, [], None;
      refs, lastUsed, dead := 0, None, false;
    }

    ghost predicate Paced(p: Pacing) {
      p.spaceSends == spaceSends && p.limit == window.limit && p.period == window.period
    }

    ghost function State(): Slot
      reads this, window
    {
      Slot(lastSend, booked, notBefore, window.sent)
    }

    /** Computes the earliest send and prunes the bookings that owe nothing. */
    method EarliestSpaced(now: int, minDelay: int) returns (from: int)
      modifies this`booked
      ensures from == SpacedFrom(old(booked), now, minDelay)
      ensures booked == Evicted(old(booked), now - minDelay)
    {
      var cutoff := now - minDelay;
      var i := 0;
      while i < |booked| && booked[i] <= cutoff
        invariant 0 <= i <= |booked| && booked == old(booked)
        invariant Evicted(booked[i..], cutoff) == Evicted(booked, cutoff)
      {
        assert booked[i..][1..] == booked[i + 1..];
        i := i + 1;
      }
      booked := booked[i..];
      if booked == [] {
        return now;
      }
      return booked[|booked| - 1] + minDelay;
    }

    /** Computes the wait and books the admission. The random jitter lengthens a
        nonzero wait in completion-spaced mode and never moves the booking. */
    method ReserveNext(now: int, minDelay: int, jitter: int, ghost p: Pacing) returns (wait: int, at: int)
      requires Paced(p) && p.minDelay == minDelay
      requires 0 <= jitter < JITTER_CEILING
      modifies this`booked, window
      ensures State() == Reserve(old(State()), p, now).slot
      ensures at == Reserve(old(State()), p, now).at
      ensures wait == at - now + if !spaceSends && now < at then jitter else 0
    {
      wait := 0;
      if spaceSends {
        var from := EarliestSpaced(now, minDelay);
        wait := from - now;
      } else if lastSend.Some? {
        var since := now - lastSend.value;
        if since < minDelay {
          wait := minDelay - since;
        }
      }
      if notBefore.Some? {
        var hold := notBefore.value - now;
        if wait < hold {
          wait := hold;
        }
      }
      at := now + wait;
      assert at == Base(old(State()), p, now);
      var bookWait := window.Book(at);
      at := at + bookWait;
      wait := wait + bookWait;
      if spaceSends {
        booked := booked + [at];
        return;
      }
      if 0 < wait {
        wait := wait + jitter;
      }
    }

    /** Withdraws a booking whose caller gave up before sending. */
    method Withdraw(at: int, ghost p: Pacing)
      requires Paced(p)
      modifies this`booked, window
      ensures State() == Unbook(old(State()), p, at)
    {
      window.Forget(at);
      if !spaceSends {
        return;
      }
      var i := 0;
      while i < |booked|
        invariant 0 <= i <= |booked|
        invariant booked == old(booked) && at !in booked[..i]
      {
        if booked[i] == at {
          RemoveFirstSkips(booked[..i], booked[i..], at);
          assert booked[..i] + booked[i..] == booked;
          assert booked[i..][1..] == booked[i + 1..];
          booked := booked[..i] + booked[i + 1..];
          return;
        }
        i := i + 1;
      }
      assert booked[..i] == booked;
      RemoveFirstAbsent(booked, at);
    }

    /** Drops the caller's reference. */
    method Done(now: int)
      modifies this`refs, this`lastUsed
      ensures refs == old(refs) - 1 && lastUsed == Some(now)
    {
      refs, lastUsed := refs - 1, Some(now);
    }

    /** A caller that gave up hands its booking and its reference back. */
    method GiveUp(at: int, now: int, ghost p: Pacing)
      requires Paced(p)
      modifies this`booked, this`refs, this`lastUsed, window
      ensures State() == Unbook(old(State()), p, at)
      ensures refs == old(refs) - 1 && lastUsed == Some(now)
    {
      Withdraw(at, p);
      Done(now);
    }

    /** The release of a finished request. */
    method Release(now: int, ghost p: Pacing)
      requires Paced(p)
      modifies this`lastSend, this`refs, this`lastUsed
      ensures State() == Finish(old(State()), p, now)
      ensures refs == old(refs) - 1 && lastUsed == Some(now)
    {
      if !spaceSends {
        lastSend := Some(now);
      }
      Done(now);
    }

    /** Takes a reference, as a lookup does of a slot it finds alive. */
    method Refer()
      requires !dead
      modifies this`refs
      ensures refs == old(refs) + 1
    {
      refs := refs + 1;
    }

    /** Applies an upstream's hold. A duration that is not positive does nothing,
        not even a lookup; any other takes a reference and hands it back. */
    method Penalize(dur: int, now: int)
      requires !dead
      modifies this`notBefore, this`refs, this`lastUsed
      ensures State() == if dur <= 0 then old(State()) else Hold(old(State()), now + dur)
      ensures refs == old(refs)
      ensures lastUsed == if dur <= 0 then old(lastUsed) else Some(now)
    {
      if dur <= 0 {
        return;
      }
      Refer();
      var until := now + dur;
      if notBefore == None || notBefore.value < until {
        notBefore := Some(until);
      }
      Done(now);
    }
  }

  // ----- what eviction keeps -----

  /** Eviction drops a prefix, all of it at or before the cutoff, and stops at
      the first later entry. */
  lemma {:induction false} EvictedIsSuffix(s: seq<int>, cutoff: int)
    ensures |Evicted(s, cutoff)| <= |s|
    ensures Evicted(s, cutoff) == s[|s| - |Evicted(s, cutoff)|..]
    ensures forall i :: 0 <= i < |s| - |Evicted(s, cutoff)| ==> s[i] <= cutoff
    ensures Evicted(s, cutoff) != [] ==> cutoff < Evicted(s, cutoff)[0]
  {
    if s != [] && s[0] <= cutoff {
      EvictedIsSuffix(s[1..], cutoff);
      var k := |s| - |Evicted(s, cutoff)|;
      assert s[1..][k - 1..] == s[k..];
      forall i | 0 <= i < k
        ensures s[i] <= cutoff
      {
        if i > 0 {
          assert s[i] == s[1..][i - 1];
        }
      }
    }
  }

  /** A stale front never shows after an eviction that reaches it. */
  lemma {:induction false} EvictedDropsFront(front: seq<int>, s: seq<int>, cutoff: int)
    requires forall i :: 0 <= i < |front| ==> front[i] <= cutoff
    ensures Evicted(front + s, cutoff) == Evicted(s, cutoff)
  {
    if front == [] {
      assert front + s == s;
    } else {
      assert (front + s)[1..] == front[1..] + s;
      EvictedDropsFront(front[1..], s, cutoff);
    }
  }

  /** A booking is never before the instant it was asked for. */
  lemma BookNotBefore(sent: seq<int>, limit: int, period: int, at: int)
    ensures at <= BookInto(sent, limit, period, at).at
  {
  }
}
