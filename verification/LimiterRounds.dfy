/** Completion-spaced slots whose delay divides the period: as many rounds of
    callers fit a period as delays do, and that many rounds, less one booking, is
    the largest limit that withdrawn bookings can break. The violating run withdraws
    bookings whose wait was zero, as those of LimiterExact do. */
module LimiterRounds {
  import opened Instants
  import opened DomainSlots
  import opened LimiterRuns
  import opened LimiterWithdrawals
  import opened LimiterExact
  import opened LimiterDelay

  // ----- what a run shows, whatever the window has evicted -----

  datatype Stage = Stage(now: int, last: Option<int>, inFlight: multiset<int>, sends: seq<int>)

  /** The instant the delay allows. */
  ghost function BaseOf(s: Stage, d: int): int {
    if s.last.Some? then Max(s.now, s.last.value + d) else s.now
  }

  ghost predicate Shows(p: Pacing, r: Run, s: Stage) {
    && r.now == s.now && r.inFlight == s.inFlight && r.sends == s.sends
    && r.slot.lastSend == s.last && r.slot.notBefore == None && r.slot.booked == []
    && IsTail(s.sends, r.slot.sent, BaseOf(s, p.minDelay) - p.period)
  }

  ghost predicate Staged(p: Pacing, cap: nat, s: Stage) {
    exists r :: Reachable(p, cap, r) && Shows(p, r, s)
  }

  /** What the next booking is: the base instant, or a period past the booking
      limit places back in the whole history. */
  ghost function NextAt(p: Pacing, s: Stage): int
    requires 0 < p.limit
  {
    var base := BaseOf(s, p.minDelay);
    if |s.sends| < p.limit then base else Max(base, s.sends[|s.sends| - p.limit] + p.period)
  }

  ghost function Booked(s: Stage, at: int): Stage {
    s.(inFlight := s.inFlight + multiset{at}, sends := s.sends + [at])
  }

  lemma StageStart(p: Pacing, cap: nat)
    ensures Staged(p, cap, Stage(0, None, multiset{}, []))
  {
    hide Reachable;
    ReachesStart(p, cap, 0);
    assert Shows(p, Start(0), Stage(0, None, multiset{}, []));
  }

  lemma StageTick(p: Pacing, cap: nat, s: Stage, ms: nat)
    requires Staged(p, cap, s)
    ensures Staged(p, cap, s.(now := s.now + ms))
  {
    hide Reachable;
    var r :| Reachable(p, cap, r) && Shows(p, r, s);
    ReachesNext(p, cap, r, Tick(ms));
    assert Shows(p, Next(r, p, Tick(ms)), s.(now := s.now + ms));
  }

  lemma StageComplete(p: Pacing, cap: nat, s: Stage, at: int)
    requires p.Valid() && !p.spaceSends && Staged(p, cap, s) && at in s.inFlight && at <= s.now
    requires s.last.Some? ==> s.last.value <= s.now
    ensures Staged(p, cap, s.(last := Some(s.now), inFlight := s.inFlight - multiset{at}))
  {
    hide Reachable;
    var r :| Reachable(p, cap, r) && Shows(p, r, s);
    ReachesNext(p, cap, r, Complete(at));
    assert Shows(p, Next(r, p, Complete(at)), s.(last := Some(s.now), inFlight := s.inFlight - multiset{at}));
  }

  lemma BooksAt(p: Pacing, r: Run, s: Stage)
    requires 0 < p.limit && !p.spaceSends && Shows(p, r, s)
    ensures Shows(p, Next(r, p, Admit), Booked(s, NextAt(p, s)))
  {
    hide BookInto, IsTail;
    var base := BaseOf(s, p.minDelay);
    assert Base(r.slot, p, r.now) == base;
    BookWaitsForHistory(s.sends, r.slot.sent, base - p.period, p.limit, p.period, base);
  }

  lemma StageAdmit(p: Pacing, cap: nat, s: Stage, at: int)
    requires 0 < p.limit && !p.spaceSends && Staged(p, cap, s) && |s.inFlight| < cap && at == NextAt(p, s)
    ensures Staged(p, cap, Booked(s, at))
  {
    hide Reachable, NextAt, Shows;
    var r :| Reachable(p, cap, r) && Shows(p, r, s);
    assert Enabled(r, cap, Admit) by {
      ShownInFlight(p, r, s);
    }
    ReachesNext(p, cap, r, Admit);
    BooksAt(p, r, s);
  }

  lemma ShownInFlight(p: Pacing, r: Run, s: Stage)
    requires Shows(p, r, s)
    ensures r.inFlight == s.inFlight
  {
  }

  /** A booking still inside the window is withdrawn from the history and from the
      window alike. */
  lemma StageWithdraw(p: Pacing, cap: nat, s: Stage, at: int)
    requires !p.spaceSends && Staged(p, cap, s) && at in s.inFlight && BaseOf(s, p.minDelay) - p.period < at
    ensures Staged(p, cap, s.(inFlight := s.inFlight - multiset{at}, sends := RemoveFirst(s.sends, at)))
  {
    hide Reachable, RemoveFirst;
    var r :| Reachable(p, cap, r) && Shows(p, r, s);
    ReachesNext(p, cap, r, Withdraw(at));
    var tail, bound := r.slot.sent, BaseOf(s, p.minDelay) - p.period;
    var front := s.sends[..|s.sends| - |tail|];
    assert s.sends == front + tail;
    RemoveFirstSkips(front, tail, at);
    TailOf(front, RemoveFirst(tail, at), bound);
    assert Shows(p, Next(r, p, Withdraw(at)),
                 s.(inFlight := s.inFlight - multiset{at}, sends := RemoveFirst(s.sends, at)));
  }

  // ----- many at once -----

  /** The bookings at v, one after the other, find the window open. */
  ghost predicate Open(p: Pacing, sends: seq<int>, v: int, q: nat)
    requires 0 < p.limit
  {
    var all := sends + Repeat(v, q);
    forall j :: 0 <= j && |sends| <= j + p.limit < |all| ==> all[j] + p.period <= v
  }

  lemma {:induction false} BookMany(p: Pacing, cap: nat, s: Stage, v: int, q: nat)
    requires 0 < p.limit && !p.spaceSends && Staged(p, cap, s) && |s.inFlight| + q <= cap
    requires BaseOf(s, p.minDelay) == v && Open(p, s.sends, v, q)
    ensures Staged(p, cap, s.(inFlight := s.inFlight + multiset(Repeat(v, q)), sends := s.sends + Repeat(v, q)))
  {
    hide Staged;
    if q == 0 {
      assert Repeat(v, 0) == [];
      assert s.inFlight + multiset([]) == s.inFlight && s.sends + [] == s.sends;
    } else {
      var before := s.sends + Repeat(v, q - 1);
      OpenSooner(p, s.sends, v, q);
      BookMany(p, cap, s, v, q - 1);
      var t := s.(inFlight := s.inFlight + multiset(Repeat(v, q - 1)), sends := before);
      RepeatGrows(v, q - 1);
      assert before + [v] == s.sends + Repeat(v, q);
      assert multiset(Repeat(v, q)) == multiset(Repeat(v, q - 1)) + multiset{v};
      assert |multiset(Repeat(v, q - 1))| == q - 1;
      StageAdmit(p, cap, t, v);
      assert Booked(t, v)
          == s.(inFlight := s.inFlight + multiset(Repeat(v, q)), sends := s.sends + Repeat(v, q));
    }
  }

  lemma OpenSooner(p: Pacing, sends: seq<int>, v: int, q: nat)
    requires 0 < p.limit && 0 < q && Open(p, sends, v, q)
    ensures Open(p, sends, v, q - 1)
    ensures var before := sends + Repeat(v, q - 1);
            p.limit <= |before| ==> before[|before| - p.limit] + p.period <= v
  {
    RepeatGrows(v, q - 1);
    var before, all := sends + Repeat(v, q - 1), sends + Repeat(v, q);
    assert all == before + [v];
    assert forall i :: 0 <= i < |before| ==> before[i] == all[i];
  }

  lemma {:induction false} CompleteMany(p: Pacing, cap: nat, s: Stage, v: int, q: nat, rest: multiset<int>)
    requires p.Valid() && !p.spaceSends && Staged(p, cap, s) && v <= s.now && 0 < q
    requires s.inFlight == rest + multiset(Repeat(v, q)) && (s.last.Some? ==> s.last.value <= s.now)
    ensures Staged(p, cap, s.(last := Some(s.now), inFlight := rest))
    decreases q
  {
    hide Staged;
    RepeatGrows(v, q - 1);
    var t := s.(last := Some(s.now), inFlight := rest + multiset(Repeat(v, q - 1)));
    assert multiset(Repeat(v, q)) == multiset(Repeat(v, q - 1)) + multiset{v};
    assert s.inFlight - multiset{v} == t.inFlight;
    StageComplete(p, cap, s, v);
    if q == 1 {
      assert Repeat(v, 0) == [] && t.inFlight == rest;
    } else {
      CompleteMany(p, cap, t, v, q - 1, rest);
    }
  }

  // ----- round after round -----

  /** m bookings in rounds of cap, a delay apart, from x on. */
  ghost function Slots(p: Pacing, cap: nat, x: int, m: nat): seq<int>
    requires 0 < cap
  {
    seq(m, i requires 0 <= i => x + (i / cap) * p.minDelay)
  }

  /** The size of the last round and the number of those before it. */
  lemma LastRound(p: Pacing, cap: nat, x: int, m: nat) returns (q: nat, j: nat)
    requires 0 < cap && 0 < m
    ensures 0 < q <= cap && q <= m && m - q == j * cap && j == (m - 1) / cap
    ensures Slots(p, cap, x, m) == Slots(p, cap, x, m - q) + Repeat(x + j * p.minDelay, q)
  {
    j := (m - 1) / cap;
    q := m - j * cap;
    forall i | m - q <= i < m
      ensures i / cap == j
    {
      SameRound(i, j, cap);
    }
  }

  lemma SameRound(i: nat, j: nat, cap: nat)
    requires 0 < cap && j * cap <= i < j * cap + cap
    ensures i / cap == j
  {
    var a := i / cap;
    assert i == a * cap + i % cap;
    if a < j {
      Scales(a + 1, j, cap);
    } else {
      Scales(j, a, cap);
      if j < a {
        Scales(j + 1, a, cap);
      }
    }
  }

  lemma Scales(a: nat, b: nat, c: nat)
    requires a <= b
    ensures a * c <= b * c
  {
  }

  lemma EarlierRound(m: nat, j: nat, cap: nat)
    requires 0 < cap && 0 < j && m == j * cap
    ensures 0 < m && (m - 1) / cap == j - 1
  {
    assert m == (j - 1) * cap + cap;
    assert 0 <= (j - 1) * cap;
    SameRound(m - 1, j - 1, cap);
  }

  /** Every entry from the given place on is a period after the one limit places
      before it. */
  ghost predicate SpreadFrom(all: seq<int>, from: nat, limit: nat, period: int) {
    forall j :: 0 <= j && from <= j + limit < |all| ==> all[j] + period <= all[j + limit]
  }

  /** The window is open to every booking of the rounds. */
  ghost predicate OpenRounds(p: Pacing, cap: nat, sends: seq<int>, x: int, m: nat)
    requires 0 < p.limit && 0 < cap
  {
    SpreadFrom(sends + Slots(p, cap, x, m), |sends|, p.limit, p.period)
  }

  lemma OpenRoundsSplit(p: Pacing, cap: nat, sends: seq<int>, x: int, m: nat, v: int, q: nat)
    requires 0 < p.limit && 0 < cap && OpenRounds(p, cap, sends, x, m) && q <= m
    requires Slots(p, cap, x, m) == Slots(p, cap, x, m - q) + Repeat(v, q)
    ensures OpenRounds(p, cap, sends, x, m - q)
    ensures Open(p, sends + Slots(p, cap, x, m - q), v, q)
  {
    hide Slots, SpreadFrom, Open;
    var before := sends + Slots(p, cap, x, m - q);
    assert sends + Slots(p, cap, x, m) == before + Repeat(v, q);
    SpreadPrefix(before, Repeat(v, q), |sends|, p.limit, p.period);
    SpreadRest(p, before, |sends|, v, q);
  }

  lemma SpreadPrefix(before: seq<int>, rest: seq<int>, from: nat, limit: nat, period: int)
    requires SpreadFrom(before + rest, from, limit, period)
    ensures SpreadFrom(before, from, limit, period)
  {
    var all := before + rest;
    forall j | 0 <= j && from <= j + limit < |before|
      ensures before[j] + period <= before[j + limit]
    {
      assert all[j] == before[j] && all[j + limit] == before[j + limit];
    }
  }

  lemma SpreadRest(p: Pacing, before: seq<int>, from: nat, v: int, q: nat)
    requires 0 < p.limit && from <= |before| && SpreadFrom(before + Repeat(v, q), from, p.limit, p.period)
    ensures Open(p, before, v, q)
  {
    var all := before + Repeat(v, q);
    forall j | 0 <= j && |before| <= j + p.limit < |all|
      ensures all[j] + p.period <= v
    {
      assert all[j + p.limit] == v;
    }
  }

  /** From a slot with nobody in flight and the delay over, the rounds follow each
      other, each over before the next. */
  lemma {:induction false} Pour(p: Pacing, cap: nat, s: Stage, m: nat) returns (now: int)
    requires p.Valid() && 0 < p.limit && !p.spaceSends && 0 < cap && 0 < m
    requires Staged(p, cap, s) && s.inFlight == multiset{} && BaseOf(s, p.minDelay) == s.now
    requires OpenRounds(p, cap, s.sends, s.now, m)
    ensures now == s.now + (m - 1) / cap * p.minDelay && s.now <= now
    ensures Staged(p, cap, Stage(now, Some(now), multiset{}, s.sends + Slots(p, cap, s.now, m)))
    decreases m
  {
    hide Staged, OpenRounds, Slots, Open;
    var q, j := LastRound(p, cap, s.now, m);
    now := s.now + j * p.minDelay;
    OpenRoundsSplit(p, cap, s.sends, s.now, m, now, q);
    var t := s;
    if m == q {
      NoSlots(p, cap, s.now);
      assert s.sends + [] == s.sends;
    } else {
      var before := Pour(p, cap, s, m - q);
      EarlierRound(m - q, j, cap);
      assert (j - 1) * p.minDelay + p.minDelay == j * p.minDelay;
      t := Stage(before, Some(before), multiset{}, s.sends + Slots(p, cap, s.now, m - q));
      StageTick(p, cap, t, p.minDelay);
      t := t.(now := now);
    }
    OneRound(p, cap, t, now, q);
    assert t.sends + Repeat(now, q) == s.sends + Slots(p, cap, s.now, m);
  }

  lemma NoSlots(p: Pacing, cap: nat, x: int)
    requires 0 < cap
    ensures Slots(p, cap, x, 0) == []
  {
  }

  lemma OneRound(p: Pacing, cap: nat, s: Stage, v: int, q: nat)
    requires p.Valid() && 0 < p.limit && !p.spaceSends && 0 < q && |s.inFlight| + q <= cap
    requires Staged(p, cap, s) && s.inFlight == multiset{} && s.now == v && BaseOf(s, p.minDelay) == v
    requires Open(p, s.sends, v, q)
    ensures Staged(p, cap, Stage(v, Some(v), multiset{}, s.sends + Repeat(v, q)))
  {
    hide Staged, Open;
    BookMany(p, cap, s, v, q);
    var t := s.(inFlight := s.inFlight + multiset(Repeat(v, q)), sends := s.sends + Repeat(v, q));
    CompleteMany(p, cap, t, v, q, multiset{});
  }

  // ----- the settings of the violating run -----

  /** k delays fill a period, and k rounds of callers exceed the limit; a limit
      below the cap is dealt with in LimiterDelay. */
  ghost predicate Rounded(p: Pacing, cap: nat, k: nat) {
    && p.Valid() && !p.spaceSends && 0 < p.minDelay && p.period == k * p.minDelay
    && 3 <= cap <= p.limit < k * cap && 2 <= k
  }

  /** The bookings of the last round of the first period. */
  ghost function LastOnes(p: Pacing, cap: nat, k: nat): nat
    requires Rounded(p, cap, k)
  {
    Max(2, p.limit - (k - 1) * cap)
  }

  /** The bookings of the rounds before it. */
  ghost function FirstOnes(p: Pacing, cap: nat, k: nat): nat
    requires Rounded(p, cap, k)
  {
    Sizes(p, cap, k);
    p.limit - LastOnes(p, cap, k)
  }

  /** When the last round of the first period is. */
  ghost function LastAt(p: Pacing, k: nat): int {
    (k - 1) * p.minDelay
  }

  lemma Sizes(p: Pacing, cap: nat, k: nat)
    requires Rounded(p, cap, k)
    ensures 2 <= LastOnes(p, cap, k) < cap
    ensures 1 <= p.limit - LastOnes(p, cap, k) <= (k - 1) * cap
  {
    assert k * cap == (k - 1) * cap + cap;
    assert cap <= (k - 1) * cap by {
      Scales(1, k - 1, cap);
    }
  }

  lemma LastIsBefore(p: Pacing, cap: nat, k: nat)
    requires Rounded(p, cap, k)
    ensures 0 < LastAt(p, k) < p.period == LastAt(p, k) + p.minDelay
  {
    assert p.minDelay <= (k - 1) * p.minDelay by {
      Scales(1, k - 1, p.minDelay);
    }
  }

  /** The first rounds end a delay before the last one. */
  lemma FirstRoundsEnd(p: Pacing, cap: nat, k: nat, i: nat)
    requires Rounded(p, cap, k) && i < FirstOnes(p, cap, k)
    ensures 0 <= i / cap * p.minDelay <= LastAt(p, k) - p.minDelay
  {
    hide LastOnes;
    Sizes(p, cap, k);
    RoundBelow(i, cap, k - 1);
    Scales(i / cap, k - 2, p.minDelay);
    assert (k - 2) * p.minDelay == LastAt(p, k) - p.minDelay;
  }

  lemma RoundBelow(i: nat, cap: nat, k: nat)
    requires 0 < cap && i < k * cap
    ensures 0 <= i / cap < k
  {
    var a := i / cap;
    assert a * cap + i % cap == i;
    if k <= a {
      Scales(k, a, cap);
    }
  }

  /** What stands in front when the window has been turned. */
  ghost function Front(p: Pacing, cap: nat, k: nat): seq<int>
    requires Rounded(p, cap, k)
  {
    Sizes(p, cap, k);
    Slots(p, cap, 0, FirstOnes(p, cap, k)) + Repeat(LastAt(p, k), LastOnes(p, cap, k) - 2)
  }

  // ----- the first period: a late booking gets in front of an early one -----

  lemma FirstRounds(p: Pacing, cap: nat, k: nat) returns (last: int)
    requires Rounded(p, cap, k)
    ensures last + p.minDelay <= LastAt(p, k)
    ensures Staged(p, cap, Stage(LastAt(p, k), Some(last), multiset{}, Slots(p, cap, 0, FirstOnes(p, cap, k))))
  {
    hide Staged, Slots;
    var m, start := FirstOnes(p, cap, k), Stage(0, None, multiset{}, []);
    Sizes(p, cap, k);
    StageStart(p, cap);
    assert OpenRounds(p, cap, [], 0, m) by {
      FewAreOpen(p, cap, m);
    }
    last := Pour(p, cap, start, m);
    FirstRoundsEnd(p, cap, k, m - 1);
    assert [] + Slots(p, cap, 0, m) == Slots(p, cap, 0, m);
    StageTick(p, cap, Stage(last, Some(last), multiset{}, Slots(p, cap, 0, m)), LastAt(p, k) - last);
  }

  lemma FewAreOpen(p: Pacing, cap: nat, m: nat)
    requires 0 < cap && 0 < p.limit && m <= p.limit
    ensures OpenRounds(p, cap, [], 0, m)
  {
    assert |[] + Slots(p, cap, 0, m)| == m;
  }

  /** The last round fills the window, and one more caller books a period on. */
  lemma BooksLate(p: Pacing, cap: nat, k: nat) returns (last: int)
    requires Rounded(p, cap, k)
    ensures last + p.minDelay <= LastAt(p, k)
    ensures var t, c := LastAt(p, k), LastOnes(p, cap, k);
            Staged(p, cap, Stage(t, Some(last), multiset(Repeat(t, c)) + multiset{p.period},
                                 Slots(p, cap, 0, FirstOnes(p, cap, k)) + Repeat(t, c) + [p.period]))
  {
    hide Staged;
    var t, c, m := LastAt(p, k), LastOnes(p, cap, k), FirstOnes(p, cap, k);
    Sizes(p, cap, k);
    LastIsBefore(p, cap, k);
    last := FirstRounds(p, cap, k);
    var s := Stage(t, Some(last), multiset{}, Slots(p, cap, 0, m));
    assert Open(p, s.sends, t, c);
    BookMany(p, cap, s, t, c);
    var full := Stage(t, Some(last), multiset(Repeat(t, c)), Slots(p, cap, 0, m) + Repeat(t, c));
    assert multiset{} + multiset(Repeat(t, c)) == multiset(Repeat(t, c));
    assert |full.sends| == p.limit && full.sends[0] == 0;
    StageAdmit(p, cap, full, p.period);
  }

  /** One of the last round gives up. */
  lemma DropsOne(p: Pacing, cap: nat, k: nat, last: int, c: nat)
    requires Rounded(p, cap, k) && last + p.minDelay <= LastAt(p, k) && 0 < c
    requires var t := LastAt(p, k);
             Staged(p, cap, Stage(t, Some(last), multiset(Repeat(t, c)) + multiset{p.period},
                                  Slots(p, cap, 0, FirstOnes(p, cap, k)) + Repeat(t, c) + [p.period]))
    ensures var t := LastAt(p, k);
            Staged(p, cap, Stage(t, Some(last), multiset(Repeat(t, c - 1)) + multiset{p.period},
                                 Slots(p, cap, 0, FirstOnes(p, cap, k)) + Repeat(t, c - 1) + [p.period]))
  {
    hide Staged, Slots, LastAt;
    var t, slots := LastAt(p, k), Slots(p, cap, 0, FirstOnes(p, cap, k));
    LastIsBefore(p, cap, k);
    var s := Stage(t, Some(last), multiset(Repeat(t, c)) + multiset{p.period}, slots + Repeat(t, c) + [p.period]);
    RepeatGrows(t, c - 1);
    StageWithdraw(p, cap, s, t);
    assert t !in slots by {
      SlotsBefore(p, cap, k);
    }
    assert slots + Repeat(t, c) + [p.period] == slots + ([t] + (Repeat(t, c - 1) + [p.period]));
    RemoveFirstSkips(slots, [t] + (Repeat(t, c - 1) + [p.period]), t);
    assert ([t] + (Repeat(t, c - 1) + [p.period]))[1..] == Repeat(t, c - 1) + [p.period];
    assert RemoveFirst(s.sends, t) == slots + Repeat(t, c - 1) + [p.period];
    assert multiset(Repeat(t, c)) == multiset(Repeat(t, c - 1)) + multiset{t};
    assert s.inFlight - multiset{t} == multiset(Repeat(t, c - 1)) + multiset{p.period};
  }

  lemma SlotsBefore(p: Pacing, cap: nat, k: nat)
    requires Rounded(p, cap, k)
    ensures forall x :: x in Slots(p, cap, 0, FirstOnes(p, cap, k)) ==> 0 <= x < LastAt(p, k)
  {
    forall i: nat | i < FirstOnes(p, cap, k)
      ensures 0 <= i / cap * p.minDelay < LastAt(p, k)
    {
      FirstRoundsEnd(p, cap, k, i);
    }
  }

  /** Two of the last round give up and one books at once, behind the late one; all
      but the late one are sent, and the period is over. */
  lemma Turns(p: Pacing, cap: nat, k: nat)
    requires Rounded(p, cap, k)
    ensures Staged(p, cap, Stage(p.period, Some(LastAt(p, k)), multiset{p.period},
                                 Front(p, cap, k) + [p.period, LastAt(p, k)]))
  {
    hide Staged, Slots, LastAt, LastOnes;
    var t, c, m, late := LastAt(p, k), LastOnes(p, cap, k), FirstOnes(p, cap, k), multiset{p.period};
    Sizes(p, cap, k);
    LastIsBefore(p, cap, k);
    var last := BooksLate(p, cap, k);
    DropsOne(p, cap, k, last, c);
    DropsOne(p, cap, k, last, c - 1);
    var s := Stage(t, Some(last), multiset(Repeat(t, c - 2)) + late, Front(p, cap, k) + [p.period]);
    assert |s.sends| < p.limit by {
      SlotsCount(p, cap, 0, m);
    }
    StageAdmit(p, cap, s, t);
    RepeatGrows(t, c - 2);
    assert multiset(Repeat(t, c - 1)) == multiset(Repeat(t, c - 2)) + multiset{t};
    assert Front(p, cap, k) + [p.period] + [t] == Front(p, cap, k) + [p.period, t];
    var turned := Stage(t, Some(last), late + multiset(Repeat(t, c - 1)), Front(p, cap, k) + [p.period, t]);
    assert Booked(s, t) == turned;
    CompleteMany(p, cap, turned, t, c - 1, late);
    StageTick(p, cap, turned.(last := Some(t), inFlight := late), p.minDelay);
  }

  lemma SlotsCount(p: Pacing, cap: nat, x: int, m: nat)
    requires 0 < cap
    ensures |Slots(p, cap, x, m)| == m
  {
  }

  // ----- the second period: everything again, and two more -----

  /** The bookings behind the turned ones, up to those that break the quota. */
  ghost function Behind(p: Pacing, cap: nat, k: nat): seq<int>
    requires Rounded(p, cap, k)
  {
    Sizes(p, cap, k);
    Slots(p, cap, p.period, FirstOnes(p, cap, k))[1..]
  }

  ghost function Again(p: Pacing, cap: nat, k: nat): seq<int>
    requires Rounded(p, cap, k)
  {
    Sizes(p, cap, k);
    Front(p, cap, k) + [p.period, LastAt(p, k)]
    + Behind(p, cap, k) + Repeat(p.period + LastAt(p, k), LastOnes(p, cap, k) - 1)
  }

  lemma AgainLengths(p: Pacing, cap: nat, k: nat)
    requires Rounded(p, cap, k)
    ensures |Front(p, cap, k)| == p.limit - 2 && |Behind(p, cap, k)| == FirstOnes(p, cap, k) - 1
    ensures |Again(p, cap, k)| == 2 * p.limit - 2
  {
    Sizes(p, cap, k);
  }

  lemma AgainFirst(p: Pacing, cap: nat, k: nat, j: nat)
    requires Rounded(p, cap, k) && j < p.limit - 2 < |Again(p, cap, k)|
    ensures Again(p, cap, k)[j] == if j < FirstOnes(p, cap, k) then j / cap * p.minDelay else LastAt(p, k)
  {
    hide LastAt, LastOnes, Behind;
    Sizes(p, cap, k);
    AgainLengths(p, cap, k);
    assert Again(p, cap, k)[j] == Front(p, cap, k)[j];
  }

  lemma AgainSecond(p: Pacing, cap: nat, k: nat, j: nat)
    requires Rounded(p, cap, k) && j < p.limit - 2 && j + p.limit < |Again(p, cap, k)|
    ensures Again(p, cap, k)[j + p.limit]
         == p.period + if j + 1 < FirstOnes(p, cap, k) then (j + 1) / cap * p.minDelay else LastAt(p, k)
  {
    hide LastAt, LastOnes, Front;
    Sizes(p, cap, k);
    AgainLengths(p, cap, k);
    var m := FirstOnes(p, cap, k);
    if j + 1 < m {
      assert Again(p, cap, k)[j + p.limit] == Behind(p, cap, k)[j];
    } else {
      assert Again(p, cap, k)[j + p.limit] == Repeat(p.period + LastAt(p, k), LastOnes(p, cap, k) - 1)[j + 1 - m];
    }
  }

  /** Each booking of the second period is a period after its fellow of the first. */
  lemma AgainIsOpen(p: Pacing, cap: nat, k: nat)
    requires Rounded(p, cap, k)
    ensures SpreadFrom(Again(p, cap, k), p.limit, p.limit, p.period)
  {
    hide Again, LastOnes, FirstOnes, LastAt, Rounded;
    AgainLengths(p, cap, k);
    var all, m := Again(p, cap, k), FirstOnes(p, cap, k);
    forall j | 0 <= j && p.limit <= j + p.limit < |all|
      ensures all[j] + p.period <= all[j + p.limit]
    {
      AgainFellow(p, cap, k, j);
    }
  }

  lemma AgainFellow(p: Pacing, cap: nat, k: nat, j: nat)
    requires Rounded(p, cap, k) && |Again(p, cap, k)| == 2 * p.limit - 2 && j < p.limit - 2
    ensures Again(p, cap, k)[j] + p.period <= Again(p, cap, k)[j + p.limit]
  {
    hide Again, LastOnes, FirstOnes, LastAt;
    AgainFirst(p, cap, k, j);
    AgainSecond(p, cap, k, j);
    if j + 1 < FirstOnes(p, cap, k) {
      LaterRounds(p, cap, j);
    } else if j < FirstOnes(p, cap, k) {
      FirstRoundsEnd(p, cap, k, j);
    }
  }

  lemma LaterRounds(p: Pacing, cap: nat, j: nat)
    requires 0 < cap && 0 <= p.minDelay
    ensures j / cap * p.minDelay <= (j + 1) / cap * p.minDelay
  {
    LaterRound(j, cap);
    Scales(j / cap, (j + 1) / cap, p.minDelay);
  }

  lemma LaterRound(i: nat, cap: nat)
    requires 0 < cap
    ensures i / cap <= (i + 1) / cap
  {
    var a, b := i / cap, (i + 1) / cap;
    if b < a {
      Scales(b + 1, a, cap);
    }
  }

  lemma NextRound(i: nat, cap: nat)
    requires 0 < cap
    ensures (cap + i) / cap == 1 + i / cap
  {
    assert i == i / cap * cap + i % cap;
    assert (1 + i / cap) * cap == cap + i / cap * cap;
    SameRound(cap + i, 1 + i / cap, cap);
  }

  lemma FirstOfRounds(p: Pacing, cap: nat, x: int, m: nat)
    requires 0 < cap && m <= cap
    ensures Slots(p, cap, x, m) == Repeat(x, m)
  {
    forall i: nat | i < m
      ensures i / cap == 0
    {
      SameRound(i, 0, cap);
    }
  }

  lemma RestOfRounds(p: Pacing, cap: nat, x: int, m: nat)
    requires 0 < cap <= m
    ensures Slots(p, cap, x, m) == Repeat(x, cap) + Slots(p, cap, x + p.minDelay, m - cap)
  {
    FirstOfRounds(p, cap, x, cap);
    assert Slots(p, cap, x, m)[..cap] == Slots(p, cap, x, cap);
    forall j: nat | cap <= j < m
      ensures Slots(p, cap, x, m)[j] == Slots(p, cap, x + p.minDelay, m - cap)[j - cap]
    {
      var i := j - cap;
      NextRound(i, cap);
      assert (1 + i / cap) * p.minDelay == p.minDelay + i / cap * p.minDelay;
    }
    assert Slots(p, cap, x, m)[cap..] == Slots(p, cap, x + p.minDelay, m - cap);
  }

  /** What is behind the turned ones: the first round, which the late one shares, and
      the rounds after it. */
  ghost function Later(p: Pacing, cap: nat, k: nat): seq<int>
    requires Rounded(p, cap, k)
  {
    var m := FirstOnes(p, cap, k);
    if m <= cap then [] else Slots(p, cap, p.period + p.minDelay, m - cap)
  }

  lemma BehindSplits(p: Pacing, cap: nat, k: nat)
    requires Rounded(p, cap, k)
    ensures Behind(p, cap, k) == Repeat(p.period, Min(FirstOnes(p, cap, k), cap) - 1) + Later(p, cap, k)
  {
    hide LastOnes, Slots;
    Sizes(p, cap, k);
    var m, P := FirstOnes(p, cap, k), p.period;
    if m <= cap {
      FirstOfRounds(p, cap, P, m);
      assert Repeat(P, m)[1..] == Repeat(P, m - 1);
    } else {
      RestOfRounds(p, cap, P, m);
      assert Repeat(P, cap)[1..] == Repeat(P, cap - 1);
    }
  }

  /** The first round of the second period: those that meet the late one. */
  lemma MeetsLate(p: Pacing, cap: nat, k: nat)
    requires Rounded(p, cap, k)
    ensures var q := Min(FirstOnes(p, cap, k), cap) - 1;
            Staged(p, cap, Stage(p.period, Some(p.period), multiset{},
                                 Front(p, cap, k) + [p.period, LastAt(p, k)] + Repeat(p.period, q)))
  {
    hide Staged, Front, LastAt, Open, Behind, Later, SpreadFrom;
    Sizes(p, cap, k);
    LastIsBefore(p, cap, k);
    Turns(p, cap, k);
    var P, q, late := p.period, Min(FirstOnes(p, cap, k), cap) - 1, multiset{p.period};
    var turned := Front(p, cap, k) + [P, LastAt(p, k)];
    var s := Stage(P, Some(LastAt(p, k)), late, turned);
    assert Open(p, turned, P, q) by {
      OpenToFirst(p, cap, k);
    }
    BookMany(p, cap, s, P, q);
    RepeatGrows(P, q);
    var t := s.(inFlight := late + multiset(Repeat(P, q)), sends := turned + Repeat(P, q));
    assert multiset(Repeat(P, q + 1)) == multiset(Repeat(P, q)) + multiset{P};
    assert t.inFlight == multiset{} + multiset(Repeat(P, q + 1));
    CompleteMany(p, cap, t, P, q + 1, multiset{});
  }

  lemma OpenToFirst(p: Pacing, cap: nat, k: nat)
    requires Rounded(p, cap, k)
    ensures 0 < FirstOnes(p, cap, k)
    ensures Open(p, Front(p, cap, k) + [p.period, LastAt(p, k)], p.period, Min(FirstOnes(p, cap, k), cap) - 1)
  {
    hide Front, LastAt, LastOnes, Open, Behind, Later, SpreadFrom;
    Sizes(p, cap, k);
    AgainIsOpen(p, cap, k);
    AgainLengths(p, cap, k);
    BehindSplits(p, cap, k);
    var turned, q := Front(p, cap, k) + [p.period, LastAt(p, k)], Min(FirstOnes(p, cap, k), cap) - 1;
    var rest := Later(p, cap, k) + Repeat(p.period + LastAt(p, k), LastOnes(p, cap, k) - 1);
    assert Again(p, cap, k) == turned + Repeat(p.period, q) + rest;
    SpreadPrefix(turned + Repeat(p.period, q), rest, p.limit, p.limit, p.period);
    SpreadRest(p, turned, p.limit, p.period, q);
  }

  lemma SpreadFurther(all: seq<int>, from: nat, later: nat, limit: nat, period: int)
    requires SpreadFrom(all, from, limit, period) && from <= later
    ensures SpreadFrom(all, later, limit, period)
  {
  }

  lemma OpenToLater(p: Pacing, cap: nat, k: nat)
    requires Rounded(p, cap, k) && cap < FirstOnes(p, cap, k)
    ensures OpenRounds(p, cap, Front(p, cap, k) + [p.period, LastAt(p, k)] + Repeat(p.period, cap - 1),
                       p.period + p.minDelay, FirstOnes(p, cap, k) - cap)
  {
    hide Front, LastAt, LastOnes, Behind, SpreadFrom, Slots;
    Sizes(p, cap, k);
    AgainIsOpen(p, cap, k);
    AgainLengths(p, cap, k);
    BehindSplits(p, cap, k);
    var met := Front(p, cap, k) + [p.period, LastAt(p, k)] + Repeat(p.period, cap - 1);
    var last := Repeat(p.period + LastAt(p, k), LastOnes(p, cap, k) - 1);
    assert Again(p, cap, k) == met + Later(p, cap, k) + last;
    SpreadPrefix(met + Later(p, cap, k), last, p.limit, p.limit, p.period);
    SpreadFurther(met + Later(p, cap, k), p.limit, |met|, p.limit, p.period);
  }

  /** All the first rounds of the second period. */
  lemma SecondRounds(p: Pacing, cap: nat, k: nat) returns (now: int)
    requires Rounded(p, cap, k)
    ensures now + p.minDelay <= p.period + LastAt(p, k)
    ensures Staged(p, cap, Stage(now, Some(now), multiset{},
                                 Front(p, cap, k) + [p.period, LastAt(p, k)] + Behind(p, cap, k)))
  {
    hide Staged, Front, LastAt, LastOnes, FirstOnes, OpenRounds, Behind, Slots;
    Sizes(p, cap, k);
    LastIsBefore(p, cap, k);
    MeetsLate(p, cap, k);
    BehindSplits(p, cap, k);
    var P, m, turned := p.period, FirstOnes(p, cap, k), Front(p, cap, k) + [p.period, LastAt(p, k)];
    assert 0 < m by {
      OpenToFirst(p, cap, k);
    }
    FirstRoundsEnd(p, cap, k, m - 1);
    if m <= cap {
      now := P;
      assert turned + Repeat(P, m - 1) == turned + Behind(p, cap, k);
    } else {
      var met := turned + Repeat(P, cap - 1);
      StageTick(p, cap, Stage(P, Some(P), multiset{}, met), p.minDelay);
      OpenToLater(p, cap, k);
      now := Pour(p, cap, Stage(P + p.minDelay, Some(P), multiset{}, met), m - cap);
      NextRound(m - cap - 1, cap);
      assert (1 + (m - cap - 1) / cap) * p.minDelay == p.minDelay + (m - cap - 1) / cap * p.minDelay;
      assert met + Later(p, cap, k) == turned + Behind(p, cap, k);
    }
  }

  /** The last round as far as the window is open to it. */
  lemma LastRoundAgain(p: Pacing, cap: nat, k: nat) returns (last: int)
    requires Rounded(p, cap, k)
    ensures var v := p.period + LastAt(p, k);
            && last + p.minDelay <= v
            && Staged(p, cap, Stage(v, Some(last), multiset(Repeat(v, LastOnes(p, cap, k) - 1)), Again(p, cap, k)))
  {
    hide Staged, Front, LastAt, Open, Behind, SpreadFrom;
    Sizes(p, cap, k);
    last := SecondRounds(p, cap, k);
    AgainIsOpen(p, cap, k);
    AgainLengths(p, cap, k);
    var v, c := p.period + LastAt(p, k), LastOnes(p, cap, k);
    var before := Front(p, cap, k) + [p.period, LastAt(p, k)] + Behind(p, cap, k);
    StageTick(p, cap, Stage(last, Some(last), multiset{}, before), v - last);
    SpreadRest(p, before, p.limit, v, c - 1);
    BookMany(p, cap, Stage(v, Some(last), multiset{}, before), v, c - 1);
    assert multiset{} + multiset(Repeat(v, c - 1)) == multiset(Repeat(v, c - 1));
  }

  /** The late one in front sends the next caller away for another period; once that
      one gives up, the early one behind it has let two more through. */
  lemma ReachesOneTooMany(p: Pacing, cap: nat, k: nat) returns (s: Stage)
    requires Rounded(p, cap, k)
    ensures Staged(p, cap, s)
    ensures s.sends == Again(p, cap, k) + [p.period + LastAt(p, k), p.period + LastAt(p, k)]
  {
    hide Staged, Again, LastAt;
    Sizes(p, cap, k);
    LastIsBefore(p, cap, k);
    var last := LastRoundAgain(p, cap, k);
    var all, v, c, away := Again(p, cap, k), p.period + LastAt(p, k), LastOnes(p, cap, k), 2 * p.period;
    assert |all| == 2 * p.limit - 2 && all[p.limit - 2] == p.period && all[p.limit - 1] == LastAt(p, k) by {
      TurnedPair(p, cap, k);
    }
    var s0 := Stage(v, Some(last), multiset(Repeat(v, c - 1)), all);
    StageAdmit(p, cap, s0, away);
    var s1 := Booked(s0, away);
    StageAdmit(p, cap, s1, v);
    var s2 := Booked(s1, v);
    StageWithdraw(p, cap, s2, away);
    assert RemoveFirst(s2.sends, away) == all + [v] by {
      AwayIsNew(p, cap, k);
      assert s2.sends == all + [away] + [v];
      WithdrawBehind(all, away, v);
    }
    var s3 := s2.(inFlight := s2.inFlight - multiset{away}, sends := all + [v]);
    assert s3.inFlight == multiset(Repeat(v, c - 1)) + multiset{v};
    StageAdmit(p, cap, s3, v);
    s := Booked(s3, v);
    assert all + [v] + [v] == all + [v, v];
  }

  lemma TurnedPair(p: Pacing, cap: nat, k: nat)
    requires Rounded(p, cap, k)
    ensures var all := Again(p, cap, k);
            |all| == 2 * p.limit - 2 && all[p.limit - 2] == p.period && all[p.limit - 1] == LastAt(p, k)
  {
    hide Front, Behind, LastAt, LastOnes;
    AgainLengths(p, cap, k);
  }

  /** Nothing but the first period's last round and what came before is outside the
      second period. */
  lemma SecondPeriod(p: Pacing, cap: nat, k: nat)
    requires Rounded(p, cap, k)
    ensures forall x :: x in Behind(p, cap, k) ==> p.period <= x < 2 * p.period
  {
    Sizes(p, cap, k);
    LastIsBefore(p, cap, k);
    forall i: nat | i < FirstOnes(p, cap, k)
      ensures 0 <= i / cap * p.minDelay < LastAt(p, k)
    {
      FirstRoundsEnd(p, cap, k, i);
    }
  }

  lemma FrontBefore(p: Pacing, cap: nat, k: nat)
    requires Rounded(p, cap, k)
    ensures forall x :: x in Front(p, cap, k) ==> x < p.period
  {
    hide Slots, LastAt, LastOnes;
    SlotsBefore(p, cap, k);
    LastIsBefore(p, cap, k);
    Sizes(p, cap, k);
    forall x | x in Front(p, cap, k)
      ensures x < p.period
    {
      if x !in Slots(p, cap, 0, FirstOnes(p, cap, k)) {
        assert x in Repeat(LastAt(p, k), LastOnes(p, cap, k) - 2);
      }
    }
  }

  lemma AwayIsNew(p: Pacing, cap: nat, k: nat)
    requires Rounded(p, cap, k)
    ensures 2 * p.period !in Again(p, cap, k)
  {
    hide Front, Behind, LastAt, LastOnes;
    FrontBefore(p, cap, k);
    SecondPeriod(p, cap, k);
    LastIsBefore(p, cap, k);
    Sizes(p, cap, k);
    var turned, last := [p.period, LastAt(p, k)], Repeat(p.period + LastAt(p, k), LastOnes(p, cap, k) - 1);
    forall x | x in Again(p, cap, k)
      ensures x < 2 * p.period
    {
      assert x in Front(p, cap, k) || x in turned || x in Behind(p, cap, k) || x in last;
    }
  }

  lemma OneTooMany(p: Pacing, cap: nat, k: nat)
    requires Rounded(p, cap, k)
    ensures var v := p.period + LastAt(p, k);
            p.limit < CountIn(Again(p, cap, k) + [v, v], p.period, p.period)
  {
    hide Front, Behind, LastAt, CountIn, LastOnes;
    Sizes(p, cap, k);
    LastIsBefore(p, cap, k);
    AgainLengths(p, cap, k);
    SecondPeriod(p, cap, k);
    var P, t := p.period, LastAt(p, k);
    var last := Repeat(P + t, LastOnes(p, cap, k) - 1) + [P + t, P + t];
    var tail := [t] + (Behind(p, cap, k) + last);
    assert Again(p, cap, k) + [P + t, P + t] == Front(p, cap, k) + ([P] + tail);
    CountInConcat(Front(p, cap, k), [P] + tail, P, P);
    CountInConcat([P], tail, P, P);
    CountInConcat([t], Behind(p, cap, k) + last, P, P);
    CountInAll([P], P, P);
    var behind := Behind(p, cap, k);
    assert forall i :: 0 <= i < |behind| ==> behind[i] in behind;
    CountInConcat(behind, last, P, P);
    CountInAll(behind, P, P);
    CountInAll(last, P, P);
  }

  lemma RoundsBreakQuota(p: Pacing, cap: nat, k: nat)
    requires Rounded(p, cap, k)
    ensures !QuotaSafe(p, cap)
  {
    hide Again, LastAt, CountIn, Legal, Exec;
    var s := ReachesOneTooMany(p, cap, k);
    OneTooMany(p, cap, k);
    var r :| Reachable(p, cap, r) && Shows(p, r, s);
    var start, steps :| Legal(p, cap, start, steps) && Exec(p, start, steps) == r;
    assert !QuotaHolds(r.sends, p.limit, p.period);
  }

  /** With a delay that divides the period, a completion-spaced slot keeps its quota
      under withdrawals exactly when at most two callers can be in flight, the limit
      is one, or the rounds that fit a period stay within the limit. */
  lemma DividingDelayQuotaExactly(p: Pacing, cap: nat)
    requires p.Valid() && 0 < p.limit && !p.spaceSends && 0 < p.minDelay && p.period % p.minDelay == 0
    ensures QuotaSafe(p, cap) <==> cap <= 2 || p.limit == 1 || p.period / p.minDelay * cap <= p.limit
  {
    hide Legal, Exec, QuotaHolds;
    var k := p.period / p.minDelay;
    assert p.period == k * p.minDelay && 0 < k;
    if cap <= 2 || p.limit == 1 || k * cap <= p.limit {
      forall start, steps | Legal(p, cap, start, steps)
        ensures QuotaHolds(Exec(p, start, steps).sends, p.limit, p.period)
      {
        if cap <= 2 || p.limit == 1 {
          CompletionQuota(p, cap, start, steps);
        } else {
          CompletionQuotaByPlaces(p, cap, k, start, steps);
        }
      }
    } else if p.limit < cap {
      CrowdBreaksQuota(p, cap);
    } else {
      RoundsBreakQuota(p, cap, k);
    }
  }

  /** As many rounds as begin within a period. */
  function RoundsOf(p: Pacing): nat
    requires 0 < p.minDelay && 0 < p.period
  {
    (p.period + p.minDelay - 1) / p.minDelay
  }

  /** The settings with an exact condition: no delay, one that divides the period, or
      one that covers it. */
  ghost predicate EvenlySpaced(p: Pacing) {
    p.minDelay == 0 || p.period % p.minDelay == 0 || p.period <= p.minDelay
  }

  lemma RoundsAre(p: Pacing)
    requires 0 < p.minDelay && 0 < p.period
    ensures p.period % p.minDelay == 0 ==> RoundsOf(p) == p.period / p.minDelay
    ensures p.period <= p.minDelay ==> RoundsOf(p) == 1
  {
    var d, k := p.minDelay, p.period / p.minDelay;
    if p.period % d == 0 {
      assert p.period == k * d;
      SameRound(p.period + d - 1, k, d);
    }
    if p.period <= d {
      SameRound(p.period + d - 1, 1, d);
    }
  }

  /** A completion-spaced slot keeps its quota under withdrawals exactly when at most
      two callers can be in flight, the limit is one, or there is a delay and the
      rounds that begin within a period stay within the limit. */
  lemma CompletionSpacedQuotaExactly(p: Pacing, cap: nat)
    requires p.Valid() && 0 < p.limit && !p.spaceSends && EvenlySpaced(p)
    ensures QuotaSafe(p, cap) <==>
            cap <= 2 || p.limit == 1 || (0 < p.minDelay && RoundsOf(p) * cap <= p.limit)
  {
    hide QuotaSafe;
    if p.minDelay == 0 {
      CompletionQuotaExactly(p, cap);
    } else {
      RoundsAre(p);
      if p.period <= p.minDelay {
        WideDelayQuotaExactly(p, cap);
      } else {
        DividingDelayQuotaExactly(p, cap);
      }
    }
  }
}
