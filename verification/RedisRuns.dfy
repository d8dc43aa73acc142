/** Runs of the distributed limiter: any number of replicas, in any interleaving,
    acquire and release requests to one host, crash in the middle of them and pass
    on upstream penalties, while the server clock advances and the server drops
    keys whose TTL has run out. Each script is one atomic step. */
module RedisRuns {
  import opened Instants
  import opened RedisScripts

  datatype Step =
    | Tick(ms: nat)
    | Request(nonce: Nonce)
    | Finish(nonce: Nonce)
    | Crash(nonce: Nonce)      // the replica dies, or its release never reaches the server
    | Penalize(hold: int)
    | DropWindow
    | DropNext
    | DropLeases

  /** The store and the server clock; the history of admission instants; the
      admissions whose lease no script has freed; the requests still running;
      every nonce used so far. */
  datatype Cluster = Cluster(store: Store, now: int, admitted: seq<int>,
                             booked: map<Nonce, int>, running: set<Nonce>, used: set<Nonce>)

  ghost function Start(now: int): Cluster {
    Cluster(EMPTY_STORE, now, [], map[], {}, {})
  }

  ghost predicate Enabled(s: Cluster, step: Step) {
    match step
    case Request(n) => n !in s.used
    case Finish(n) => n in s.running
    case Crash(n) => n in s.running
    case DropWindow => s.store.winUntil <= s.now
    case DropNext => s.store.nextUntil <= s.now
    case DropLeases => s.store.leasesUntil <= s.now
    case _ => true
  }

  ghost function AfterRequest(s: Cluster, c: Config, n: Nonce): Cluster {
    var o := Acquire(s.store, c, s.now, n);
    var t := s.(store := o.store, used := s.used + {n});
    if o.reply != 0 then t
    else t.(admitted := s.admitted + [s.now], booked := s.booked[n := s.now], running := s.running + {n})
  }

  ghost function AfterFinish(s: Cluster, c: Config, n: Nonce): Cluster {
    var t := s.(running := s.running - {n}, booked := s.booked - {n});
    if 0 < c.cap then t.(store := FreeLease(s.store, n))
    else t.(store := Bump(s.store, c.delay, s.now).store)
  }

  ghost function Next(s: Cluster, c: Config, step: Step): Cluster {
    match step
    case Tick(ms) => s.(now := s.now + ms)
    case Request(n) => AfterRequest(s, c, n)
    case Finish(n) => AfterFinish(s, c, n)
    case Crash(n) => s.(running := s.running - {n})
    case Penalize(hold) => s.(store := Bump(s.store, hold, s.now).store)
    case DropWindow => s.(store := s.store.(win := []))
    case DropNext => s.(store := s.store.(next := None))
    case DropLeases => s.(store := s.store.(leases := []))
  }

  ghost function Exec(s: Cluster, c: Config, steps: seq<Step>): Cluster {
    if steps == [] then s
    else Next(Exec(s, c, steps[..|steps| - 1]), c, steps[|steps| - 1])
  }

  ghost predicate Legal(s: Cluster, c: Config, steps: seq<Step>) {
    steps == [] ||
    (Legal(s, c, steps[..|steps| - 1]) && Enabled(Exec(s, c, steps[..|steps| - 1]), steps[|steps| - 1]))
  }

  ghost predicate Reachable(c: Config, s: Cluster) {
    exists start, steps :: Legal(Start(start), c, steps) && Exec(Start(start), c, steps) == s
  }

  lemma ReachesStart(c: Config, start: int)
    ensures Reachable(c, Start(start))
  {
    assert Legal(Start(start), c, []) && Exec(Start(start), c, []) == Start(start);
  }

  lemma ReachesNext(c: Config, s: Cluster, step: Step)
    requires Reachable(c, s) && Enabled(s, step)
    ensures Reachable(c, Next(s, c, step))
  {
    var start, steps :| Legal(Start(start), c, steps) && Exec(Start(start), c, steps) == s;
    var more := steps + [step];
    assert more[..|more| - 1] == steps;
    assert Legal(Start(start), c, more) && Exec(Start(start), c, more) == Next(s, c, step);
  }

  // ----- the window and the history of admissions -----

  ghost function Scores(z: SortedSet): seq<int> {
    seq(|z|, i requires 0 <= i < |z| => z[i].score)
  }

  ghost predicate HistoryInv(s: Cluster) {
    && Sorted(s.admitted)
    && (forall i :: 0 <= i < |s.admitted| ==> s.admitted[i] <= s.now)
  }

  /** The window key lists the admissions of the last window, each under a nonce
      already used, and its TTL outlives every one of them. */
  ghost predicate WindowInv(s: Cluster, c: Config) {
    var win := s.store.win;
    if c.quota == 0 then win == []
    else
      && IsTail(s.admitted, Scores(win), s.now - c.window)
      && (forall i :: 0 <= i < |win| ==>
            win[i].score + c.window + KEY_TTL_SLACK <= s.store.winUntil && win[i].nonce in s.used)
  }

  lemma WindowByScore(s: Cluster, c: Config)
    requires HistoryInv(s) && WindowInv(s, c)
    ensures ByScore(s.store.win)
    ensures forall i :: 0 <= i < |s.store.win| ==> s.store.win[i].score <= s.now
  {
    var z, n, k := s.store.win, |s.admitted|, |s.store.win|;
    forall i | 0 <= i < k
      ensures z[i].score == s.admitted[n - k + i]
    {
      assert Scores(z)[i] == z[i].score;
    }
  }

  /** When the window next opens, told from the key as stored. */
  ghost function Opening(z: SortedSet, c: Config, now: int): int {
    if 0 < c.quota <= |z| then z[|z| - c.quota].score + c.window else now
  }

  /** The instant the pacing key alone allows. */
  ghost function PaceFloor(s: Store, now: int): int {
    if s.next.Some? then Max(now, s.next.value) else now
  }

  /** The instant the script computes does not depend on what was purged before. */
  lemma AdmitAtUnpurged(s: Store, c: Config, now: int)
    requires ByScore(s.win)
    ensures AdmitAt(s, c, now) == Max(PaceFloor(s, now), Opening(s.win, c, now))
  {
    hide Purge;
    if 0 < c.quota {
      PurgeDropsFront(s.win, now - c.window);
    }
  }

  lemma PurgedTail(s: Cluster, c: Config)
    requires 0 < c.quota && HistoryInv(s) && WindowInv(s, c)
    ensures IsTail(s.admitted, Scores(Purge(s.store.win, s.now - c.window)), s.now - c.window)
  {
    hide Purge;
    var z, kept := s.store.win, Purge(s.store.win, s.now - c.window);
    WindowByScore(s, c);
    PurgeDropsFront(z, s.now - c.window);
    var n, k, m := |s.admitted|, |z|, |kept|;
    forall i | 0 <= i < n - m
      ensures s.admitted[i] <= s.now - c.window
    {
      if n - k <= i {
        assert s.admitted[i] == Scores(z)[i - (n - k)];
      }
    }
    assert Scores(kept) == Scores(z)[k - m..];
  }

  /** The store after an admission adds it at the end of the window. */
  lemma AdmissionAppends(z: SortedSet, now: int, n: Nonce, used: set<Nonce>)
    requires n !in used
    requires forall i :: 0 <= i < |z| ==> z[i].score <= now && z[i].nonce in used
    ensures Add(z, now, n) == z + [Scored(now, n)]
    ensures Scores(Add(z, now, n)) == Scores(z) + [now]
  {
    RemoveAbsent(z, n);
    InsertLast(z, Scored(now, n));
  }

  lemma SweptInv(s: Cluster, c: Config)
    requires c.Valid() && HistoryInv(s) && WindowInv(s, c)
    ensures WindowInv(s.(store := s.store.(win := Swept(s.store, c, s.now))), c)
  {
    hide Purge;
    if 0 < c.quota {
      PurgedTail(s, c);
      WindowByScore(s, c);
      PurgeDropsFront(s.store.win, s.now - c.window);
    }
  }

  lemma WindowAdmits(s: Cluster, t: Cluster, c: Config, n: Nonce)
    requires 0 < c.quota && 0 < c.window && HistoryInv(s) && WindowInv(s, c) && n !in s.used
    requires t.store.win == Add(s.store.win, s.now, n)
    requires t.store.winUntil == s.now + c.window + KEY_TTL_SLACK
    requires t.now == s.now && t.admitted == s.admitted + [s.now] && t.used == s.used + {n}
    ensures WindowInv(t, c)
  {
    hide Add;
    WindowByScore(s, c);
    AdmissionAppends(s.store.win, s.now, n, s.used);
    TailAppended(s.admitted, Scores(s.store.win), s.now - c.window, s.now);
  }

  lemma WindowRequest(s: Cluster, c: Config, n: Nonce)
    requires c.Valid() && HistoryInv(s) && WindowInv(s, c) && n !in s.used
    ensures WindowInv(AfterRequest(s, c, n), c)
  {
    hide Purge, Add, AdmitAt;
    var swept := s.(store := s.store.(win := Swept(s.store, c, s.now)));
    SweptInv(s, c);
    var t := AfterRequest(s, c, n);
    if t.admitted != s.admitted && 0 < c.quota {
      WindowAdmits(swept, t, c, n);
    }
  }

  // ----- the earliest next admission -----

  /** The earliest instant anyone can be admitted, as the stored state stands. */
  ghost function Earliest(s: Cluster, c: Config): int {
    AdmitAt(s.store, c, s.now)
  }

  /** The pacing key outlives the instant it holds, and that instant spaces the
      next admission from the last one. */
  ghost predicate PaceInv(s: Cluster, c: Config) {
    && (s.store.next.Some? ==> s.store.next.value + KEY_TTL_SLACK <= s.store.nextUntil)
    && (0 < c.delay && s.admitted != [] ==>
          s.admitted[|s.admitted| - 1] + c.delay <= PaceFloor(s.store, s.now))
  }

  ghost predicate PacingInv(s: Cluster, c: Config) {
    HistoryInv(s) && WindowInv(s, c) && PaceInv(s, c)
  }

  lemma EarliestIs(s: Cluster, c: Config)
    requires HistoryInv(s) && WindowInv(s, c)
    ensures Earliest(s, c) == Max(PaceFloor(s.store, s.now), Opening(s.store.win, c, s.now))
  {
    WindowByScore(s, c);
    AdmitAtUnpurged(s.store, c, s.now);
  }

  /** A request that is not admitted leaves the earliest instant as it was. */
  lemma RefusalKeepsEarliest(s: Cluster, c: Config, n: Nonce)
    requires c.Valid() && HistoryInv(s) && WindowInv(s, c) && n !in s.used
    requires Acquire(s.store, c, s.now, n).reply != 0
    ensures Earliest(AfterRequest(s, c, n), c) == Earliest(s, c)
  {
    hide Purge, Opening;
    var t := AfterRequest(s, c, n);
    WindowRequest(s, c, n);
    EarliestIs(s, c);
    EarliestIs(t, c);
    SweptOpening(s, c);
  }

  lemma SweptOpening(s: Cluster, c: Config)
    requires HistoryInv(s) && WindowInv(s, c)
    ensures Max(s.now, Opening(Swept(s.store, c, s.now), c, s.now)) == Max(s.now, Opening(s.store.win, c, s.now))
  {
    hide Purge;
    if 0 < c.quota {
      WindowByScore(s, c);
      PurgeDropsFront(s.store.win, s.now - c.window);
    }
  }

  /** An admission happens only at the earliest instant, and moves it on. */
  lemma AdmissionAtEarliest(s: Cluster, c: Config, n: Nonce)
    requires Acquire(s.store, c, s.now, n).reply == 0
    ensures Earliest(s, c) == s.now
    ensures AfterRequest(s, c, n).now == s.now <= Earliest(AfterRequest(s, c, n), c)
  {
    hide Purge, Add;
  }

  lemma EarliestNeverEarlier(s: Cluster, c: Config, step: Step)
    requires c.Valid() && HistoryInv(s) && WindowInv(s, c) && PaceInv(s, c) && Enabled(s, step)
    requires HistoryInv(Next(s, c, step)) && WindowInv(Next(s, c, step), c)
    ensures Earliest(s, c) <= Earliest(Next(s, c, step), c)
  {
    hide HistoryInv, WindowInv, PaceInv, Acquire, Earliest, Enabled;
    if step.Request? {
      assert step.nonce !in s.used by {
        EnabledRequest(s, step);
      }
      if Acquire(s.store, c, s.now, step.nonce).reply == 0 {
        AdmissionAtEarliest(s, c, step.nonce);
      } else {
        RefusalKeepsEarliest(s, c, step.nonce);
      }
    } else {
      OthersKeepEarliest(s, c, step);
    }
  }

  lemma EnabledRequest(s: Cluster, step: Step)
    requires Enabled(s, step) && step.Request?
    ensures step.nonce !in s.used
  {
  }

  /** Nothing but an admission touches what the earliest instant is told by, except
      to move it on or when it is past. */
  lemma OthersKeepEarliest(s: Cluster, c: Config, step: Step)
    requires c.Valid() && HistoryInv(s) && WindowInv(s, c) && PaceInv(s, c) && Enabled(s, step) && !step.Request?
    requires HistoryInv(Next(s, c, step)) && WindowInv(Next(s, c, step), c)
    ensures Earliest(s, c) <= Earliest(Next(s, c, step), c)
  {
    hide Earliest, HistoryInv, WindowInv, Next, Opening, PaceFloor, PaceInv, Enabled;
    var t := Next(s, c, step);
    EarliestIs(s, c);
    EarliestIs(t, c);
    PaceNeverEarlier(s, c, step);
    OpeningNeverEarlier(s, c, step);
  }

  lemma PaceNeverEarlier(s: Cluster, c: Config, step: Step)
    requires c.Valid() && PaceInv(s, c) && Enabled(s, step) && !step.Request?
    ensures s.now <= Next(s, c, step).now <= PaceFloor(Next(s, c, step).store, Next(s, c, step).now)
    ensures PaceFloor(s.store, s.now) <= PaceFloor(Next(s, c, step).store, Next(s, c, step).now)
  {
    hide Remove;
  }

  lemma OpeningNeverEarlier(s: Cluster, c: Config, step: Step)
    requires c.Valid() && WindowInv(s, c) && Enabled(s, step) && !step.Request?
    ensures Opening(s.store.win, c, s.now)
         <= Max(Next(s, c, step).now, Opening(Next(s, c, step).store.win, c, Next(s, c, step).now))
  {
    hide Remove, Scores;
  }

  // ----- every step keeps the pacing invariant -----

  lemma TailLater(all: seq<int>, tail: seq<int>, bound: int, later: int)
    requires IsTail(all, tail, bound) && bound <= later
    ensures IsTail(all, tail, later)
  {
  }

  lemma DroppedWindow(s: Cluster, c: Config)
    requires 0 < c.quota && 0 < c.window && HistoryInv(s) && WindowInv(s, c) && s.store.winUntil <= s.now
    ensures IsTail(s.admitted, Scores([]), s.now - c.window)
  {
    var z, n, k := s.store.win, |s.admitted|, |s.store.win|;
    forall i | 0 <= i < n
      ensures s.admitted[i] <= s.now - c.window
    {
      if n - k <= i {
        assert Scores(z)[i - (n - k)] == s.admitted[i];
      }
    }
  }

  lemma WindowStep(s: Cluster, c: Config, step: Step)
    requires c.Valid() && HistoryInv(s) && WindowInv(s, c) && Enabled(s, step)
    ensures WindowInv(Next(s, c, step), c)
  {
    match step
    case Request(n) => WindowRequest(s, c, n);
    case DropWindow =>
      if 0 < c.quota {
        DroppedWindow(s, c);
      }
    case Tick(ms) =>
      if 0 < c.quota {
        TailLater(s.admitted, Scores(s.store.win), s.now - c.window, s.now + ms - c.window);
      }
    case _ =>
  }

  lemma PaceStep(s: Cluster, c: Config, step: Step)
    requires c.Valid() && HistoryInv(s) && PaceInv(s, c) && Enabled(s, step)
    ensures HistoryInv(Next(s, c, step)) && PaceInv(Next(s, c, step), c)
    ensures PaceFloor(s.store, s.now) <= PaceFloor(Next(s, c, step).store, Next(s, c, step).now)
  {
    hide Purge, Add, Remove;
  }

  lemma PacingStep(s: Cluster, c: Config, step: Step)
    requires c.Valid() && PacingInv(s, c) && Enabled(s, step)
    ensures PacingInv(Next(s, c, step), c)
    ensures Earliest(s, c) <= Earliest(Next(s, c, step), c)
    ensures PaceFloor(s.store, s.now) <= PaceFloor(Next(s, c, step).store, Next(s, c, step).now)
  {
    hide HistoryInv, WindowInv, PaceInv, Next, Earliest, PaceFloor;
    WindowStep(s, c, step);
    PaceStep(s, c, step);
    EarliestNeverEarlier(s, c, step);
  }

  lemma {:induction false} PacingHolds(s: Cluster, c: Config, steps: seq<Step>)
    requires c.Valid() && PacingInv(s, c) && Legal(s, c, steps)
    ensures PacingInv(Exec(s, c, steps), c)
    ensures Earliest(s, c) <= Earliest(Exec(s, c, steps), c)
    ensures PaceFloor(s.store, s.now) <= PaceFloor(Exec(s, c, steps).store, Exec(s, c, steps).now)
  {
    hide PacingInv, Earliest, PaceFloor, Next, Enabled;
    if steps != [] {
      PacingHolds(s, c, steps[..|steps| - 1]);
      PacingStep(Exec(s, c, steps[..|steps| - 1]), c, steps[|steps| - 1]);
    }
  }
}
