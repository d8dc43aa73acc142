/** The earliest next admission, told from what has happened: the admissions, the
    releases and the penalties of a run, and nothing the store holds. */
module RedisHistory {
  import opened Instants
  import opened RedisScripts
  import opened RedisRuns
  import opened RedisPacing
  import opened RedisCap

  function Later(a: Option<int>, b: int): Option<int> {
    Some(if a.Some? then Max(a.value, b) else b)
  }

  /** Where a step pushes the next admission to: a delay past an admission, and past
      a release unless the in-flight cap is on, and the end of a positive hold. */
  ghost function PushedBy(c: Config, s: Cluster, step: Step, t: Cluster, pushed: Option<int>): Option<int> {
    match step
    case Request(_) => if 0 < c.delay && |s.admitted| < |t.admitted| then Later(pushed, s.now + c.delay) else pushed
    case Finish(_) => if 0 < c.delay && c.cap == 0 then Later(pushed, s.now + c.delay) else pushed
    case Penalize(hold) => if 0 < hold then Later(pushed, s.now + hold) else pushed
    case _ => pushed
  }

  /** The latest instant a run has pushed the next admission to. */
  ghost function Pushed(c: Config, start: int, steps: seq<Step>): Option<int> {
    if steps == [] then None
    else
      var before := steps[..|steps| - 1];
      PushedBy(c, Exec(Start(start), c, before), steps[|steps| - 1], Exec(Start(start), c, steps),
               Pushed(c, start, before))
  }

  /** An instant, or now when it is past or there is none. */
  function NotBefore(at: Option<int>, now: int): int {
    if at.Some? then Max(now, at.value) else now
  }

  lemma PushedStep(s: Cluster, c: Config, step: Step, pushed: Option<int>)
    requires c.Valid() && PaceInv(s, c) && Enabled(s, step)
    requires PaceFloor(s.store, s.now) == NotBefore(pushed, s.now) && (s.store.next.Some? ==> pushed.Some?)
    ensures var t := Next(s, c, step);
            && PaceFloor(t.store, t.now) == NotBefore(PushedBy(c, s, step, t, pushed), t.now)
            && (t.store.next.Some? ==> PushedBy(c, s, step, t, pushed).Some?)
  {
    hide Purge, Add, Remove, Swept;
    if step.Request? {
      RequestPushes(s, c, step.nonce, pushed);
    }
  }

  lemma RequestPushes(s: Cluster, c: Config, n: Nonce, pushed: Option<int>)
    requires PaceFloor(s.store, s.now) == NotBefore(pushed, s.now) && (s.store.next.Some? ==> pushed.Some?)
    ensures var t := AfterRequest(s, c, n);
            && PaceFloor(t.store, t.now) == NotBefore(PushedBy(c, s, Request(n), t, pushed), t.now)
            && (t.store.next.Some? ==> PushedBy(c, s, Request(n), t, pushed).Some?)
  {
    hide Purge, Add;
  }

  lemma {:induction false} PaceFromHistory(c: Config, start: int, steps: seq<Step>)
    requires c.Valid() && Legal(Start(start), c, steps)
    ensures var s := Exec(Start(start), c, steps);
            && PaceFloor(s.store, s.now) == NotBefore(Pushed(c, start, steps), s.now)
            && (s.store.next.Some? ==> Pushed(c, start, steps).Some?)
  {
    hide PaceInv, HistoryInv, WindowInv, PaceFloor, NotBefore, PushedBy, Next, Enabled;
    if steps == [] {
      StartsUnpushed(c, start);
    } else {
      PaceFromHistory(c, start, steps[..|steps| - 1]);
      ReachablePaced(c, start, steps[..|steps| - 1]);
      var s, step := Exec(Start(start), c, steps[..|steps| - 1]), steps[|steps| - 1];
      PushedStep(s, c, step, Pushed(c, start, steps[..|steps| - 1]));
    }
  }

  lemma StartsUnpushed(c: Config, start: int)
    ensures PaceFloor(Start(start).store, start) == NotBefore(None, start) && Start(start).store.next.None?
  {
  }

  lemma OpeningFromHistory(s: Cluster, c: Config)
    requires c.Valid() && HistoryInv(s) && WindowInv(s, c)
    ensures Max(s.now, Opening(s.store.win, c, s.now))
         == if 0 < c.quota <= |s.admitted| then Max(s.now, s.admitted[|s.admitted| - c.quota] + c.window) else s.now
  {
    var z, n := s.store.win, |s.admitted|;
    if 0 < c.quota <= |z| {
      assert Scores(z)[|z| - c.quota] == s.admitted[n - c.quota];
    }
  }

  /** On every run, the earliest next admission is the latest of now, what the
      admissions, releases and penalties so far have pushed it to, and a window past
      the admission quota places back: no earlier and no later. */
  lemma EarliestFromHistory(c: Config, start: int, steps: seq<Step>)
    requires c.Valid() && Legal(Start(start), c, steps)
    ensures var s := Exec(Start(start), c, steps);
            var pushed := NotBefore(Pushed(c, start, steps), s.now);
            Earliest(s, c) ==
              if 0 < c.quota <= |s.admitted| then Max(pushed, s.admitted[|s.admitted| - c.quota] + c.window)
              else pushed
  {
    hide Earliest, Exec, Legal, PaceFloor, Opening, Pushed, PaceInv, HistoryInv, WindowInv;
    var s := Exec(Start(start), c, steps);
    ReachablePaced(c, start, steps);
    PaceFromHistory(c, start, steps);
    EarliestIs(s, c);
    OpeningFromHistory(s, c);
  }

  /** Without a cap, a release moves the earliest next admission to a delay from now
      and not an instant further; with one it does not move it. */
  lemma ReleaseMovesExactly(c: Config, start: int, steps: seq<Step>, n: Nonce)
    requires c.Valid() && Legal(Start(start), c, steps) && n in Exec(Start(start), c, steps).running
    ensures var s := Exec(Start(start), c, steps);
            Earliest(Next(s, c, Finish(n)), c) ==
              if c.cap == 0 then Max(Earliest(s, c), s.now + c.delay) else Earliest(s, c)
  {
    hide Exec, Legal, Purge, Remove;
    ReachablePaced(c, start, steps);
    EarliestIsLater(Exec(Start(start), c, steps), c);
  }

  /** A penalty moves it to the end of the hold and not an instant further; one that
      is not positive does nothing. */
  lemma PenaltyMovesExactly(s: Cluster, c: Config, hold: int)
    ensures Earliest(Next(s, c, Penalize(hold)), c) ==
            if 0 < hold then Max(Earliest(s, c), s.now + hold) else Earliest(s, c)
  {
    hide Purge;
    EarliestIsLater(s, c);
  }

  /** The release script replies with the next-allowed instant it leaves, or with
      nothing when there is no delay. */
  lemma ReleaseReplies(s: Store, delay: int, now: int)
    ensures delay <= 0 ==> Bump(s, delay, now) == Outcome(s, 0)
    ensures 0 < delay ==> Bump(s, delay, now).store.next == Some(Bump(s, delay, now).reply)
  {
  }

  // ----- what an attempt leaves behind -----

  /** An attempt, admitted or not, leaves no admission in the window key that has
      left the window; one that gets as far as the cap leaves no lease past its
      deadline. */
  lemma AttemptCleans(s: Cluster, c: Config, n: Nonce, e: Scored)
    requires c.Valid()
    ensures var t := AfterRequest(s, c, n).store;
            && (0 < c.quota && e in t.win ==> s.now - c.window < e.score)
            && (0 < c.cap && Earliest(s, c) <= s.now && e in t.leases ==>
                  s.now < e.score || (c.lease == 0 && e.nonce == n))
  {
    hide Purge, Remove;
    PurgeMembers(s.store.win, s.now - c.window, e);
    PurgeMembers(s.store.leases, s.now, e);
    AddMembers(Purge(s.store.win, s.now - c.window), s.now, n, e);
    AddMembers(Purge(s.store.leases, s.now), s.now + c.lease, n, e);
  }

  lemma AddMembers(z: SortedSet, score: int, n: Nonce, e: Scored)
    ensures e in Add(z, score, n) ==> e == Scored(score, n) || e in z
  {
    RemoveMembers(z, n, e);
    InsertMembers(Remove(z, n), Scored(score, n), e);
  }

  /** A sorted set stays sorted. */
  lemma {:induction false} InsertKeepsOrder(z: SortedSet, added: Scored)
    requires ByScore(z)
    ensures ByScore(Insert(z, added))
  {
    if z != [] && z[0].score <= added.score {
      InsertKeepsOrder(z[1..], added);
      var rest := Insert(z[1..], added);
      forall i | 0 <= i < |rest|
        ensures z[0].score <= rest[i].score
      {
        assert rest[i] in rest;
        InsertMembers(z[1..], added, rest[i]);
      }
      assert Insert(z, added) == [z[0]] + rest;
    }
  }

  lemma {:induction false} InsertMembers(z: SortedSet, added: Scored, e: Scored)
    ensures e in Insert(z, added) <==> e == added || e in z
  {
    if z != [] {
      InsertMembers(z[1..], added, e);
      assert z == [z[0]] + z[1..];
    }
  }

  /** A control that is off leaves its key and the key's lifetime alone. */
  lemma ControlsOffTouchNothing(s: Store, c: Config, now: int, n: Nonce)
    ensures var t := Acquire(s, c, now, n).store;
            && (c.quota <= 0 ==> t.win == s.win && t.winUntil == s.winUntil)
            && (c.delay <= 0 ==> t.next == s.next && t.nextUntil == s.nextUntil)
            && (c.cap <= 0 ==> t.leases == s.leases && t.leasesUntil == s.leasesUntil)
  {
    hide Purge, Add;
  }

  // ----- the keys' lifetimes -----

  /** The server may drop a key from the instant its lifetime is over, and then it
      is gone. */
  lemma DropsExactly(s: Cluster, c: Config)
    ensures Enabled(s, DropWindow) <==> s.store.winUntil <= s.now
    ensures Enabled(s, DropNext) <==> s.store.nextUntil <= s.now
    ensures Enabled(s, DropLeases) <==> s.store.leasesUntil <= s.now
    ensures Next(s, c, DropWindow) == s.(store := s.store.(win := []))
    ensures Next(s, c, DropNext) == s.(store := s.store.(next := None))
    ensures Next(s, c, DropLeases) == s.(store := s.store.(leases := []))
  {
  }

  /** Each key lives the slack past the last instant it matters at. */
  ghost predicate LivesBySlack(s: Cluster, c: Config) {
    && (c.quota == 0 ==> s.store.win == []) && (c.cap == 0 ==> s.store.leases == [])
    && (s.store.next.Some? ==> s.store.nextUntil == s.store.next.value + KEY_TTL_SLACK)
    && (s.store.win != [] ==>
          s.admitted != [] && s.store.winUntil == s.admitted[|s.admitted| - 1] + c.window + KEY_TTL_SLACK)
    && (s.store.leases != [] ==>
          s.admitted != [] && s.store.leasesUntil == s.admitted[|s.admitted| - 1] + c.lease + KEY_TTL_SLACK)
  }

  lemma PurgeOfNone(cutoff: int)
    ensures Purge([], cutoff) == []
  {
  }

  lemma RemoveOfNone(n: Nonce)
    ensures Remove([], n) == []
  {
  }

  lemma LivesStep(s: Cluster, c: Config, step: Step)
    requires c.Valid() && LivesBySlack(s, c) && Enabled(s, step)
    ensures LivesBySlack(Next(s, c, step), c)
  {
    hide Purge, Add, Remove;
    PurgeOfNone(s.now - c.window);
    PurgeOfNone(s.now);
    if step.Finish? {
      RemoveOfNone(step.nonce);
    }
  }

  lemma {:induction false} KeysLiveBySlack(c: Config, start: int, steps: seq<Step>)
    requires c.Valid() && Legal(Start(start), c, steps)
    ensures LivesBySlack(Exec(Start(start), c, steps), c)
  {
    hide LivesBySlack, Next, Enabled;
    if steps == [] {
      StartsLiving(c, start);
    } else {
      KeysLiveBySlack(c, start, steps[..|steps| - 1]);
      LivesStep(Exec(Start(start), c, steps[..|steps| - 1]), c, steps[|steps| - 1]);
    }
  }

  lemma StartsLiving(c: Config, start: int)
    ensures LivesBySlack(Start(start), c)
  {
  }
}
