/** What the distributed limiter guarantees about the instants of admission, on
    every run of any number of replicas. */
module RedisPacing {
  import opened Instants
  import opened RedisScripts
  import opened RedisRuns

  lemma StartsPaced(c: Config, start: int)
    ensures PacingInv(Start(start), c)
  {
    assert Scores([]) == [];
  }

  // ----- quota and spacing -----

  ghost predicate Admits(s: Cluster, c: Config, step: Step) {
    step.Request? && Acquire(s.store, c, s.now, step.nonce).reply == 0
  }

  /** An admission comes a whole window after the one quota places back, and a
      minimum delay after the last one. */
  lemma AdmissionWaits(s: Cluster, c: Config, step: Step)
    requires c.Valid() && PacingInv(s, c) && Admits(s, c, step)
    ensures 0 < c.quota <= |s.admitted| ==> s.admitted[|s.admitted| - c.quota] + c.window <= s.now
    ensures 0 < c.delay && s.admitted != [] ==> s.admitted[|s.admitted| - 1] + c.delay <= s.now
  {
    hide Purge;
    AdmissionAtEarliest(s, c, step.nonce);
    if 0 < c.quota {
      var kept := Purge(s.store.win, s.now - c.window);
      WindowByScore(s, c);
      PurgeDropsFront(s.store.win, s.now - c.window);
      PurgedTail(s, c);
      assert |kept| < c.quota;
      assert |Scores(kept)| == |kept|;
    }
  }

  ghost predicate AdmissionsSpread(s: Cluster, c: Config)
    requires c.Valid()
  {
    && (0 < c.quota ==> Spread(s.admitted, c.quota, c.window))
    && (0 < c.delay ==> Spread(s.admitted, 1, c.delay))
  }

  lemma SpreadStep(s: Cluster, c: Config, step: Step)
    requires c.Valid() && PacingInv(s, c) && AdmissionsSpread(s, c)
    ensures AdmissionsSpread(Next(s, c, step), c)
  {
    hide WindowInv, PaceInv, Spread, Acquire;
    if Admits(s, c, step) {
      AdmissionWaits(s, c, step);
      assert s.admitted != [] ==> s.admitted[|s.admitted| - 1] <= s.now;
      if 0 < c.quota {
        AppendSpread(s.admitted, c.quota, c.window, s.now);
      }
      if 0 < c.delay {
        AppendSpread(s.admitted, 1, c.delay, s.now);
      }
    }
  }

  lemma {:induction false} SpreadHolds(c: Config, start: int, steps: seq<Step>)
    requires c.Valid() && Legal(Start(start), c, steps)
    ensures AdmissionsSpread(Exec(Start(start), c, steps), c)
  {
    hide PacingInv, AdmissionsSpread, Next, Enabled;
    var s := Start(start);
    if steps == [] {
      StartsSpread(c, start);
    } else {
      var before := steps[..|steps| - 1];
      SpreadHolds(c, start, before);
      StartsPaced(c, start);
      PacingHolds(s, c, before);
      SpreadStep(Exec(s, c, before), c, steps[|steps| - 1]);
    }
  }

  lemma StartsSpread(c: Config, start: int)
    requires c.Valid()
    ensures AdmissionsSpread(Start(start), c)
  {
  }

  /** Over every interleaving of any replicas' requests, releases, crashes and
      penalties, and of key drops: no half-open window holds more than quota
      admissions, and consecutive admissions are min_delay apart. */
  lemma ClusterQuotaAndSpacing(c: Config, start: int, steps: seq<Step>)
    requires c.Valid() && Legal(Start(start), c, steps)
    ensures var admitted := Exec(Start(start), c, steps).admitted;
            && (0 < c.quota ==> QuotaHolds(admitted, c.quota, c.window))
            && (0 < c.delay ==>
                  forall i, j :: 0 <= i < j < |admitted| ==> admitted[i] + c.delay <= admitted[j])
  {
    SpreadHolds(c, start, steps);
    if 0 < c.quota {
      SpreadImpliesQuota(Exec(Start(start), c, steps).admitted, c.quota, c.window);
    }
  }

  // ----- nobody is admitted before the earliest instant -----

  /** The admissions of a continuation are appended, none before the given instant. */
  ghost predicate NoneBefore(s: Cluster, t: Cluster, from: int) {
    && s.admitted <= t.admitted
    && forall i :: |s.admitted| <= i < |t.admitted| ==> from <= t.admitted[i]
  }

  lemma {:induction false} NoAdmissionBefore(s: Cluster, c: Config, steps: seq<Step>)
    requires c.Valid() && PacingInv(s, c) && Legal(s, c, steps)
    ensures NoneBefore(s, Exec(s, c, steps), Earliest(s, c))
  {
    hide PacingInv, Earliest, PaceFloor, Enabled;
    if steps != [] {
      var before, step := steps[..|steps| - 1], steps[|steps| - 1];
      NoAdmissionBefore(s, c, before);
      PacingHolds(s, c, before);
      var t := Exec(s, c, before);
      assert t.admitted <= Next(t, c, step).admitted <= t.admitted + [t.now];
      if Admits(t, c, step) {
        AdmissionAtEarliest(t, c, step.nonce);
      }
    }
  }

  /** What every reachable state of the deployment satisfies. */
  lemma ReachablePaced(c: Config, start: int, steps: seq<Step>)
    requires c.Valid() && Legal(Start(start), c, steps)
    ensures PacingInv(Exec(Start(start), c, steps), c)
  {
    StartsPaced(c, start);
    PacingHolds(Start(start), c, steps);
  }

  // ----- the reported wait -----

  /** A refusal by the pacing key or the window, not by the in-flight cap. */
  ghost predicate PacingRefusal(s: Cluster, c: Config) {
    s.now < Earliest(s, c)
  }

  /** The wait told for a quota or spacing refusal is sound: whatever any replica
      does next, nobody is admitted to the host before it is over. */
  lemma ReportedWaitIsSound(s: Cluster, c: Config, n: Nonce, steps: seq<Step>)
    requires c.Valid() && PacingInv(s, c) && n !in s.used && PacingRefusal(s, c)
    requires Legal(AfterRequest(s, c, n), c, steps)
    ensures var wait := Acquire(s.store, c, s.now, n).reply;
            && 0 < wait
            && NoneBefore(s, Exec(AfterRequest(s, c, n), c, steps), s.now + wait)
  {
    hide PacingInv, PaceFloor, Purge;
    PacingStep(s, c, Request(n));
    NoAdmissionBefore(AfterRequest(s, c, n), c, steps);
  }

  /** A caller that fails at once because a quota or spacing wait exceeds what is
      left of its budget could not have been admitted within it by any course of
      events. RedisCap has the same for a poll of the in-flight cap. */
  lemma FailingFastLosesNothing(s: Cluster, c: Config, n: Nonce, steps: seq<Step>, budget: int)
    requires c.Valid() && PacingInv(s, c) && n !in s.used && PacingRefusal(s, c)
    requires budget < Acquire(s.store, c, s.now, n).reply
    requires Legal(AfterRequest(s, c, n), c, steps)
    ensures NoneBefore(s, Exec(AfterRequest(s, c, n), c, steps), s.now + budget + 1)
  {
    hide PacingInv, Acquire;
    ReportedWaitIsSound(s, c, n, steps);
  }

  ghost predicate Quiet(steps: seq<Step>) {
    forall i :: 0 <= i < |steps| ==>
      steps[i].Tick? || steps[i].DropWindow? || steps[i].DropNext? || steps[i].DropLeases?
  }

  lemma QuietStep(s: Cluster, c: Config, step: Step)
    requires c.Valid() && PacingInv(s, c) && Enabled(s, step)
    requires step.Tick? || step.DropWindow? || step.DropNext? || step.DropLeases?
    ensures Earliest(Next(s, c, step), c) == Max(Earliest(s, c), Next(s, c, step).now)
  {
    PacingStep(s, c, step);
    hide Scores, AdmitAt;
    EarliestIs(s, c);
    EarliestIs(Next(s, c, step), c);
  }

  lemma {:induction false} QuietRun(s: Cluster, c: Config, steps: seq<Step>)
    requires c.Valid() && PacingInv(s, c) && Legal(s, c, steps) && Quiet(steps)
    ensures Earliest(Exec(s, c, steps), c) == Max(Earliest(s, c), Exec(s, c, steps).now)
    ensures Exec(s, c, steps).used == s.used && s.now <= Exec(s, c, steps).now
  {
    hide PacingInv, Earliest, PaceFloor;
    if steps == [] {
      EarliestIsLater(s, c);
    } else {
      var before := steps[..|steps| - 1];
      QuietRun(s, c, before);
      PacingHolds(s, c, before);
      QuietStep(Exec(s, c, before), c, steps[|steps| - 1]);
    }
  }

  lemma EarliestIsLater(s: Cluster, c: Config)
    ensures s.now <= Earliest(s, c)
  {
    hide Swept;
  }

  ghost predicate HasRoom(s: Cluster, c: Config) {
    c.cap <= 0 || |Purge(s.store.leases, s.now)| < c.cap
  }

  /** The reported wait is tight: when nobody else acts in the meantime, a retry
      once it is over is admitted if the in-flight cap has room, and only then. */
  lemma ReportedWaitIsTight(s: Cluster, c: Config, n: Nonce, steps: seq<Step>, retry: Nonce)
    requires c.Valid() && PacingInv(s, c) && n !in s.used && PacingRefusal(s, c)
    requires Legal(AfterRequest(s, c, n), c, steps) && Quiet(steps)
    requires Exec(AfterRequest(s, c, n), c, steps).now == s.now + Acquire(s.store, c, s.now, n).reply
    ensures var t := Exec(AfterRequest(s, c, n), c, steps);
            Acquire(t.store, c, t.now, retry).reply == 0 <==> HasRoom(t, c)
  {
    hide PacingInv, PaceFloor, Purge, Swept, Exec, Legal;
    PacingStep(s, c, Request(n));
    RefusedLeavesEarliest(s, c, n);
    QuietRun(AfterRequest(s, c, n), c, steps);
  }

  lemma RefusedLeavesEarliest(s: Cluster, c: Config, n: Nonce)
    requires c.Valid() && PacingInv(s, c) && n !in s.used && PacingRefusal(s, c)
    ensures Earliest(AfterRequest(s, c, n), c) == Earliest(s, c) == s.now + Acquire(s.store, c, s.now, n).reply
    ensures AfterRequest(s, c, n).now == s.now
  {
    RefusalKeepsEarliest(s, c, n);
  }

  // ----- holds and releases -----

  /** No replica is admitted inside a hold an upstream asked for. */
  lemma PenaltyIsKept(s: Cluster, c: Config, hold: nat, steps: seq<Step>)
    requires c.Valid() && PacingInv(s, c) && Legal(Next(s, c, Penalize(hold)), c, steps)
    ensures NoneBefore(s, Exec(Next(s, c, Penalize(hold)), c, steps), s.now + hold)
  {
    var t := Next(s, c, Penalize(hold));
    PacingStep(s, c, Penalize(hold));
    NoAdmissionBefore(t, c, steps);
    assert s.now + hold <= Earliest(t, c) by {
      hide Swept;
    }
  }

  /** Without an in-flight cap, no replica is admitted within min_delay of a release. */
  lemma ReleaseSpacesNext(s: Cluster, c: Config, n: Nonce, steps: seq<Step>)
    requires c.Valid() && c.cap == 0 && PacingInv(s, c) && n in s.running
    requires Legal(Next(s, c, Finish(n)), c, steps)
    ensures NoneBefore(s, Exec(Next(s, c, Finish(n)), c, steps), s.now + c.delay)
  {
    var t := Next(s, c, Finish(n));
    PacingStep(s, c, Finish(n));
    NoAdmissionBefore(t, c, steps);
    assert s.now + c.delay <= Earliest(t, c) by {
      hide Swept;
    }
  }

  /** The next-allowed instant never moves to an earlier one still ahead. */
  lemma NextAllowedNeverEarlier(s: Cluster, c: Config, steps: seq<Step>)
    requires c.Valid() && PacingInv(s, c) && Legal(s, c, steps)
    requires s.store.next.Some? && Exec(s, c, steps).now < s.store.next.value
    ensures Exec(s, c, steps).store.next.Some? && s.store.next.value <= Exec(s, c, steps).store.next.value
  {
    hide PacingInv;
    PacingHolds(s, c, steps);
  }
}
