/** The cluster-wide in-flight cap: leases booked at admission, freed by release,
    and otherwise running out at their deadline, so that a crashed replica's place
    comes back without anyone renewing or watching it. */
module RedisCap {
  import opened Instants
  import opened RedisScripts
  import opened RedisRuns
  import opened RedisPacing

  // ----- members of a sorted set -----

  lemma {:induction false} PurgeMembers(z: SortedSet, cutoff: int, e: Scored)
    ensures e in Purge(z, cutoff) <==> e in z && cutoff < e.score
  {
    if z != [] {
      PurgeMembers(z[1..], cutoff, e);
      assert z == [z[0]] + z[1..];
    }
  }

  lemma {:induction false} RemoveMembers(z: SortedSet, n: Nonce, e: Scored)
    ensures e in Remove(z, n) <==> e in z && e.nonce != n
  {
    if z != [] {
      RemoveMembers(z[1..], n, e);
      assert z == [z[0]] + z[1..];
    }
  }

  ghost predicate Distinct(z: SortedSet) {
    forall i, j :: 0 <= i < j < |z| ==> z[i].nonce != z[j].nonce
  }

  lemma DistinctCons(e: Scored, z: SortedSet)
    requires Distinct(z) && forall x :: x in z ==> x.nonce != e.nonce
    ensures Distinct([e] + z)
  {
  }

  lemma {:induction false} PurgeDistinct(z: SortedSet, cutoff: int)
    requires Distinct(z)
    ensures Distinct(Purge(z, cutoff)) && |Purge(z, cutoff)| <= |z|
  {
    if z != [] {
      PurgeDistinct(z[1..], cutoff);
      forall x | x in Purge(z[1..], cutoff)
        ensures x.nonce != z[0].nonce
      {
        PurgeMembers(z[1..], cutoff, x);
      }
      DistinctCons(z[0], Purge(z[1..], cutoff));
    }
  }

  lemma {:induction false} RemoveDistinct(z: SortedSet, n: Nonce)
    requires Distinct(z)
    ensures Distinct(Remove(z, n)) && |Remove(z, n)| <= |z|
  {
    if z != [] {
      RemoveDistinct(z[1..], n);
      forall x | x in Remove(z[1..], n)
        ensures x.nonce != z[0].nonce
      {
        RemoveMembers(z[1..], n, x);
      }
      DistinctCons(z[0], Remove(z[1..], n));
    }
  }

  lemma {:induction false} RemoveByScore(z: SortedSet, n: Nonce)
    requires ByScore(z)
    ensures ByScore(Remove(z, n))
  {
    if z != [] {
      RemoveByScore(z[1..], n);
      forall x | x in Remove(z[1..], n)
        ensures z[0].score <= x.score
      {
        RemoveMembers(z[1..], n, x);
      }
    }
  }

  lemma {:induction false} PurgeByScore(z: SortedSet, cutoff: int)
    requires ByScore(z)
    ensures ByScore(Purge(z, cutoff))
  {
    if z != [] {
      PurgeByScore(z[1..], cutoff);
      forall x | x in Purge(z[1..], cutoff)
        ensures z[0].score <= x.score
      {
        PurgeMembers(z[1..], cutoff, x);
      }
    }
  }

  ghost function Nonces(z: SortedSet): set<Nonce> {
    set e | e in z :: e.nonce
  }

  lemma {:induction false} DistinctCount(z: SortedSet)
    requires Distinct(z)
    ensures |Nonces(z)| == |z|
  {
    if z != [] {
      DistinctCount(z[1..]);
      assert z == [z[0]] + z[1..];
      assert z[0].nonce !in Nonces(z[1..]);
      assert Nonces(z) == Nonces(z[1..]) + {z[0].nonce};
    }
  }

  lemma SubsetCount(a: set<Nonce>, b: set<Nonce>)
    requires a <= b
    ensures |a| <= |b|
  {
    assert b == a + (b - a);
  }

  // ----- the lease key against the admissions -----

  ghost function Deadline(s: Cluster, c: Config, n: Nonce): int
    requires n in s.booked
  {
    s.booked[n] + c.lease
  }

  /** Admissions no release has freed, crashed ones included, whose deadline is ahead. */
  ghost function Unexpired(s: Cluster, c: Config): set<Nonce> {
    set n | n in s.booked && s.now < s.booked[n] + c.lease
  }

  /** Every lease is that of an admission not yet freed, with its deadline as
      score, and the key's TTL outlives it; no such admission is without its lease
      before the deadline. */
  ghost predicate LeasesMatch(z: SortedSet, leasesUntil: int, booked: map<Nonce, int>, now: int, lease: int) {
    && (forall e :: e in z ==>
          e.nonce in booked && e.score == booked[e.nonce] + lease && e.score + KEY_TTL_SLACK <= leasesUntil)
    && (forall n :: n in booked && now < booked[n] + lease ==> Scored(booked[n] + lease, n) in z)
  }

  ghost predicate BookedInv(s: Cluster) {
    && s.running <= s.booked.Keys <= s.used
    && (forall n :: n in s.booked ==> s.booked[n] <= s.now)
  }

  ghost predicate LeaseInv(s: Cluster, c: Config) {
    && Distinct(s.store.leases) && ByScore(s.store.leases) && |s.store.leases| <= c.cap
    && BookedInv(s)
    && LeasesMatch(s.store.leases, s.store.leasesUntil, s.booked, s.now, c.lease)
  }

  lemma PurgedMatch(s: Cluster, c: Config)
    requires LeasesMatch(s.store.leases, s.store.leasesUntil, s.booked, s.now, c.lease)
    ensures LeasesMatch(Purge(s.store.leases, s.now), s.store.leasesUntil, s.booked, s.now, c.lease)
  {
    hide Purge;
    forall e
      ensures e in Purge(s.store.leases, s.now) <==> e in s.store.leases && s.now < e.score
    {
      PurgeMembers(s.store.leases, s.now, e);
    }
  }

  lemma PurgedLeases(s: Cluster, c: Config)
    requires LeaseInv(s, c)
    ensures LeaseInv(s.(store := s.store.(leases := Purge(s.store.leases, s.now))), c)
  {
    hide Purge, Distinct, ByScore, LeasesMatch;
    PurgeDistinct(s.store.leases, s.now);
    PurgeByScore(s.store.leases, s.now);
    PurgedMatch(s, c);
  }

  lemma LeaseAdded(z: SortedSet, e: Scored)
    requires Distinct(z) && ByScore(z)
    requires forall x :: x in z ==> x.score <= e.score && x.nonce != e.nonce
    ensures Add(z, e.score, e.nonce) == z + [e] && Distinct(z + [e]) && ByScore(z + [e])
  {
    assert forall i :: 0 <= i < |z| ==> z[i] in z;
    RemoveAbsent(z, e.nonce);
    InsertLast(z, e);
  }

  lemma MatchBooked(z: SortedSet, leasesUntil: int, booked: map<Nonce, int>, now: int, lease: int, n: Nonce)
    requires LeasesMatch(z, leasesUntil, booked, now, lease) && n !in booked
    requires forall m :: m in booked ==> booked[m] <= now
    ensures LeasesMatch(z + [Scored(now + lease, n)], now + lease + KEY_TTL_SLACK, booked[n := now], now, lease)
  {
  }

  lemma MatchBelow(z: SortedSet, leasesUntil: int, booked: map<Nonce, int>, now: int, lease: int, n: Nonce)
    requires LeasesMatch(z, leasesUntil, booked, now, lease) && n !in booked
    requires forall m :: m in booked ==> booked[m] <= now
    ensures forall x :: x in z ==> x.score <= now + lease && x.nonce != n
  {
  }

  lemma LeaseBooked(s: Cluster, t: Cluster, c: Config, n: Nonce)
    requires c.Valid() && LeaseInv(s, c) && n !in s.used && |s.store.leases| < c.cap
    requires t.store.leases == Add(s.store.leases, s.now + c.lease, n)
    requires t.store.leasesUntil == s.now + c.lease + KEY_TTL_SLACK
    requires t.now == s.now && t.booked == s.booked[n := s.now]
    requires t.running == s.running + {n} && t.used == s.used + {n}
    ensures LeaseInv(t, c)
  {
    hide Add, Distinct, ByScore, LeasesMatch;
    MatchBooked(s.store.leases, s.store.leasesUntil, s.booked, s.now, c.lease, n);
    MatchBelow(s.store.leases, s.store.leasesUntil, s.booked, s.now, c.lease, n);
    LeaseAdded(s.store.leases, Scored(s.now + c.lease, n));
  }

  lemma LeaseRequest(s: Cluster, c: Config, n: Nonce)
    requires c.Valid() && 0 < c.cap && LeaseInv(s, c) && n !in s.used
    ensures LeaseInv(AfterRequest(s, c, n), c)
  {
    hide Purge, Add, AdmitAt, Swept, Distinct, ByScore, LeasesMatch;
    var t := AfterRequest(s, c, n);
    var purged := s.(store := s.store.(leases := Purge(s.store.leases, s.now)));
    PurgedLeases(s, c);
    if t.admitted != s.admitted {
      LeaseBooked(purged, t, c, n);
    }
  }

  lemma LeaseFinish(s: Cluster, c: Config, n: Nonce)
    requires 0 < c.cap && LeaseInv(s, c)
    ensures LeaseInv(AfterFinish(s, c, n), c)
  {
    hide Remove;
    RemoveDistinct(s.store.leases, n);
    RemoveByScore(s.store.leases, n);
    forall e
      ensures e in Remove(s.store.leases, n) <==> e in s.store.leases && e.nonce != n
    {
      RemoveMembers(s.store.leases, n, e);
    }
  }

  lemma LeaseStep(s: Cluster, c: Config, step: Step)
    requires c.Valid() && 0 < c.cap && LeaseInv(s, c) && Enabled(s, step)
    ensures LeaseInv(Next(s, c, step), c)
  {
    match step
    case Request(n) => LeaseRequest(s, c, n);
    case Finish(n) => LeaseFinish(s, c, n);
    case _ =>
  }

  lemma {:induction false} LeaseHolds(c: Config, start: int, steps: seq<Step>)
    requires c.Valid() && 0 < c.cap && Legal(Start(start), c, steps)
    ensures LeaseInv(Exec(Start(start), c, steps), c)
  {
    if steps != [] {
      hide LeaseInv, Next, Enabled;
      LeaseHolds(c, start, steps[..|steps| - 1]);
      LeaseStep(Exec(Start(start), c, steps[..|steps| - 1]), c, steps[|steps| - 1]);
    }
  }

  // ----- what the cap guarantees -----

  lemma LeaseIsUnexpired(s: Cluster, c: Config, n: Nonce)
    requires LeasesMatch(s.store.leases, s.store.leasesUntil, s.booked, s.now, c.lease)
    ensures n in Nonces(Purge(s.store.leases, s.now)) <==> n in Unexpired(s, c)
  {
    hide Purge;
    var z := s.store.leases;
    if n in Nonces(Purge(z, s.now)) {
      var e :| e in Purge(z, s.now) && e.nonce == n;
      PurgeMembers(z, s.now, e);
    }
    if n in Unexpired(s, c) {
      PurgeMembers(z, s.now, Scored(s.booked[n] + c.lease, n));
    }
  }

  lemma RoomCountsUnexpired(s: Cluster, c: Config)
    requires LeaseInv(s, c)
    ensures |Purge(s.store.leases, s.now)| == |Unexpired(s, c)|
    ensures Nonces(Purge(s.store.leases, s.now)) == Unexpired(s, c)
  {
    hide Purge, Distinct, Nonces, Unexpired, LeasesMatch, ByScore;
    PurgeDistinct(s.store.leases, s.now);
    DistinctCount(Purge(s.store.leases, s.now));
    forall n
      ensures n in Nonces(Purge(s.store.leases, s.now)) <==> n in Unexpired(s, c)
    {
      LeaseIsUnexpired(s, c, n);
    }
    assert Nonces(Purge(s.store.leases, s.now)) == Unexpired(s, c);
  }

  /** An attempt is admitted exactly when the pacing allows it and fewer than cap
      admissions are unfreed and before their deadline. A crashed replica's place
      is therefore free again from its deadline on, and never sooner. */
  lemma AdmittedExactly(c: Config, start: int, steps: seq<Step>, n: Nonce)
    requires c.Valid() && 0 < c.cap && Legal(Start(start), c, steps)
    ensures var s := Exec(Start(start), c, steps);
            Acquire(s.store, c, s.now, n).reply == 0 <==>
            Earliest(s, c) <= s.now && |Unexpired(s, c)| < c.cap
  {
    hide Exec, Legal;
    LeaseHolds(c, start, steps);
    RoomDecides(Exec(Start(start), c, steps), c, n);
  }

  lemma RoomDecides(s: Cluster, c: Config, n: Nonce)
    requires c.Valid() && 0 < c.cap && LeaseInv(s, c)
    ensures Acquire(s.store, c, s.now, n).reply == 0 <==> Earliest(s, c) <= s.now && |Unexpired(s, c)| < c.cap
    ensures Acquire(s.store, c, s.now, n).reply != 0 && Earliest(s, c) <= s.now ==>
      Purge(s.store.leases, s.now) != []
      && Acquire(s.store, c, s.now, n).reply == CapWait(c, Purge(s.store.leases, s.now), s.now)
  {
    hide Purge, Swept;
    RoomCountsUnexpired(s, c);
  }

  /** The in-flight set never exceeds the cap, and every unfreed admission before
      its deadline is in it. */
  lemma InFlightWithinCap(c: Config, start: int, steps: seq<Step>)
    requires c.Valid() && 0 < c.cap && Legal(Start(start), c, steps)
    ensures var s := Exec(Start(start), c, steps);
            && |s.store.leases| <= c.cap
            && (forall n :: n in Unexpired(s, c) ==> Scored(Deadline(s, c, n), n) in s.store.leases)
            && |Unexpired(s, c)| <= c.cap
  {
    hide Purge, Exec, Legal;
    var s := Exec(Start(start), c, steps);
    LeaseHolds(c, start, steps);
    RoomCountsUnexpired(s, c);
    PurgeDistinct(s.store.leases, s.now);
  }

  /** Requests that always end before their lease does never number more than cap. */
  lemma RunningWithinCap(c: Config, start: int, steps: seq<Step>)
    requires c.Valid() && 0 < c.cap && Legal(Start(start), c, steps)
    requires var s := Exec(Start(start), c, steps);
             forall n :: n in s.running && n in s.booked ==> s.now < s.booked[n] + c.lease
    ensures |Exec(Start(start), c, steps).running| <= c.cap
  {
    hide Exec, Legal, Distinct, ByScore, LeasesMatch;
    var s := Exec(Start(start), c, steps);
    InFlightWithinCap(c, start, steps);
    LeaseHolds(c, start, steps);
    assert s.running <= Unexpired(s, c);
    SubsetCount(s.running, Unexpired(s, c));
  }

  /** A refusal by the cap reports the poll interval or the time to the earliest
      deadline, when a place is free for certain, whichever is shorter, and at least a
      millisecond. */
  lemma CapWaitIsBounded(c: Config, start: int, steps: seq<Step>, n: Nonce) returns (earliest: Nonce)
    requires c.Valid() && 0 < c.cap && Legal(Start(start), c, steps)
    requires var s := Exec(Start(start), c, steps);
             Earliest(s, c) <= s.now && Acquire(s.store, c, s.now, n).reply != 0
    ensures var s := Exec(Start(start), c, steps);
            var wait := Acquire(s.store, c, s.now, n).reply;
            && 1 <= wait <= Max(1, c.retry)
            && earliest in Unexpired(s, c) && s.now + wait <= Deadline(s, c, earliest)
            && wait == Max(1, Min(c.retry, Deadline(s, c, earliest) - s.now))
            && forall m :: m in Unexpired(s, c) ==> Deadline(s, c, earliest) <= Deadline(s, c, m)
  {
    hide Purge, Swept, Exec, Legal, Distinct;
    var s := Exec(Start(start), c, steps);
    LeaseHolds(c, start, steps);
    RoomCountsUnexpired(s, c);
    earliest := EarliestDeadline(s, c);
  }

  lemma EarliestDeadline(s: Cluster, c: Config) returns (earliest: Nonce)
    requires LeaseInv(s, c) && Purge(s.store.leases, s.now) != []
    ensures earliest in Unexpired(s, c)
    ensures Deadline(s, c, earliest) == Purge(s.store.leases, s.now)[0].score
    ensures forall m :: m in Unexpired(s, c) ==> Deadline(s, c, earliest) <= Deadline(s, c, m)
  {
    hide Purge;
    var z := s.store.leases;
    var kept := Purge(z, s.now);
    PurgeDropsFront(z, s.now);
    earliest := kept[0].nonce;
    assert kept[0] in kept && kept[0] in z;
    forall m | m in Unexpired(s, c)
      ensures Deadline(s, c, earliest) <= Deadline(s, c, m)
    {
      var e := Scored(s.booked[m] + c.lease, m);
      PurgeMembers(z, s.now, e);
      assert e in kept;
    }
  }

  // ----- failing fast on a poll of the cap -----

  /** Some course of events admits somebody by the given instant. */
  ghost predicate CanAdmitBy(s: Cluster, c: Config, until: int) {
    exists steps ::
      && Legal(s, c, steps)
      && |s.admitted| < |Exec(s, c, steps).admitted|
      && Exec(s, c, steps).admitted[|s.admitted|] <= until
  }

  /** What was booked and unexpired at s, and not running, is as it was. */
  ghost predicate StillHeld(s: Cluster, c: Config, t: Cluster) {
    forall m :: m in Unexpired(s, c) ==>
      m in t.booked && t.booked[m] == s.booked[m] && m !in t.running && m in t.used
  }

  lemma HeldStep(s: Cluster, c: Config, t: Cluster, step: Step, until: int)
    requires c.Valid() && 0 < c.cap && LeaseInv(t, c) && StillHeld(s, c, t) && Enabled(t, step)
    requires c.cap <= |Unexpired(s, c)| && forall m :: m in Unexpired(s, c) ==> until < Deadline(s, c, m)
    ensures StillHeld(s, c, Next(t, c, step))
    ensures Admits(t, c, step) ==> until < t.now
  {
    hide LeaseInv, Acquire, Earliest, Bump, FreeLease;
    if Admits(t, c, step) && t.now <= until {
      assert Unexpired(s, c) <= Unexpired(t, c);
      SubsetCount(Unexpired(s, c), Unexpired(t, c));
      RoomDecides(t, c, step.nonce);
      assert false;
    }
  }

  /** While every place is held by a lease nobody is left to free, nobody gets in. */
  lemma {:induction false} HeldKeepsOut(s: Cluster, c: Config, steps: seq<Step>, until: int)
    requires c.Valid() && 0 < c.cap && LeaseInv(s, c) && Legal(s, c, steps)
    requires Unexpired(s, c) !! s.running && c.cap <= |Unexpired(s, c)|
    requires forall m :: m in Unexpired(s, c) ==> until < Deadline(s, c, m)
    ensures var t := Exec(s, c, steps);
            LeaseInv(t, c) && StillHeld(s, c, t) && NoneBefore(s, t, until + 1)
  {
    hide LeaseInv, Acquire, Enabled;
    if steps == [] {
      HeldAtFirst(s, c);
    } else {
      var before, step := steps[..|steps| - 1], steps[|steps| - 1];
      HeldKeepsOut(s, c, before, until);
      var t := Exec(s, c, before);
      LeaseStep(t, c, step);
      HeldStep(s, c, t, step, until);
      assert t.admitted <= Next(t, c, step).admitted <= t.admitted + [t.now];
    }
  }

  lemma HeldAtFirst(s: Cluster, c: Config)
    requires LeaseInv(s, c) && Unexpired(s, c) !! s.running
    ensures StillHeld(s, c, s)
  {
  }

  lemma {:induction false} FreshNonce(used: set<Nonce>) returns (unused: Nonce)
    ensures forall m :: m in used ==> m < unused
  {
    if used == {} {
      unused := 0;
    } else {
      var m :| m in used;
      var rest := FreshNonce(used - {m});
      unused := Max(rest, m + 1);
      assert forall k :: k in used ==> k == m || k in used - {m};
    }
  }

  /** A request that still runs can hand its place on at once. */
  lemma ReleaseAdmits(s: Cluster, c: Config, m: Nonce)
    requires c.Valid() && 0 < c.cap && LeaseInv(s, c) && Earliest(s, c) <= s.now
    requires m in s.running && m in Unexpired(s, c) && |Unexpired(s, c)| <= c.cap
    ensures CanAdmitBy(s, c, s.now)
  {
    hide LeaseInv, Earliest, Acquire, Unexpired, FreeLease, Bump;
    var retry := FreshNonce(s.used);
    var t := AfterFinish(s, c, m);
    FinishFrees(s, c, m);
    RoomDecides(t, c, retry);
    ReleaseThenRequest(s, c, m, retry);
  }

  lemma ReleaseThenRequest(s: Cluster, c: Config, m: Nonce, retry: Nonce)
    requires m in s.running && retry !in s.used
    requires var t := AfterFinish(s, c, m);
             Acquire(t.store, c, t.now, retry).reply == 0
    ensures CanAdmitBy(s, c, s.now)
  {
    hide Acquire, FreeLease, Bump;
    var one, two := [Finish(m)], [Finish(m), Request(retry)];
    assert two[..1] == one && one[..0] == [];
    assert Legal(s, c, []) && Exec(s, c, []) == s;
    assert Legal(s, c, one) && Exec(s, c, one) == AfterFinish(s, c, m);
    assert Legal(s, c, two) && Exec(s, c, two) == AfterRequest(AfterFinish(s, c, m), c, retry);
  }

  lemma FinishFrees(s: Cluster, c: Config, m: Nonce)
    requires c.Valid() && 0 < c.cap && LeaseInv(s, c)
    ensures var t := AfterFinish(s, c, m);
            LeaseInv(t, c) && Unexpired(t, c) == Unexpired(s, c) - {m} && Earliest(t, c) == Earliest(s, c)
  {
    LeaseFinish(s, c, m);
    hide LeaseInv, Swept;
  }

  lemma CapRefusalLeaves(s: Cluster, c: Config, n: Nonce)
    requires c.Valid() && 0 < c.cap && PacingInv(s, c) && LeaseInv(s, c) && n !in s.used
    requires Earliest(s, c) <= s.now && Acquire(s.store, c, s.now, n).reply != 0
    ensures var t := AfterRequest(s, c, n);
            && LeaseInv(t, c) && Earliest(t, c) <= t.now == s.now
            && t.running == s.running && Unexpired(t, c) == Unexpired(s, c) && t.booked == s.booked
            && |Unexpired(s, c)| == c.cap
            && forall m :: m in Unexpired(s, c) ==>
                 s.now + Acquire(s.store, c, s.now, n).reply <= Deadline(s, c, m)
  {
    hide PacingInv, LeaseInv, Purge, Swept, Distinct, Add;
    RoomDecides(s, c, n);
    RoomCountsUnexpired(s, c);
    assert HistoryInv(s) && WindowInv(s, c) by {
      PacingParts(s, c);
    }
    RefusalKeepsEarliest(s, c, n);
    LeaseRequest(s, c, n);
    assert |Purge(s.store.leases, s.now)| <= c.cap by {
      KeptWithinCap(s, c);
    }
    var earliest := EarliestDeadline(s, c);
  }

  lemma PacingParts(s: Cluster, c: Config)
    requires PacingInv(s, c)
    ensures HistoryInv(s) && WindowInv(s, c)
  {
  }

  lemma KeptWithinCap(s: Cluster, c: Config)
    requires LeaseInv(s, c)
    ensures |Purge(s.store.leases, s.now)| <= c.cap
  {
    PurgeDistinct(s.store.leases, s.now);
  }

  /** Failing at once when a poll of the cap exceeds the budget gives up an
      admission exactly when a lease before its deadline belongs to a request still
      running: that one can be released within the budget, a crashed one cannot. */
  lemma CapPollLosesExactly(c: Config, start: int, steps: seq<Step>, n: Nonce, budget: nat)
    requires c.Valid() && 0 < c.cap && Legal(Start(start), c, steps)
    requires var s := Exec(Start(start), c, steps);
             && n !in s.used && Earliest(s, c) <= s.now
             && budget < Acquire(s.store, c, s.now, n).reply
    ensures var s := Exec(Start(start), c, steps);
            CanAdmitBy(AfterRequest(s, c, n), c, s.now + budget) <==> exists m :: m in s.running && m in Unexpired(s, c)
  {
    hide Exec, Legal, PacingInv, LeaseInv, Acquire, AfterRequest, Unexpired, CanAdmitBy, Earliest;
    var s := Exec(Start(start), c, steps);
    LeaseHolds(c, start, steps);
    ReachablePaced(c, start, steps);
    CapRefusalLeaves(s, c, n);
    var t := AfterRequest(s, c, n);
    if m :| m in s.running && m in Unexpired(s, c) {
      ReleaseAdmits(t, c, m);
      AdmitsLater(t, c, s.now, s.now + budget);
    } else {
      KeptOut(t, c, s.now + budget);
    }
  }

  lemma AdmitsLater(s: Cluster, c: Config, until: int, later: int)
    requires CanAdmitBy(s, c, until) && until <= later
    ensures CanAdmitBy(s, c, later)
  {
  }

  lemma KeptOut(s: Cluster, c: Config, until: int)
    requires c.Valid() && 0 < c.cap && LeaseInv(s, c)
    requires Unexpired(s, c) !! s.running && c.cap <= |Unexpired(s, c)|
    requires forall m :: m in Unexpired(s, c) ==> until < Deadline(s, c, m)
    ensures !CanAdmitBy(s, c, until)
  {
    hide LeaseInv, Exec, Legal;
    forall steps | Legal(s, c, steps) && |s.admitted| < |Exec(s, c, steps).admitted|
      ensures until < Exec(s, c, steps).admitted[|s.admitted|]
    {
      HeldKeepsOut(s, c, steps, until);
    }
  }

  /** One place for the whole cluster and no pacing. */
  ghost predicate OnePlace(c: Config) {
    c.Valid() && c.quota == 0 && c.delay == 0 && c.cap == 1 && 0 < c.lease
  }

  /** The place is taken, and another caller is told to poll. */
  lemma PlaceTaken(c: Config)
    requires OnePlace(c)
    ensures var s := Exec(Start(0), c, [Request(0)]);
            && Legal(Start(0), c, [Request(0)])
            && s.running == {0} && s.booked == map[0 := 0] && s.used == {0} && s.now == 0
            && s.store.leases == [Scored(c.lease, 0)] && s.store.next == None && s.store.win == []
            && Earliest(s, c) == 0 && 0 < Acquire(s.store, c, s.now, 1).reply
  {
    assert [Request(0)][..0] == [];
    assert Exec(Start(0), c, []) == Start(0) && Legal(Start(0), c, []);
    assert Purge([Scored(c.lease, 0)], 0) == [Scored(c.lease, 0)] by {
      PurgeKeepsLater([Scored(c.lease, 0)], 0);
    }
  }

  /** A budget of nothing fails at once, although the request in place could be
      over at once. */
  lemma FailingFastMayLose(c: Config)
    requires OnePlace(c)
    ensures var s := Exec(Start(0), c, [Request(0)]);
            && Legal(Start(0), c, [Request(0)]) && 0 < Acquire(s.store, c, s.now, 1).reply
            && CanAdmitBy(AfterRequest(s, c, 1), c, s.now)
  {
    hide Exec, Legal, Acquire, Earliest, CanAdmitBy, AfterRequest;
    PlaceTaken(c);
    var s := Exec(Start(0), c, [Request(0)]);
    assert 0 in s.running && 0 in Unexpired(s, c);
    CapPollLosesExactly(c, 0, [Request(0)], 1, 0);
  }

  /** When that request has crashed nothing is lost: its place is out of reach. */
  lemma FailingFastMayLoseNothing(c: Config)
    requires OnePlace(c)
    ensures var s := Exec(Start(0), c, [Request(0), Crash(0)]);
            && Legal(Start(0), c, [Request(0), Crash(0)]) && 0 < Acquire(s.store, c, s.now, 1).reply
            && !CanAdmitBy(AfterRequest(s, c, 1), c, s.now)
  {
    hide Acquire, Earliest, CanAdmitBy, AfterRequest;
    PlaceTaken(c);
    var two := [Request(0), Crash(0)];
    assert two[..1] == [Request(0)];
    var s := Exec(Start(0), c, two);
    assert s == Exec(Start(0), c, [Request(0)]).(running := {0} - {0});
    assert Earliest(s, c) == 0 by {
      SameEarliest(s, Exec(Start(0), c, [Request(0)]), c);
    }
    CapPollLosesExactly(c, 0, two, 1, 0);
  }

  lemma SameEarliest(s: Cluster, t: Cluster, c: Config)
    requires s.store == t.store && s.now == t.now
    ensures Earliest(s, c) == Earliest(t, c)
  {
  }
}
