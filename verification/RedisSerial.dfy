/** How many requests of one host run at once when the in-flight cap is off. The
    pacing spaces admissions, so it serialises exactly the requests that are over
    within the gap it leaves. */
module RedisSerial {
  import opened Instants
  import opened RedisScripts
  import opened RedisRuns
  import opened RedisPacing

  /** The gap the settings leave between any two admissions. */
  function Gap(c: Config): int {
    Max(c.delay, if c.quota == 1 then c.window else 0)
  }

  /** Admissions not yet released: none after the last admission, any two a gap apart. */
  ghost predicate Spaced(s: Cluster, c: Config) {
    && s.running <= s.booked.Keys <= s.used
    && (forall n :: n in s.booked ==>
          s.booked[n] <= s.now && s.admitted != [] && s.booked[n] <= s.admitted[|s.admitted| - 1])
    && (forall n, m :: n in s.booked && m in s.booked && n != m ==>
          s.booked[n] + Gap(c) <= s.booked[m] || s.booked[m] + Gap(c) <= s.booked[n])
  }

  lemma AdmissionLeavesGap(s: Cluster, c: Config, step: Step)
    requires c.Valid() && PacingInv(s, c) && Admits(s, c, step) && s.admitted != []
    ensures s.admitted[|s.admitted| - 1] + Gap(c) <= s.now
  {
    AdmissionWaits(s, c, step);
  }

  lemma SpacedStep(s: Cluster, c: Config, step: Step)
    requires c.Valid() && PacingInv(s, c) && Spaced(s, c) && Enabled(s, step)
    ensures Spaced(Next(s, c, step), c)
  {
    hide PacingInv, Acquire, Gap;
    if Admits(s, c, step) && s.admitted != [] {
      AdmissionLeavesGap(s, c, step);
    }
  }

  lemma {:induction false} SpacedHolds(c: Config, start: int, steps: seq<Step>)
    requires c.Valid() && Legal(Start(start), c, steps)
    ensures Spaced(Exec(Start(start), c, steps), c)
  {
    hide PacingInv, Spaced, Next, Enabled;
    if steps == [] {
      StartsSpaced(c, start);
    } else {
      var before := steps[..|steps| - 1];
      SpacedHolds(c, start, before);
      ReachablePaced(c, start, before);
      SpacedStep(Exec(Start(start), c, before), c, steps[|steps| - 1]);
    }
  }

  lemma StartsSpaced(c: Config, start: int)
    ensures Spaced(Start(start), c)
  {
  }

  /** Every request still running was admitted less than longest ago. */
  ghost predicate Younger(s: Cluster, longest: int) {
    forall n :: n in s.running && n in s.booked ==> s.now < s.booked[n] + longest
  }

  /** Requests that are over within longest never run two at a time. */
  ghost predicate Serialised(c: Config, longest: int) {
    forall start, steps :: Legal(Start(start), c, steps) && Younger(Exec(Start(start), c, steps), longest) ==>
      |Exec(Start(start), c, steps).running| <= 1
  }

  lemma AtMostOne(s: set<Nonce>)
    requires forall n, m :: n in s && m in s ==> n == m
    ensures |s| <= 1
  {
    if n :| n in s {
      assert s == {n};
    }
  }

  lemma SpacedRunsAlone(s: Cluster, c: Config, longest: int)
    requires Spaced(s, c) && Younger(s, longest) && longest <= Gap(c)
    ensures |s.running| <= 1
  {
    hide Gap;
    AtMostOne(s.running);
  }

  // ----- two at once -----

  /** One request admitted at instant zero and still running. */
  ghost function OneRunning(c: Config): Cluster {
    AfterRequest(Start(0), c, 0)
  }

  lemma FirstAdmitted(c: Config)
    requires c.Valid() && c.cap == 0
    ensures var s := OneRunning(c);
            && s.running == {0} && s.booked == map[0 := 0] && s.used == {0} && s.now == 0
            && s.store.win == (if 0 < c.quota then [Scored(0, 0)] else [])
            && s.store.next == (if 0 < c.delay then Some(c.delay) else None)
  {
    assert AdmitAt(EMPTY_STORE, c, 0) == 0;
  }

  lemma SecondAdmitted(c: Config, s: Cluster)
    requires c.Valid() && c.cap == 0 && s.now == Gap(c)
    requires s.store.win == (if 0 < c.quota then [Scored(0, 0)] else [])
    requires s.store.next == (if 0 < c.delay then Some(c.delay) else None)
    ensures Acquire(s.store, c, s.now, 1).reply == 0
  {
    PurgeOne(Scored(0, 0), s.now - c.window);
    assert AdmitAt(s.store, c, s.now) == s.now;
  }

  lemma PurgeOne(e: Scored, cutoff: int)
    ensures Purge([e], cutoff) == if e.score <= cutoff then [] else [e]
  {
    assert [e][1..] == [];
  }

  /** A request that outlasts the gap meets the next one. */
  lemma Overlaps(c: Config)
    requires c.Valid() && c.cap == 0
    ensures var steps := [Request(0), Tick(Gap(c)), Request(1)];
            var s := Exec(Start(0), c, steps);
            && Legal(Start(0), c, steps)
            && s.running == {0, 1} && s.booked == map[0 := 0, 1 := Gap(c)] && s.now == Gap(c)
  {
    hide Acquire, Gap;
    assert 0 <= Gap(c) by {
      GapIsNatural(c);
    }
    var one, two, three := [Request(0)], [Request(0), Tick(Gap(c))], [Request(0), Tick(Gap(c)), Request(1)];
    assert one[..0] == [] && two[..1] == one && three[..2] == two;
    FirstAdmitted(c);
    assert Exec(Start(0), c, []) == Start(0) && Legal(Start(0), c, []);
    assert Exec(Start(0), c, one) == OneRunning(c) && Legal(Start(0), c, one);
    assert Legal(Start(0), c, two);
    var later := Exec(Start(0), c, two);
    SecondAdmitted(c, later);
  }

  lemma GapIsNatural(c: Config)
    requires c.Valid()
    ensures 0 <= Gap(c)
  {
  }

  /** With the in-flight cap off, same-host concurrency is one exactly for requests
      that are over within the gap: the delay, or a quota of one's whole window. */
  lemma SerialisedExactly(c: Config, longest: nat)
    requires c.Valid() && c.cap == 0
    ensures Serialised(c, longest) <==> longest <= Gap(c)
  {
    hide Gap, Exec, Legal;
    GapIsNatural(c);
    if longest <= Gap(c) {
      forall start, steps | Legal(Start(start), c, steps) && Younger(Exec(Start(start), c, steps), longest)
        ensures |Exec(Start(start), c, steps).running| <= 1
      {
        SpacedHolds(c, start, steps);
        SpacedRunsAlone(Exec(Start(start), c, steps), c, longest);
      }
    } else {
      Overlaps(c);
      var steps := [Request(0), Tick(Gap(c)), Request(1)];
      assert Younger(Exec(Start(0), c, steps), longest);
      assert |{0, 1}| == 2;
      assert Legal(Start(0), c, steps);
    }
  }
}
