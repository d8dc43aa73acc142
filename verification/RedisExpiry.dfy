/** Key expiry is unobservable: a server that drops keys once their TTL has run
    out gives every script the replies that a server that never drops keys gives. */
module RedisExpiry {
  import opened Instants
  import opened RedisScripts
  import opened RedisRuns
  import opened RedisPacing
  import opened RedisCap

  ghost predicate Drops(step: Step) {
    step.DropWindow? || step.DropNext? || step.DropLeases?
  }

  /** The same deployment on a server that keeps every key. */
  ghost function ExecKeeping(s: Cluster, c: Config, steps: seq<Step>): Cluster {
    if steps == [] then s
    else
      var before, step := ExecKeeping(s, c, steps[..|steps| - 1]), steps[|steps| - 1];
      if Drops(step) then before else Next(before, c, step)
  }

  /** What a script replies to its caller. */
  ghost function ReplyTo(s: Cluster, c: Config, step: Step): int {
    match step
    case Request(n) => Acquire(s.store, c, s.now, n).reply
    case Finish(_) => if 0 < c.cap then 0 else Bump(s.store, c.delay, s.now).reply
    case Penalize(hold) => Bump(s.store, hold, s.now).reply
    case _ => 0
  }

  /** Keys may differ only in what no script can see any more. */
  ghost predicate SameWindow(s: Cluster, u: Cluster, c: Config) {
    if 0 < c.quota then Purge(s.store.win, s.now - c.window) == Purge(u.store.win, s.now - c.window)
    else s.store.win == u.store.win == []
  }

  ghost predicate SameNext(s: Cluster, u: Cluster) {
    s.store.next == u.store.next
    || (s.store.next == None && u.store.next.Some? && u.store.next.value <= s.now)
  }

  ghost predicate SameLeases(s: Cluster, u: Cluster, c: Config) {
    if 0 < c.cap then Purge(s.store.leases, s.now) == Purge(u.store.leases, s.now)
    else s.store.leases == u.store.leases == []
  }

  ghost predicate SameDeployment(s: Cluster, u: Cluster) {
    s.now == u.now && s.admitted == u.admitted && s.booked == u.booked && s.running == u.running && s.used == u.used
  }

  ghost predicate Alike(s: Cluster, u: Cluster, c: Config) {
    SameDeployment(s, u) && SameWindow(s, u, c) && SameNext(s, u) && SameLeases(s, u, c)
  }

  lemma {:induction false} PurgeTwice(z: SortedSet, first: int, second: int)
    requires first <= second
    ensures Purge(Purge(z, first), second) == Purge(z, second)
  {
    if z != [] {
      PurgeTwice(z[1..], first, second);
    }
  }

  lemma {:induction false} PurgeRemove(z: SortedSet, cutoff: int, n: Nonce)
    ensures Purge(Remove(z, n), cutoff) == Remove(Purge(z, cutoff), n)
  {
    if z != [] {
      PurgeRemove(z[1..], cutoff, n);
    }
  }

  lemma {:induction false} PurgeAll(z: SortedSet, cutoff: int)
    requires forall i :: 0 <= i < |z| ==> z[i].score <= cutoff
    ensures Purge(z, cutoff) == []
  {
    if z != [] {
      PurgeAll(z[1..], cutoff);
    }
  }

  lemma AlikeTick(s: Cluster, u: Cluster, c: Config, ms: nat)
    requires Alike(s, u, c)
    ensures Alike(Next(s, c, Tick(ms)), Next(u, c, Tick(ms)), c)
  {
    hide Purge;
    var now := s.now;
    PurgeTwice(s.store.win, now - c.window, now + ms - c.window);
    PurgeTwice(u.store.win, now - c.window, now + ms - c.window);
    PurgeTwice(s.store.leases, now, now + ms);
    PurgeTwice(u.store.leases, now, now + ms);
  }

  lemma AlikeRequest(s: Cluster, u: Cluster, c: Config, n: Nonce)
    requires c.Valid() && Alike(s, u, c)
    ensures ReplyTo(s, c, Request(n)) == ReplyTo(u, c, Request(n))
    ensures Alike(Next(s, c, Request(n)), Next(u, c, Request(n)), c)
  {
    hide Purge, Add, CapWait;
    assert Swept(s.store, c, s.now) == Swept(u.store, c, s.now);
    assert AdmitAt(s.store, c, s.now) == AdmitAt(u.store, c, s.now);
    PurgeTwice(s.store.win, s.now - c.window, s.now - c.window);
    PurgeTwice(s.store.leases, s.now, s.now);
  }

  lemma AlikeFinish(s: Cluster, u: Cluster, c: Config, n: Nonce)
    requires c.Valid() && Alike(s, u, c)
    ensures ReplyTo(s, c, Finish(n)) == ReplyTo(u, c, Finish(n))
    ensures Alike(Next(s, c, Finish(n)), Next(u, c, Finish(n)), c)
  {
    hide Purge, Remove;
    PurgeRemove(s.store.leases, s.now, n);
    PurgeRemove(u.store.leases, s.now, n);
  }

  lemma AlikePenalize(s: Cluster, u: Cluster, c: Config, hold: int)
    requires Alike(s, u, c)
    ensures ReplyTo(s, c, Penalize(hold)) == ReplyTo(u, c, Penalize(hold))
    ensures Alike(Next(s, c, Penalize(hold)), Next(u, c, Penalize(hold)), c)
  {
    hide Purge;
  }

  /** A key is dropped only when nothing in it can still be seen. */
  lemma AlikeDrop(s: Cluster, u: Cluster, c: Config, step: Step)
    requires c.Valid() && Alike(s, u, c) && Drops(step) && Enabled(s, step)
    requires PacingInv(s, c) && (0 < c.cap ==> LeaseInv(s, c))
    ensures Alike(Next(s, c, step), u, c)
  {
    match step
    case DropWindow =>
      if 0 < c.quota {
        PurgeAll(s.store.win, s.now - c.window);
      }
    case DropNext =>
    case DropLeases =>
      if 0 < c.cap {
        forall i | 0 <= i < |s.store.leases|
          ensures s.store.leases[i].score <= s.now
        {
          assert s.store.leases[i] in s.store.leases;
        }
        PurgeAll(s.store.leases, s.now);
      }
    case _ =>
  }

  lemma AlikeStep(s: Cluster, u: Cluster, c: Config, step: Step)
    requires c.Valid() && Alike(s, u, c) && Enabled(s, step)
    requires PacingInv(s, c) && (0 < c.cap ==> LeaseInv(s, c))
    ensures ReplyTo(s, c, step) == if Drops(step) then 0 else ReplyTo(u, c, step)
    ensures Alike(Next(s, c, step), if Drops(step) then u else Next(u, c, step), c)
  {
    if Drops(step) {
      AlikeDrop(s, u, c, step);
    } else {
      match step
      case Tick(ms) => AlikeTick(s, u, c, ms);
      case Request(n) => AlikeRequest(s, u, c, n);
      case Finish(n) => AlikeFinish(s, u, c, n);
      case Penalize(hold) => AlikePenalize(s, u, c, hold);
      case Crash(_) => AlikeCrash(s, u, c, step);
    }
  }

  lemma AlikeCrash(s: Cluster, u: Cluster, c: Config, step: Step)
    requires Alike(s, u, c) && step.Crash?
    ensures Alike(Next(s, c, step), Next(u, c, step), c)
  {
    hide Purge;
  }

  lemma {:induction false} RunsAlike(c: Config, start: int, steps: seq<Step>)
    requires c.Valid() && Legal(Start(start), c, steps)
    ensures Alike(Exec(Start(start), c, steps), ExecKeeping(Start(start), c, steps), c)
  {
    hide Alike, PacingInv, LeaseInv, Next, Enabled, Drops, ReplyTo;
    var s := Start(start);
    if steps == [] {
      AlikeItself(s, c);
    } else {
      var before := steps[..|steps| - 1];
      RunsAlike(c, start, before);
      ReachablePaced(c, start, before);
      if 0 < c.cap {
        LeaseHolds(c, start, before);
      }
      AlikeStep(Exec(s, c, before), ExecKeeping(s, c, before), c, steps[|steps| - 1]);
    }
  }

  lemma AlikeItself(s: Cluster, c: Config)
    requires s.store == EMPTY_STORE
    ensures Alike(s, s, c)
  {
  }

  /** On every run, each script replies, and each request is admitted, as it
      would be on a server that never drops a key. */
  lemma KeyExpiryIsUnobservable(c: Config, start: int, steps: seq<Step>, i: nat)
    requires c.Valid() && i < |steps| && Legal(Start(start), c, steps[..i + 1])
    ensures var s := Exec(Start(start), c, steps[..i]);
            var u := ExecKeeping(Start(start), c, steps[..i]);
            && SameDeployment(s, u)
            && (!Drops(steps[i]) ==> ReplyTo(s, c, steps[i]) == ReplyTo(u, c, steps[i]))
  {
    var before := steps[..i];
    assert steps[..i + 1][..i] == before;
    RunsAlike(c, start, before);
    ReachablePaced(c, start, before);
    if 0 < c.cap {
      LeaseHolds(c, start, before);
    }
    AlikeStep(Exec(Start(start), c, before), ExecKeeping(Start(start), c, before), c, steps[i]);
  }
}
