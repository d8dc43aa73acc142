/** A SearXNG request followed step by step through the shared limiter and its own
    loop. */
module SearxngPaths {
  import opened Instants
  import opened RedisScripts
  import opened SearxngRuns
  import Cluster = RedisRuns
  import Loop = Retry

  /** An admitted request arrives with nothing done, due at once; one that is refused
      leaves only its refusal. */
  lemma ArrivesExactly(f: Fleet, k: Scope, n: Nonce)
    requires n !in f.redis.used && n !in f.redis.running
    ensures Enabled(f, k, Request(n))
    ensures var g := Next(f, k, Request(n));
            && g.redis == Cluster.AfterRequest(f.redis, k.limiter, n)
            && g.loops == if Acquire(f.redis.store, k.limiter, f.redis.now, n).reply == 0
                          then f.loops[n := Progress(Arriving, [], [], f.redis.now * 1_000_000, 0)]
                          else f.loops
  {
    hide Acquire;
  }

  /** An attempt may follow the arrival or a pause that is over, as long as the client
      timeout at most; it is due when it has taken its time, and what was lost until
      it began is not forgotten. */
  lemma AttemptsExactly(f: Fleet, k: Scope, n: Nonce, a: Loop.Attempt)
    requires n in f.loops && a.took <= k.timeout
    requires var p := f.loops[n];
             p.phase == Arriving || (p.phase == Pausing && p.due <= f.redis.now * 1_000_000)
    ensures Enabled(f, k, Attempt(n, a))
    ensures var p, nanos := f.loops[n], f.redis.now * 1_000_000;
            Next(f, k, Attempt(n, a)) ==
            f.(loops := f.loops[n := Progress(Attempting, p.script + [a], p.pauses, nanos + a.took,
                                              p.late + Max(0, nanos - p.due))])
  {
  }

  /** An answer that may be tried again is followed by its pause, while attempts are
      left, from the instant the attempt is over. */
  lemma SleepsExactly(f: Fleet, k: Scope, n: Nonce, pause: Loop.Pause)
    requires n in f.loops && f.loops[n].phase == Attempting && f.loops[n].due <= f.redis.now * 1_000_000
    requires f.loops[n].script != []
    ensures var p, nanos := f.loops[n], f.redis.now * 1_000_000;
            var last := p.script[|p.script| - 1];
            && (Enabled(f, k, Sleep(n, pause)) <==> |p.script| < 3 && Loop.Retried(last) && 0 <= Delay(p))
            && (Enabled(f, k, Sleep(n, pause)) ==>
                  Next(f, k, Sleep(n, pause)) ==
                  f.(loops := f.loops[n := Progress(Pausing, p.script, p.pauses + [pause],
                                                    nanos + Loop.Jittered(pause, Delay(p)),
                                                    p.late + Max(0, nanos - p.due))]))
  {
    hide Loop.Retried, Loop.DelayBefore;
  }

  /** A request leaves its loop, and then releases its place and is gone; a crashed
      one is gone and its place is not released. */
  lemma LeavesExactly(f: Fleet, k: Scope, n: Nonce)
    requires n in f.loops && n in f.redis.running && f.loops[n].phase != Leaving
    ensures Enabled(f, k, Leave(n)) && !Enabled(f, k, Finish(n)) && Enabled(f, k, Crash(n))
    ensures var p, nanos := f.loops[n], f.redis.now * 1_000_000;
            var left := f.(loops := f.loops[n := Progress(Leaving, p.script, p.pauses, nanos,
                                                          p.late + Max(0, nanos - p.due))]);
            && Next(f, k, Leave(n)) == left && Enabled(left, k, Finish(n))
            && Next(left, k, Finish(n)) == Fleet(Cluster.AfterFinish(f.redis, k.limiter, n), f.loops - {n})
            && Next(f, k, Crash(n)) == Fleet(f.redis.(running := f.redis.running - {n}), f.loops - {n})
  {
    hide Cluster.AfterFinish;
    var left := Next(f, k, Leave(n));
    assert left.loops - {n} == f.loops - {n};
  }

  /** The clock moves the limiter and no request; penalties and key drops likewise. */
  lemma ClockAndServer(f: Fleet, k: Scope, ms: nat, s: Cluster.Step)
    ensures After(f, k, Tick(ms)).Some? ==>
            After(f, k, Tick(ms)) == Some(f.(redis := f.redis.(now := f.redis.now + ms)))
    ensures f.loops == map[] ==> Enabled(f, k, Tick(ms))
    ensures s.Penalize? ==> After(f, k, OnRedis(s)) == Some(f.(redis := Cluster.Next(f.redis, k.limiter, s)))
    ensures (s.DropWindow? || s.DropNext? || s.DropLeases?) && Cluster.Enabled(f.redis, s) ==>
            After(f, k, OnRedis(s)) == Some(f.(redis := Cluster.Next(f.redis, k.limiter, s)))
  {
    hide Acquire, FreeLease, Bump;
  }

  ghost function After(f: Fleet, k: Scope, step: Step): Option<Fleet> {
    if Enabled(f, k, step) then Some(Next(f, k, step)) else None
  }
}
