/** SearXNG requests in the retry loop, on any number of replicas, while the scripts
    of the shared limiter interleave. Each admitted request goes through its own
    attempts and pauses; it holds its place until it leaves the loop and releases it.
    The clock is the limiter's, in milliseconds; the loop's durations are nanoseconds. */
module SearxngRuns {
  import opened Instants
  import opened RedisScripts
  import Cluster = RedisRuns
  import Cap = RedisCap
  import Loop = Retry

  datatype Phase = Arriving | Attempting | Pausing | Leaving

  /** Where a request is: the answers of its attempts, the one under way included;
      its pauses likewise; when what it is in is over; and what it has lost so far to
      everything else: the replies of the limiter, wake-ups, the way out. */
  datatype Progress = Progress(phase: Phase, script: seq<Loop.Attempt>, pauses: seq<Loop.Pause>, due: int, late: int)

  datatype Fleet = Fleet(redis: Cluster.Cluster, loops: map<Nonce, Progress>)

  datatype Step =
    | Tick(ms: nat)
    | Request(n: Nonce)
    | Attempt(n: Nonce, a: Loop.Attempt)     // the next attempt is sent
    | Sleep(n: Nonce, pause: Loop.Pause)     // the attempt's answer is to be retried
    | Leave(n: Nonce)                        // the loop returns, panics, or its context ends
    | Finish(n: Nonce)
    | Crash(n: Nonce)
    | OnRedis(script: Cluster.Step)          // penalties and key drops

  /** The shared limiter, and the client timeout its lease was sized by. */
  datatype Scope = Scope(limiter: Config, timeout: nat) {
    ghost predicate Valid() {
      && limiter.Valid() && 0 < limiter.cap
      && limiter.lease == Loop.SearxngLeaseTtl(timeout) / Loop.MILLISECOND
    }
  }

  ghost function Settings(): Loop.Config {
    Loop.Defaults(Loop.SEARCH)
  }

  ghost function Nanos(f: Fleet): int {
    f.redis.now * Loop.MILLISECOND
  }

  /** What a request has lost by an instant. */
  ghost function Lost(p: Progress, nanos: int): int {
    p.late + Max(0, nanos - p.due)
  }

  /** The backoff the loop is in. */
  ghost function Delay(p: Progress): int {
    Loop.DelayBefore(Settings(), p.script, |p.script|)
  }

  /** A request moves on: what it is in next is over after the given time. */
  ghost function Onward(f: Fleet, p: Progress, phase: Phase, length: int): Progress {
    p.(phase := phase, due := Nanos(f) + length, late := Lost(p, Nanos(f)))
  }

  ghost predicate In(f: Fleet, n: Nonce, phase: Phase) {
    n in f.loops && f.loops[n].phase == phase
  }

  /** The one assumption about time: what a request spends outside its attempts and
      pauses stays a millisecond below the slack. */
  ghost predicate OnTime(f: Fleet, nanos: int) {
    forall n :: n in f.loops ==> Lost(f.loops[n], nanos) + Loop.MILLISECOND <= Loop.RECOVERY_SLACK
  }

  ghost predicate Enabled(f: Fleet, k: Scope, step: Step) {
    match step
    case Tick(ms) => OnTime(f, Nanos(f) + ms * Loop.MILLISECOND)
    case Request(n) => n !in f.redis.used
    case Attempt(n, a) =>
      && a.took <= k.timeout
      && (In(f, n, Arriving) || (In(f, n, Pausing) && f.loops[n].due <= Nanos(f)))
    case Sleep(n, _) =>
      && In(f, n, Attempting) && f.loops[n].due <= Nanos(f)
      && var script := f.loops[n].script;
         && 0 < |script| < Settings().maxAttempts && Loop.Retried(script[|script| - 1])
         && 0 <= Delay(f.loops[n])
    case Leave(n) => n in f.loops && f.loops[n].phase != Leaving
    case Finish(n) => In(f, n, Leaving) && n in f.redis.running
    case Crash(n) => n in f.redis.running
    case OnRedis(s) => (s.Penalize? || s.DropWindow? || s.DropNext? || s.DropLeases?) && Cluster.Enabled(f.redis, s)
  }

  ghost function Scripted(f: Fleet, k: Scope, s: Cluster.Step): Cluster.Cluster {
    Cluster.Next(f.redis, k.limiter, s)
  }

  ghost function Next(f: Fleet, k: Scope, step: Step): Fleet
    requires Enabled(f, k, step)
  {
    match step
    case Tick(ms) => f.(redis := Scripted(f, k, Cluster.Tick(ms)))
    case Request(n) =>
      var redis := Scripted(f, k, Cluster.Request(n));
      Fleet(redis, if n in redis.running then f.loops[n := Progress(Arriving, [], [], Nanos(f), 0)] else f.loops)
    case Attempt(n, a) =>
      var p := f.loops[n];
      f.(loops := f.loops[n := Onward(f, p, Attempting, a.took).(script := p.script + [a])])
    case Sleep(n, pause) =>
      var p := f.loops[n];
      f.(loops := f.loops[n := Onward(f, p, Pausing, Loop.Jittered(pause, Delay(p))).(pauses := p.pauses + [pause])])
    case Leave(n) => f.(loops := f.loops[n := Onward(f, f.loops[n], Leaving, 0)])
    case Finish(n) => Fleet(Scripted(f, k, Cluster.Finish(n)), f.loops - {n})
    case Crash(n) => Fleet(Scripted(f, k, Cluster.Crash(n)), f.loops - {n})
    case OnRedis(s) => f.(redis := Scripted(f, k, s))
  }

  ghost predicate Run(states: seq<Fleet>, k: Scope, steps: seq<Step>, start: int) {
    && |states| == |steps| + 1
    && states[0] == Fleet(Cluster.Start(start), map[])
    && forall i :: 0 <= i < |steps| ==>
         Enabled(states[i], k, steps[i]) && states[i + 1] == Next(states[i], k, steps[i])
  }

  // ----- each request is where its own run of the loop is -----

  lemma {:induction false} DelayKept(c: Loop.Config, script: seq<Loop.Attempt>, more: seq<Loop.Attempt>, k: nat)
    requires k <= |script|
    ensures Loop.DelayBefore(c, script + more, k) == Loop.DelayBefore(c, script, k)
  {
    hide Loop.NextDelay;
    if 0 < k {
      DelayKept(c, script, more, k - 1);
    }
  }

  lemma {:induction false} TimeKept(c: Loop.Config, script: seq<Loop.Attempt>, more: seq<Loop.Attempt>,
                                    pauses: seq<Loop.Pause>, rest: seq<Loop.Pause>, k: nat)
    requires k < |script| && k <= |pauses|
    ensures Loop.TimeThrough(c, script + more, pauses + rest, k) == Loop.TimeThrough(c, script, pauses, k)
  {
    hide Loop.NextDelay, Loop.DelayBefore;
    if 0 < k {
      TimeKept(c, script, more, pauses, rest, k - 1);
      DelayKept(c, script, more, k);
    }
  }

  /** The loop's shape: attempts and pauses in turn, no more than the loop makes. */
  ghost predicate Shaped(p: Progress, timeout: nat) {
    && Loop.TimedOut(p.script, timeout) && |p.script| <= Settings().maxAttempts
    && match p.phase
       case Arriving => p.script == [] && p.pauses == []
       case Attempting => |p.pauses| + 1 == |p.script|
       case Pausing => |p.pauses| == |p.script| && 0 < |p.script| < Settings().maxAttempts && 0 <= Delay(p)
       case Leaving => true
  }

  /** The time its run of the loop takes through the attempt or the pause it is in. */
  ghost function Taken(p: Progress, timeout: nat): int
    requires Shaped(p, timeout)
  {
    match p.phase
    case Arriving => 0
    case Attempting => Loop.TimeThrough(Settings(), p.script, p.pauses, |p.pauses|)
    case Pausing =>
      Loop.TimeThrough(Settings(), p.script, p.pauses, |p.pauses| - 1)
      + Loop.Jittered(p.pauses[|p.pauses| - 1], Delay(p))
    case Leaving => Loop.LongestRun(Settings().maxAttempts, timeout, Settings().maxDelay)
  }

  /** What a request is in is over when its run of the loop and its losses say. */
  ghost predicate Timely(p: Progress, booked: int, nanos: int, timeout: nat) {
    && Shaped(p, timeout) && 0 <= p.late
    && Lost(p, nanos) + Loop.MILLISECOND <= Loop.RECOVERY_SLACK
    && p.due <= booked * Loop.MILLISECOND + Taken(p, timeout) + p.late
  }

  lemma TakenBounded(p: Progress, timeout: nat)
    requires Shaped(p, timeout)
    ensures Taken(p, timeout) <= Loop.LongestRun(Settings().maxAttempts, timeout, Settings().maxDelay)
  {
    hide Loop.TimeThrough, Loop.DelayBefore, Loop.LongestRun;
    var c, n := Settings(), |p.script|;
    match p.phase
    case Attempting =>
      Loop.TimeThroughBounded(c, p.script, p.pauses, n - 1, timeout);
      Loop.LongestRunGrows(n, c.maxAttempts, timeout, c.maxDelay);
    case Pausing =>
      Loop.TimeThroughBounded(c, p.script, p.pauses, n - 1, timeout);
      Loop.BackoffCapped(c, p.script, n);
      Loop.LongestRunNext(n, timeout, c.maxDelay);
      Loop.LongestRunGrows(n + 1, c.maxAttempts, timeout, c.maxDelay);
    case Arriving =>
      Loop.LongestRunGrows(1, c.maxAttempts, timeout, c.maxDelay);
      Loop.FirstAttempt(timeout, c.maxDelay);
    case Leaving =>
  }

  /** An attempt begins where the pause before it ended. */
  lemma SendsOn(f: Fleet, p: Progress, a: Loop.Attempt, booked: int, timeout: nat)
    requires Timely(p, booked, Nanos(f), timeout) && a.took <= timeout
    requires p.phase == Arriving || p.phase == Pausing
    ensures Timely(Onward(f, p, Attempting, a.took).(script := p.script + [a]), booked, Nanos(f), timeout)
  {
    hide Loop.DelayBefore, Loop.Jittered;
    var q := Onward(f, p, Attempting, a.took).(script := p.script + [a]);
    var k := |p.pauses|;
    if p.phase == Pausing {
      TimeKept(Settings(), p.script, [a], p.pauses, [], k - 1);
      assert p.pauses + [] == p.pauses;
      DelayKept(Settings(), p.script, [a], k);
    }
    assert Taken(q, timeout) == Taken(p, timeout) + a.took;
  }

  /** A pause begins where the attempt before it ended. */
  lemma SleepsOn(f: Fleet, p: Progress, pause: Loop.Pause, booked: int, timeout: nat)
    requires Timely(p, booked, Nanos(f), timeout) && p.phase == Attempting
    requires |p.script| < Settings().maxAttempts && 0 <= Delay(p)
    ensures Timely(Onward(f, p, Pausing, Loop.Jittered(pause, Delay(p))).(pauses := p.pauses + [pause]),
                   booked, Nanos(f), timeout)
  {
    hide Loop.DelayBefore;
    var q := Onward(f, p, Pausing, Loop.Jittered(pause, Delay(p))).(pauses := p.pauses + [pause]);
    TimeKept(Settings(), p.script, [], p.pauses, [pause], |p.pauses|);
    assert p.script + [] == p.script;
    assert Taken(q, timeout) == Taken(p, timeout) + Loop.Jittered(pause, Delay(p));
  }

  lemma LeavesOn(f: Fleet, p: Progress, booked: int, timeout: nat)
    requires Timely(p, booked, Nanos(f), timeout)
    ensures Timely(Onward(f, p, Leaving, 0), booked, Nanos(f), timeout)
  {
    hide Loop.TimeThrough, Loop.DelayBefore, Loop.LongestRun;
    TakenBounded(p, timeout);
  }

  ghost predicate TimelyAll(f: Fleet, k: Scope) {
    && f.loops.Keys == f.redis.running && f.redis.running <= f.redis.booked.Keys <= f.redis.used
    && forall n :: n in f.loops ==> Timely(f.loops[n], f.redis.booked[n], Nanos(f), k.timeout)
  }

  // ----- every run -----

  lemma ArrivesTimely(f: Fleet, timeout: nat)
    ensures Timely(Progress(Arriving, [], [], Nanos(f), 0), f.redis.now, Nanos(f), timeout)
  {
  }

  /** What the scripts do to who is running and when each was admitted. */
  lemma ScriptKeeps(f: Fleet, k: Scope, s: Cluster.Step)
    ensures var r := Scripted(f, k, s);
            match s
            case Tick(ms) => r.now == f.redis.now + ms && SameRequests(f.redis, r)
            case Request(n) =>
              && r.now == f.redis.now && r.used == f.redis.used + {n}
              && ((r.running == f.redis.running && r.booked == f.redis.booked)
                  || (r.running == f.redis.running + {n} && r.booked == f.redis.booked[n := f.redis.now]))
            case Finish(n) =>
              && r.now == f.redis.now && r.used == f.redis.used
              && r.running == f.redis.running - {n} && r.booked == f.redis.booked - {n}
            case Crash(n) =>
              && r.now == f.redis.now && r.used == f.redis.used
              && r.running == f.redis.running - {n} && r.booked == f.redis.booked
            case _ => r.now == f.redis.now && SameRequests(f.redis, r)
  {
    hide Acquire, FreeLease, Bump;
  }

  ghost predicate SameRequests(a: Cluster.Cluster, b: Cluster.Cluster) {
    a.running == b.running && a.booked == b.booked && a.used == b.used
  }

  lemma MovesOn(f: Fleet, k: Scope, step: Step)
    requires TimelyAll(f, k) && Enabled(f, k, step) && (step.Attempt? || step.Sleep? || step.Leave?)
    ensures TimelyAll(Next(f, k, step), k)
  {
    hide Timely, Scripted, Onward, Lost, Delay;
    match step
    case Attempt(n, a) => SendsOn(f, f.loops[n], a, f.redis.booked[n], k.timeout);
    case Sleep(n, pause) => SleepsOn(f, f.loops[n], pause, f.redis.booked[n], k.timeout);
    case Leave(n) => LeavesOn(f, f.loops[n], f.redis.booked[n], k.timeout);
    case _ =>
  }

  lemma ClockMovesOn(f: Fleet, k: Scope, ms: nat)
    requires TimelyAll(f, k) && Enabled(f, k, Tick(ms))
    ensures TimelyAll(Next(f, k, Tick(ms)), k)
  {
    hide Scripted, Shaped, Taken, Onward, Delay;
    ScriptKeeps(f, k, Cluster.Tick(ms));
  }

  lemma ScriptMovesOn(f: Fleet, k: Scope, step: Step)
    requires TimelyAll(f, k) && Enabled(f, k, step)
    requires step.Request? || step.Finish? || step.Crash? || step.OnRedis?
    ensures TimelyAll(Next(f, k, step), k)
  {
    hide Timely, Scripted, Onward, Lost, Delay;
    match step
    case Request(n) =>
      ScriptKeeps(f, k, Cluster.Request(n));
      ArrivesTimely(f, k.timeout);
    case Finish(n) => ScriptKeeps(f, k, Cluster.Finish(n));
    case Crash(n) => ScriptKeeps(f, k, Cluster.Crash(n));
    case OnRedis(s) => ScriptKeeps(f, k, s);
    case _ =>
  }

  lemma StepKeeps(f: Fleet, k: Scope, step: Step)
    requires TimelyAll(f, k) && Cluster.Reachable(k.limiter, f.redis) && Enabled(f, k, step)
    ensures TimelyAll(Next(f, k, step), k) && Cluster.Reachable(k.limiter, Next(f, k, step).redis)
  {
    hide TimelyAll, Cluster.Reachable;
    match step
    case Tick(ms) =>
      ClockMovesOn(f, k, ms);
      Cluster.ReachesNext(k.limiter, f.redis, Cluster.Tick(ms));
    case Request(n) =>
      ScriptMovesOn(f, k, step);
      Cluster.ReachesNext(k.limiter, f.redis, Cluster.Request(n));
    case Finish(n) =>
      ScriptMovesOn(f, k, step);
      Cluster.ReachesNext(k.limiter, f.redis, Cluster.Finish(n));
    case Crash(n) =>
      ScriptMovesOn(f, k, step);
      Cluster.ReachesNext(k.limiter, f.redis, Cluster.Crash(n));
    case OnRedis(s) =>
      ScriptMovesOn(f, k, step);
      Cluster.ReachesNext(k.limiter, f.redis, s);
    case _ =>
      MovesOn(f, k, step);
  }

  lemma {:induction false} RunKeeps(states: seq<Fleet>, k: Scope, steps: seq<Step>, start: int, i: nat)
    requires Run(states, k, steps, start) && i <= |steps|
    ensures TimelyAll(states[i], k) && Cluster.Reachable(k.limiter, states[i].redis)
  {
    hide Enabled, Next, Cluster.Reachable, Timely;
    if i == 0 {
      Cluster.ReachesStart(k.limiter, start);
    } else {
      hide TimelyAll;
      RunKeeps(states, k, steps, start, i - 1);
      StepKeeps(states[i - 1], k, steps[i - 1]);
    }
  }

  /** A request that is on time holds a lease before its deadline. */
  lemma TimelyIsLeased(p: Progress, k: Scope, booked: int, now: int)
    requires k.Valid() && Timely(p, booked, now * Loop.MILLISECOND, k.timeout)
    ensures now < booked + k.limiter.lease
  {
    hide Shaped, Taken, Loop.TimeThrough, Loop.DelayBefore;
    TakenBounded(p, k.timeout);
  }

  /** With the lease SearXNG is given, the whole cluster never has more than cap
      requests running, on every run of their loops and the scripts together: no
      request loses its place while it retries. */
  lemma SearxngCapHolds(states: seq<Fleet>, k: Scope, steps: seq<Step>, start: int)
    requires k.Valid() && Run(states, k, steps, start)
    ensures |states[|steps|].redis.running| <= k.limiter.cap
  {
    hide Timely, Enabled, Next, Cluster.Exec, Cluster.Legal;
    RunKeeps(states, k, steps, start, |steps|);
    var f := states[|steps|];
    forall n | n in f.redis.running
      ensures f.redis.now < f.redis.booked[n] + k.limiter.lease
    {
      TimelyIsLeased(f.loops[n], k, f.redis.booked[n], f.redis.now);
    }
    var from, script :| Cluster.Legal(Cluster.Start(from), k.limiter, script)
              && Cluster.Exec(Cluster.Start(from), k.limiter, script) == f.redis;
    Cap.RunningWithinCap(k.limiter, from, script);
  }
}
