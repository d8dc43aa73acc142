/** The fleet followed step by step: which backend each step moves, and the ways a
    caller is served. */
module FleetPaths {
  import opened Instants
  import opened Fallback
  import Local = LimiterRuns
  import Scripts = RedisScripts
  import Cluster = RedisRuns

  // ----- the backends -----

  /** The step of Redis a step of the fleet is. */
  ghost function RedisSteps(step: Step): seq<Cluster.Step> {
    match step
    case Tick(ms) => [Cluster.Tick(ms)]
    case Script(_, _, n) => [Cluster.Request(n)]
    case Lost(_, _, n) => [Cluster.Request(n)]
    case Abandon(_, _, n) => [Cluster.Request(n)]
    case OnRedis(s) => [s]
    case _ => []
  }

  /** The step of a pod's own limiter. */
  ghost function LocalSteps(step: Step, i: nat): seq<Local.Step> {
    match step
    case Tick(ms) => [Local.Tick(ms)]
    case Book(j, _) => if j == i then [Local.Admit] else []
    case OnPod(j, s) => if j == i then [s] else []
    case _ => []
  }

  /** Every step moves each backend by one step of its own or not at all. */
  lemma BackendsMove(f: Fleet, k: Scope, step: Step, i: nat)
    requires Enabled(f, k, step) && i < |f.pods|
    ensures |Next(f, k, step).pods| == |f.pods|
    ensures Next(f, k, step).redis ==
            if RedisSteps(step) == [] then f.redis else Cluster.Next(f.redis, k.shared, RedisSteps(step)[0])
    ensures Next(f, k, step).pods[i].local ==
            if LocalSteps(step, i) == [] then f.pods[i].local
            else Local.Next(f.pods[i].local, k.local, LocalSteps(step, i)[0])
  {
    hide Cluster.Next, Local.Next;
  }

  /** The clock, releases, penalties, withdrawals and completions wait for nobody. */
  lemma BackendsAreFree(f: Fleet, k: Scope, ms: nat, i: nat, s: Cluster.Step, t: Local.Step)
    ensures Enabled(f, k, Tick(ms))
    ensures Enabled(f, k, OnRedis(s)) <==> !s.Tick? && !s.Request? && Cluster.Enabled(f.redis, s)
    ensures i < |f.pods| ==>
            (Enabled(f, k, OnPod(i, t)) <==> !t.Tick? && !t.Admit? && Local.Enabled(f.pods[i].local, k.cap, t))
  {
  }

  /** A step moves the caller that takes it and nobody else. */
  lemma OthersStay(f: Fleet, k: Scope, step: Step, i: nat, c: Caller)
    requires Enabled(f, k, step) && i < |f.pods| && c in f.pods[i].callers
    requires step.Tick? || step.OnRedis? || step.OnPod? || step.pod != i || step.c != c
    ensures i < |Next(f, k, step).pods| && c in Next(f, k, step).pods[i].callers
    ensures Next(f, k, step).pods[i].callers[c] == f.pods[i].callers[c]
  {
    hide Cluster.Next, Local.Next;
  }

  // ----- a caller's way -----

  ghost predicate CanFollow(f: Fleet, k: Scope, steps: seq<Step>)
    decreases |steps|
  {
    steps == [] || (Enabled(f, k, steps[0]) && CanFollow(Next(f, k, steps[0]), k, steps[1..]))
  }

  ghost function Follow(f: Fleet, k: Scope, steps: seq<Step>): Fleet
    requires CanFollow(f, k, steps)
    decreases |steps|
  {
    if steps == [] then f else Follow(Next(f, k, steps[0]), k, steps[1..])
  }

  lemma FollowOne(f: Fleet, k: Scope, step: Step, rest: seq<Step>)
    requires Enabled(f, k, step) && CanFollow(Next(f, k, step), k, rest)
    ensures CanFollow(f, k, [step] + rest) && Follow(f, k, [step] + rest) == Follow(Next(f, k, step), k, rest)
  {
    assert ([step] + rest)[1..] == rest;
  }

  lemma FollowTwo(f: Fleet, k: Scope, a: Step, b: Step)
    requires Enabled(f, k, a) && Enabled(Next(f, k, a), k, b)
    ensures CanFollow(f, k, [a, b]) && Follow(f, k, [a, b]) == Next(Next(f, k, a), k, b)
  {
    FollowOne(Next(f, k, a), k, b, []);
    FollowOne(f, k, a, [b]);
    assert [b] + [] == [b] && [a] + [b] == [a, b];
  }

  lemma FollowThree(f: Fleet, k: Scope, a: Step, b: Step, c: Step)
    requires Enabled(f, k, a) && Enabled(Next(f, k, a), k, b) && Enabled(Next(Next(f, k, a), k, b), k, c)
    ensures CanFollow(f, k, [a, b, c]) && Follow(f, k, [a, b, c]) == Next(Next(Next(f, k, a), k, b), k, c)
  {
    FollowTwo(Next(f, k, a), k, b, c);
    FollowOne(f, k, a, [b, c]);
    assert [a] + [b, c] == [a, b, c];
  }

  /** One pod with one of its callers somewhere. */
  ghost function With(f: Fleet, i: nat, c: Caller, pod: Pod, pc: Pc): Fleet
    requires i < |f.pods|
  {
    f.(pods := f.pods[i := pod.(callers := f.pods[i].callers[c := pc])])
  }

  ghost predicate CanArrive(f: Fleet, i: nat, c: Caller) {
    i < |f.pods| && c !in f.pods[i].callers
  }

  /** While the circuit is ready and Redis answers, a caller it admits is served by
      it and closes the circuit; nothing else changes. */
  lemma ServedByRedis(f: Fleet, k: Scope, i: nat, c: Caller, n: Scripts.Nonce)
    requires CanArrive(f, i, c) && Ready(f.pods[i].circuit, f.redis.now) && n !in f.redis.used
    requires Scripts.Acquire(f.redis.store, k.shared, f.redis.now, n).reply == 0
    ensures var steps := [Arrive(i, c), Script(i, c, n), MarkUp(i, c)];
            && CanFollow(f, k, steps)
            && Follow(f, k, steps) ==
               With(f, i, c, f.pods[i].(circuit := MarkedUp(f.pods[i].circuit)), Gone).(
                 redis := Cluster.AfterRequest(f.redis, k.shared, n))
  {
    hide Scripts.Acquire;
    var f1 := With(f, i, c, f.pods[i], Probing);
    assert Next(f, k, Arrive(i, c)) == f1;
    var redis := Cluster.AfterRequest(f.redis, k.shared, n);
    assert |f.redis.admitted| < |redis.admitted|;
    var f2 := With(f, i, c, f.pods[i], Succeeding).(redis := redis);
    assert f1.pods[i].callers[c := Succeeding] == f.pods[i].callers[c := Succeeding];
    assert Next(f1, k, Script(i, c, n)) == f2;
    assert f2.pods[i].callers[c := Gone] == f.pods[i].callers[c := Gone];
    FollowThree(f, k, Arrive(i, c), Script(i, c, n), MarkUp(i, c));
  }

  /** A caller that Redis refuses for now stays in the primary, and its refusal is
      all that changes. */
  lemma RefusedStaysProbing(f: Fleet, k: Scope, i: nat, c: Caller, n: Scripts.Nonce)
    requires At(f, i, c, Probing) && n !in f.redis.used
    requires Scripts.Acquire(f.redis.store, k.shared, f.redis.now, n).reply != 0
    ensures Enabled(f, k, Script(i, c, n))
    ensures Next(f, k, Script(i, c, n)) == f.(redis := Cluster.AfterRequest(f.redis, k.shared, n))
  {
    hide Scripts.Acquire;
  }

  /** When Redis cannot be reached the caller opens the circuit for a cooldown and
      books in its own pod's limiter. */
  lemma ServedLocally(f: Fleet, k: Scope, i: nat, c: Caller)
    requires CanArrive(f, i, c) && Ready(f.pods[i].circuit, f.redis.now)
    requires Local.Enabled(f.pods[i].local, k.cap, Local.Admit)
    ensures var steps, pod := [Error(i, c), MarkDown(i, c), Book(i, c)], f.pods[i];
            && Enabled(f, k, Arrive(i, c)) && CanFollow(Next(f, k, Arrive(i, c)), k, steps)
            && Follow(Next(f, k, Arrive(i, c)), k, steps) ==
               With(f, i, c, pod.(circuit := MarkedDown(pod.circuit, f.redis.now, k.cooldown),
                                  local := Local.Next(pod.local, k.local, Local.Admit)), Gone)
  {
    hide Local.Next;
    var pod := f.pods[i];
    var f1 := With(f, i, c, pod, Probing);
    assert Next(f, k, Arrive(i, c)) == f1;
    var f2 := With(f, i, c, pod, Failing);
    assert f1.pods[i].callers[c := Failing] == pod.callers[c := Failing];
    assert Next(f1, k, Error(i, c)) == f2;
    var down := pod.(circuit := MarkedDown(pod.circuit, f.redis.now, k.cooldown));
    var f3 := With(f, i, c, down, Queued);
    assert f2.pods[i].callers[c := Queued] == pod.callers[c := Queued];
    assert Next(f2, k, MarkDown(i, c)) == f3;
    assert f3.pods[i].callers[c := Gone] == pod.callers[c := Gone];
    FollowThree(f1, k, Error(i, c), MarkDown(i, c), Book(i, c));
  }

  /** With the circuit open a caller goes straight to its own pod's limiter. */
  lemma OpenCircuitServesLocally(f: Fleet, k: Scope, i: nat, c: Caller)
    requires CanArrive(f, i, c) && !Ready(f.pods[i].circuit, f.redis.now)
    requires Local.Enabled(f.pods[i].local, k.cap, Local.Admit)
    ensures var steps, pod := [Arrive(i, c), Book(i, c)], f.pods[i];
            && CanFollow(f, k, steps)
            && Follow(f, k, steps) == With(f, i, c, pod.(local := Local.Next(pod.local, k.local, Local.Admit)), Gone)
  {
    hide Local.Next;
    var f1 := With(f, i, c, f.pods[i], Queued);
    assert Next(f, k, Arrive(i, c)) == f1;
    assert f1.pods[i].callers[c := Gone] == f.pods[i].callers[c := Gone];
    FollowTwo(f, k, Arrive(i, c), Book(i, c));
  }

  /** A reply that is lost counts as a failure although Redis has booked; a caller
      that hangs up, or gives up on its budget, marks nothing. */
  lemma FailsOrLeaves(f: Fleet, k: Scope, i: nat, c: Caller, n: Scripts.Nonce)
    requires i < |f.pods| && c in f.pods[i].callers && n !in f.redis.used
    ensures At(f, i, c, Probing) ==>
            && Enabled(f, k, Lost(i, c, n)) && Enabled(f, k, Abandon(i, c, n)) && Enabled(f, k, Refuse(i, c))
            && var redis := Cluster.AfterRequest(f.redis, k.shared, n);
               Next(f, k, Lost(i, c, n)) == With(f, i, c, f.pods[i], Failing).(redis := redis)
               && Next(f, k, Abandon(i, c, n)) == With(f, i, c, f.pods[i], Gone).(redis := redis)
    ensures At(f, i, c, Probing) || At(f, i, c, Queued) ==>
            Enabled(f, k, Refuse(i, c)) && Next(f, k, Refuse(i, c)) == With(f, i, c, f.pods[i], Gone)
  {
    hide Cluster.AfterRequest;
  }
}
