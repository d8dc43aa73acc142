/** The fail-open composite: a distributed primary behind a circuit, and an
    in-process fallback per pod. */
module Fallback {
  import opened Instants
  import Slots = DomainSlots
  import Local = LimiterRuns
  import Withdrawals = LimiterWithdrawals
  import Scripts = RedisScripts
  import Cluster = RedisRuns
  import Paced = RedisPacing

  // ----- the circuit -----

  /** downUntil is None while healthy; notices are the transitions reported. */
  datatype Circuit = Circuit(downUntil: Option<int>, notices: seq<bool>)

  const HEALTHY := Circuit(None, [])

  predicate Ready(k: Circuit, now: int) {
    k.downUntil.None? || k.downUntil.value <= now
  }

  function MarkedDown(k: Circuit, now: int, cooldown: int): Circuit {
    Circuit(Some(now + cooldown), if k.downUntil.None? then k.notices + [true] else k.notices)
  }

  function MarkedUp(k: Circuit): Circuit {
    Circuit(None, if k.downUntil.Some? then k.notices + [false] else k.notices)
  }

  /** One mark of one caller. */
  datatype Mark = Down(now: int) | Up

  function Marked(k: Circuit, mark: Mark, cooldown: int): Circuit {
    match mark
    case Down(now) => MarkedDown(k, now, cooldown)
    case Up => MarkedUp(k)
  }

  function MarkedAll(k: Circuit, marks: seq<Mark>, cooldown: int): Circuit {
    if marks == [] then k
    else Marked(MarkedAll(k, marks[..|marks| - 1], cooldown), marks[|marks| - 1], cooldown)
  }

  /** How the primary answered one acquire. */
  datatype Answer = Admitted | Unavailable | Refused(error: string)

  /** How an acquire ended: where it was admitted, or the error its caller sees. */
  datatype Served = ByPrimary | ByFallback | Failed(error: string)

  const DEFAULT_COOLDOWN := 30_000

  class FallbackLimiter {
    const cooldown: int
    var downUntil: Option<int>
    var notices: seq<bool>

    constructor (cooldown: int)
      ensures State() == HEALTHY
      ensures this.cooldown == if 0 < cooldown then cooldown else DEFAULT_COOLDOWN
    {
      this.cooldown := if 0 < cooldown then cooldown else DEFAULT_COOLDOWN;
      downUntil, notices := None, [];
    }

    function State(): Circuit
      reads this
    {
      Circuit(downUntil, notices)
    }

    method PrimaryReady(now: int) returns (ready: bool)
      ensures ready == Ready(State(), now)
    {
      ready := downUntil.None? || !(now < downUntil.value);
    }

    method MarkDown(now: int)
      modifies this
      ensures State() == MarkedDown(old(State()), now, cooldown)
    {
      var first := downUntil.None?;
      downUntil := Some(now + cooldown);
      if first {
        notices := notices + [true];
      }
    }

    method MarkUp()
      modifies this
      ensures State() == MarkedUp(old(State()))
    {
      var recovered := downUntil.Some?;
      downUntil := None;
      if recovered {
        notices := notices + [false];
      }
    }

    /** What other callers do to the circuit while this one is in the primary. */
    method Meanwhile(others: seq<Mark>)
      modifies this
      ensures State() == MarkedAll(old(State()), others, cooldown)
    {
      for i := 0 to |others|
        invariant State() == MarkedAll(old(State()), others[..i], cooldown)
      {
        assert others[..i + 1][..i] == others[..i];
        match others[i]
        case Down(now) => MarkDown(now);
        case Up => MarkUp();
      }
      assert others[..|others|] == others;
    }

    /** One acquire, given how each backend would answer it: the circuit is read at
        one instant and marked at a later one, after any marks of others. The caller
        never sees that the primary is unavailable, and its errors leave the circuit
        alone. */
    method Acquire(now: int, others: seq<Mark>, later: int, primary: Answer, fallback: Answer)
      returns (served: Served)
      requires !fallback.Unavailable?
      modifies this
      ensures var tried := old(Ready(State(), now));
              && (served == ByPrimary <==> tried && primary.Admitted?)
              && (served == ByFallback <==> (!tried || primary.Unavailable?) && fallback.Admitted?)
              && (served.Failed? ==>
                    served.error == if tried && primary.Refused? then primary.error else fallback.error)
              && var met := if tried then MarkedAll(old(State()), others, cooldown) else old(State());
                 State() == if tried && primary.Admitted? then MarkedUp(met)
                            else if tried && primary.Unavailable? then MarkedDown(met, later, cooldown)
                            else met
    {
      var ready := PrimaryReady(now);
      if ready {
        Meanwhile(others);
        match primary
        case Admitted =>
          MarkUp();
          return ByPrimary;
        case Refused(e) =>
          return Failed(e);
        case Unavailable =>
          MarkDown(later);
      }
      served := if fallback.Admitted? then ByFallback else Failed(fallback.error);
    }
  }

  /** Transitions strictly alternate, starting with degraded. */
  ghost predicate Alternates(notices: seq<bool>) {
    forall i :: 0 <= i < |notices| ==> notices[i] == (i % 2 == 0)
  }

  /** However the callers' marks interleave, the reported transitions alternate,
      and the circuit is open exactly after a degraded one. */
  lemma {:induction false} TransitionsAlternate(marks: seq<Mark>, cooldown: int)
    ensures var k := MarkedAll(HEALTHY, marks, cooldown);
            && Alternates(k.notices)
            && (k.downUntil.Some? <==> |k.notices| % 2 == 1)
  {
    if marks != [] {
      TransitionsAlternate(marks[..|marks| - 1], cooldown);
    }
  }

  /** The last mark decides: a failure opens the circuit for a cooldown from it, a
      success closes it, and each is reported once, when it changes something. */
  lemma LastMarkDecides(k: Circuit, marks: seq<Mark>, cooldown: int, now: int)
    ensures MarkedAll(k, marks + [Down(now)], cooldown).downUntil == Some(now + cooldown)
    ensures MarkedAll(k, marks + [Up], cooldown).downUntil == None
    ensures var was := MarkedAll(k, marks, cooldown);
            && MarkedAll(k, marks + [Up], cooldown).notices
               == was.notices + (if was.downUntil.Some? then [false] else [])
            && MarkedAll(k, marks + [Down(now)], cooldown).notices
               == was.notices + (if was.downUntil.Some? then [] else [true])
  {
    assert (marks + [Up])[..|marks|] == marks && (marks + [Down(now)])[..|marks|] == marks;
  }

  // ----- the fleet: P pods over one Redis -----

  type Caller = nat

  /** Where a caller's acquire stands. It reads the circuit once, on arrival; what
      others do to the circuit afterwards does not stop it. */
  datatype Pc =
    | Probing                 // past the circuit, in the primary's retry loop
    | Succeeding              // admitted by the primary, which is not yet marked up
    | Failing                 // found the primary unavailable, not yet marked down
    | Queued                  // in the fallback, waiting for a place
    | Gone                    // admitted and marked, booked locally, or refused

  datatype Pod = Pod(circuit: Circuit, local: Local.Run, callers: map<Caller, Pc>)

  datatype Fleet = Fleet(redis: Cluster.Cluster, pods: seq<Pod>)

  datatype Step =
    | Tick(ms: nat)
    | Arrive(pod: nat, c: Caller)
    | Script(pod: nat, c: Caller, nonce: Scripts.Nonce)   // the acquire script runs and its reply arrives
    | Lost(pod: nat, c: Caller, nonce: Scripts.Nonce)     // it runs, and its reply is lost
    | Abandon(pod: nat, c: Caller, nonce: Scripts.Nonce)  // it runs, and the caller hangs up on it
    | Error(pod: nat, c: Caller)                          // Redis cannot be reached
    | Refuse(pod: nat, c: Caller)                         // a context or budget error
    | MarkUp(pod: nat, c: Caller)
    | MarkDown(pod: nat, c: Caller)
    | Book(pod: nat, c: Caller)                           // takes a local place and books
    | OnRedis(script: Cluster.Step)                       // releases, crashes, penalties, key drops
    | OnPod(pod: nat, step: Local.Step)                   // withdrawals, completions, penalties

  /** The settings of one scope: the pods' local limiter and the shared one count
      the same quota over the same window. */
  datatype Scope = Scope(local: Slots.Pacing, cap: nat, shared: Scripts.Config, cooldown: int) {
    ghost predicate Valid() {
      && local.Valid() && shared.Valid()
      && 0 < local.limit && local.limit == shared.quota && local.period == shared.window
      && Local.QuotaSafe(local, cap)
    }
  }

  /** One caller at a time, as in the deployed fallback, keeps the quota in either mode. */
  lemma OneCallerKeepsQuota(p: Slots.Pacing, cap: nat)
    requires p.Valid() && 0 < p.limit && cap <= 1
    ensures Local.QuotaSafe(p, cap)
  {
    forall start, steps | Local.Legal(p, cap, start, steps)
      ensures QuotaHolds(Local.Exec(p, start, steps).sends, p.limit, p.period)
    {
      if p.spaceSends {
        Withdrawals.SpacedQuota(p, cap, start, steps);
      } else {
        Withdrawals.CompletionQuota(p, cap, start, steps);
      }
    }
  }

  ghost predicate At(f: Fleet, i: nat, c: Caller, pc: Pc) {
    i < |f.pods| && c in f.pods[i].callers && f.pods[i].callers[c] == pc
  }

  ghost predicate Enabled(f: Fleet, k: Scope, step: Step) {
    match step
    case Tick(_) => true
    case Arrive(i, c) => i < |f.pods| && c !in f.pods[i].callers
    case Script(i, c, n) => At(f, i, c, Probing) && n !in f.redis.used
    case Lost(i, c, n) => At(f, i, c, Probing) && n !in f.redis.used
    case Abandon(i, c, n) => At(f, i, c, Probing) && n !in f.redis.used
    case Error(i, c) => At(f, i, c, Probing)
    case Refuse(i, c) => At(f, i, c, Probing) || At(f, i, c, Queued)
    case MarkUp(i, c) => At(f, i, c, Succeeding)
    case MarkDown(i, c) => At(f, i, c, Failing)
    case Book(i, c) => At(f, i, c, Queued) && Local.Enabled(f.pods[i].local, k.cap, Local.Admit)
    case OnRedis(s) => !s.Tick? && !s.Request? && Cluster.Enabled(f.redis, s)
    case OnPod(i, s) => i < |f.pods| && !s.Tick? && !s.Admit? && Local.Enabled(f.pods[i].local, k.cap, s)
  }

  ghost function TickPod(k: Scope, pod: Pod, ms: nat): Pod {
    pod.(local := Local.Next(pod.local, k.local, Local.Tick(ms)))
  }

  /** One pod changed, with one of its callers moved on. */
  ghost function Moved(f: Fleet, i: nat, pod: Pod, c: Caller, pc: Pc): Fleet
    requires i < |f.pods|
  {
    f.(pods := f.pods[i := pod.(callers := pod.callers[c := pc])])
  }

  ghost function AfterScript(f: Fleet, k: Scope, n: Scripts.Nonce): Fleet {
    f.(redis := Cluster.Next(f.redis, k.shared, Cluster.Request(n)))
  }

  ghost function Next(f: Fleet, k: Scope, step: Step): Fleet
    requires Enabled(f, k, step)
  {
    match step
    case Tick(ms) =>
      Fleet(Cluster.Next(f.redis, k.shared, Cluster.Tick(ms)),
            seq(|f.pods|, i requires 0 <= i < |f.pods| => TickPod(k, f.pods[i], ms)))
    case Arrive(i, c) => Moved(f, i, f.pods[i], c, if Ready(f.pods[i].circuit, f.redis.now) then Probing else Queued)
    case Script(i, c, n) =>
      var g := AfterScript(f, k, n);
      if g.redis.admitted == f.redis.admitted then g else Moved(g, i, f.pods[i], c, Succeeding)
    case Lost(i, c, n) => Moved(AfterScript(f, k, n), i, f.pods[i], c, Failing)
    case Abandon(i, c, n) => Moved(AfterScript(f, k, n), i, f.pods[i], c, Gone)
    case Error(i, c) => Moved(f, i, f.pods[i], c, Failing)
    case Refuse(i, c) => Moved(f, i, f.pods[i], c, Gone)
    case MarkUp(i, c) =>
      Moved(f, i, f.pods[i].(circuit := MarkedUp(f.pods[i].circuit)), c, Gone)
    case MarkDown(i, c) =>
      Moved(f, i, f.pods[i].(circuit := MarkedDown(f.pods[i].circuit, f.redis.now, k.cooldown)), c, Queued)
    case Book(i, c) =>
      Moved(f, i, f.pods[i].(local := Local.Next(f.pods[i].local, k.local, Local.Admit)), c, Gone)
    case OnRedis(s) => f.(redis := Cluster.Next(f.redis, k.shared, s))
    case OnPod(i, s) =>
      f.(pods := f.pods[i := f.pods[i].(local := Local.Next(f.pods[i].local, k.local, s))])
  }

  ghost predicate Run(states: seq<Fleet>, k: Scope, steps: seq<Step>, pods: nat, start: int) {
    && |states| == |steps| + 1
    && states[0] == Fleet(Cluster.Start(start), seq(pods, _ => Pod(HEALTHY, Local.Start(start), map[])))
    && forall i :: 0 <= i < |steps| ==>
         Enabled(states[i], k, steps[i]) && states[i + 1] == Next(states[i], k, steps[i])
  }

  // ----- the circuit of one pod in the fleet -----

  ghost predicate MarksUp(step: Step, pod: nat) {
    step.MarkUp? && step.pod == pod
  }

  ghost predicate MarksDown(step: Step, pod: nat) {
    step.MarkDown? && step.pod == pod
  }

  /** Only a pod's own marks change its circuit, and the clock never goes back. */
  lemma CircuitStep(f: Fleet, k: Scope, step: Step, pod: nat)
    requires Enabled(f, k, step) && pod < |f.pods|
    ensures |Next(f, k, step).pods| == |f.pods| && f.redis.now <= Next(f, k, step).redis.now
    ensures Next(f, k, step).pods[pod].circuit ==
            if MarksUp(step, pod) then MarkedUp(f.pods[pod].circuit)
            else if MarksDown(step, pod) then MarkedDown(f.pods[pod].circuit, f.redis.now, k.cooldown)
            else f.pods[pod].circuit
  {
    hide Cluster.AfterRequest, Cluster.AfterFinish, Local.Next, MarkedUp, MarkedDown, Cluster.Next;
    RedisClock(f.redis, k.shared, step);
  }

  lemma RedisClock(s: Cluster.Cluster, c: Scripts.Config, step: Step)
    ensures forall ms: nat :: Cluster.Next(s, c, Cluster.Tick(ms)).now == s.now + ms
    ensures forall n :: Cluster.Next(s, c, Cluster.Request(n)).now == s.now
    ensures step.OnRedis? && !step.script.Tick? ==> Cluster.Next(s, c, step.script).now == s.now
  {
    hide Scripts.Acquire, Scripts.FreeLease, Scripts.Bump;
  }

  /** In every run of the fleet, each pod's reported transitions alternate. */
  lemma {:induction false} FleetTransitionsAlternate(states: seq<Fleet>, k: Scope, steps: seq<Step>,
                                                     pods: nat, start: int, i: nat, pod: nat)
    requires Run(states, k, steps, pods, start) && i <= |steps| && pod < pods
    ensures |states[i].pods| == pods
    ensures var circuit := states[i].pods[pod].circuit;
            Alternates(circuit.notices) && (circuit.downUntil.Some? <==> |circuit.notices| % 2 == 1)
  {
    hide Enabled, Next;
    if 0 < i {
      FleetTransitionsAlternate(states, k, steps, pods, start, i - 1, pod);
      CircuitStep(states[i - 1], k, steps[i - 1], pod);
    }
  }

  /** Between two of its marks a pod's circuit stays as the first left it. */
  lemma {:induction false} CircuitUnmarked(states: seq<Fleet>, k: Scope, steps: seq<Step>, pods: nat, start: int,
                                           pod: nat, i: nat, j: nat)
    requires Run(states, k, steps, pods, start) && pod < pods && i <= j <= |steps|
    requires forall m :: i <= m < j ==> !MarksUp(steps[m], pod) && !MarksDown(steps[m], pod)
    ensures |states[i].pods| == |states[j].pods| == pods
    ensures states[j].pods[pod].circuit == states[i].pods[pod].circuit && states[i].redis.now <= states[j].redis.now
    decreases j
  {
    hide Enabled, Next, MarksUp, MarksDown;
    FleetTransitionsAlternate(states, k, steps, pods, start, i, pod);
    if i < j {
      CircuitUnmarked(states, k, steps, pods, start, pod, i, j - 1);
      CircuitStep(states[j - 1], k, steps[j - 1], pod);
    }
  }

  /** After a pod's last failure a new caller of the pod probes exactly from a whole
      cooldown on, or once a caller that was already probing has succeeded. */
  lemma OpenCircuitSkipsPrimary(states: seq<Fleet>, k: Scope, steps: seq<Step>, pods: nat, start: int,
                                pod: nat, i: nat, j: nat)
    requires Run(states, k, steps, pods, start) && pod < pods && 0 < k.cooldown && i < j <= |steps|
    requires MarksDown(steps[i], pod) && forall m :: i < m < j ==> !MarksDown(steps[m], pod)
    ensures |states[j].pods| == pods
    ensures Ready(states[j].pods[pod].circuit, states[j].redis.now) <==>
            states[i].redis.now + k.cooldown <= states[j].redis.now || exists m :: i < m < j && MarksUp(steps[m], pod)
  {
    hide Enabled, Next;
    FleetTransitionsAlternate(states, k, steps, pods, start, i, pod);
    CircuitStep(states[i], k, steps[i], pod);
    if m :| i < m < j && MarksUp(steps[m], pod) {
      var last := LastMarkUp(steps, pod, m, j);
      FleetTransitionsAlternate(states, k, steps, pods, start, last, pod);
      CircuitStep(states[last], k, steps[last], pod);
      CircuitUnmarked(states, k, steps, pods, start, pod, last + 1, j);
    } else {
      CircuitUnmarked(states, k, steps, pods, start, pod, i + 1, j);
    }
  }

  lemma {:induction false} LastMarkUp(steps: seq<Step>, pod: nat, m: nat, j: nat) returns (last: nat)
    requires m < j <= |steps| && MarksUp(steps[m], pod)
    ensures m <= last < j && MarksUp(steps[last], pod)
    ensures forall x :: last < x < j ==> !MarksUp(steps[x], pod)
    decreases j
  {
    hide MarksUp;
    if MarksUp(steps[j - 1], pod) {
      last := j - 1;
    } else {
      last := LastMarkUp(steps, pod, m, j - 1);
    }
  }

  // ----- the cost of failing open -----

  /** Each backend of the fleet has run one of its own runs. */
  ghost predicate Projects(f: Fleet, k: Scope, pods: nat) {
    && |f.pods| == pods
    && Cluster.Reachable(k.shared, f.redis)
    && forall i :: 0 <= i < pods ==> Local.Reachable(k.local, k.cap, f.pods[i].local)
  }

  lemma ProjectsStep(f: Fleet, k: Scope, step: Step, pods: nat)
    requires Projects(f, k, pods) && Enabled(f, k, step)
    ensures Projects(Next(f, k, step), k, pods)
  {
    hide Cluster.Reachable, Local.Reachable;
    match step
    case Tick(ms) =>
      Cluster.ReachesNext(k.shared, f.redis, Cluster.Tick(ms));
      forall i | 0 <= i < pods
        ensures Local.Reachable(k.local, k.cap, Next(f, k, step).pods[i].local)
      {
        Local.ReachesNext(k.local, k.cap, f.pods[i].local, Local.Tick(ms));
      }
    case Script(_, _, n) => Cluster.ReachesNext(k.shared, f.redis, Cluster.Request(n));
    case Lost(_, _, n) => Cluster.ReachesNext(k.shared, f.redis, Cluster.Request(n));
    case Abandon(_, _, n) => Cluster.ReachesNext(k.shared, f.redis, Cluster.Request(n));
    case Book(i, _) => Local.ReachesNext(k.local, k.cap, f.pods[i].local, Local.Admit);
    case OnRedis(s) => Cluster.ReachesNext(k.shared, f.redis, s);
    case OnPod(i, s) => Local.ReachesNext(k.local, k.cap, f.pods[i].local, s);
    case _ =>
  }

  lemma {:induction false} ProjectsHolds(states: seq<Fleet>, k: Scope, steps: seq<Step>, pods: nat, start: int, i: nat)
    requires Run(states, k, steps, pods, start) && i <= |steps|
    ensures Projects(states[i], k, pods)
  {
    if i == 0 {
      Cluster.ReachesStart(k.shared, start);
      Local.ReachesStart(k.local, k.cap, start);
    } else {
      hide Projects;
      ProjectsHolds(states, k, steps, pods, start, i - 1);
      ProjectsStep(states[i - 1], k, steps[i - 1], pods);
    }
  }

  ghost function LocalAdmissions(pods: seq<Pod>, from: int, width: int): nat {
    if pods == [] then 0 else CountIn(pods[0].local.sends, from, width) + LocalAdmissions(pods[1..], from, width)
  }

  lemma {:induction false} LocalSum(pods: seq<Pod>, from: int, width: int, quota: nat)
    requires forall i :: 0 <= i < |pods| ==> CountIn(pods[i].local.sends, from, width) <= quota
    ensures LocalAdmissions(pods, from, width) <= |pods| * quota
  {
    if pods != [] {
      LocalSum(pods[1..], from, width, quota);
      assert |pods| * quota == (|pods| - 1) * quota + quota;
    }
  }

  lemma LocalQuota(k: Scope, r: Local.Run)
    requires k.Valid() && Local.Reachable(k.local, k.cap, r)
    ensures QuotaHolds(r.sends, k.local.limit, k.local.period)
  {
    var start, steps :| Local.Legal(k.local, k.cap, start, steps) && Local.Exec(k.local, start, steps) == r;
  }

  lemma RedisQuota(k: Scope, s: Cluster.Cluster)
    requires k.Valid() && Cluster.Reachable(k.shared, s)
    ensures QuotaHolds(s.admitted, k.local.limit, k.local.period)
  {
    var start, steps :| Cluster.Legal(Cluster.Start(start), k.shared, steps)
              && Cluster.Exec(Cluster.Start(start), k.shared, steps) == s;
    Paced.ClusterQuotaAndSpacing(k.shared, start, steps);
  }

  /** The cost of failing open is bounded: with P pods, and Redis failing and
      recovering in any way, any interval of one window holds at most (P + 1)
      times the quota, counted by booked instant. */
  lemma FailOpenBound(states: seq<Fleet>, k: Scope, steps: seq<Step>, pods: nat, start: int, from: int)
    requires k.Valid() && Run(states, k, steps, pods, start)
    ensures var f := states[|steps|];
            CountIn(f.redis.admitted, from, k.local.period) + LocalAdmissions(f.pods, from, k.local.period)
            <= (pods + 1) * k.local.limit
  {
    hide Cluster.Reachable, Local.Reachable, Local.QuotaSafe, CountIn, LocalAdmissions, Enabled, Next;
    ProjectsHolds(states, k, steps, pods, start, |steps|);
    var f := states[|steps|];
    RedisQuota(k, f.redis);
    assert CountIn(f.redis.admitted, from, k.local.period) <= k.local.limit;
    forall i | 0 <= i < pods
      ensures CountIn(f.pods[i].local.sends, from, k.local.period) <= k.local.limit
    {
      LocalQuota(k, f.pods[i].local);
    }
    LocalSum(f.pods, from, k.local.period, k.local.limit);
    assert (pods + 1) * k.local.limit == pods * k.local.limit + k.local.limit;
  }
}
