/** One way to read Reddit on several replicas that share its holds. Placing a hold
    and recording a success are several atomic sections each: the pod's own memory,
    the state it reports, and the shared store. Crawls and holds interleave between
    them in any way. */
module MethodFleet {
  import opened Instants
  import Chain = MethodChain

  type Crawl = nat
  type HoldId = nat

  datatype Replica = Replica(until: Chain.Until, down: bool)

  /** How far a crawl has come with the method. */
  datatype Pc =
    | Looking
    | FoundHeld       // the method is on hold, not yet reported
    | Calling
    | Cleared         // its pod's skip is ended, not yet reported
    | Recovered       // reported up, the shared hold not yet cleared

  datatype CrawlOn = CrawlOn(pod: nat, start: int, pc: Pc)

  /** A hold some call asked for: until when, counted on the pod it was placed on. */
  datatype Placed = Placed(pod: nat, until: int, d: int, shared: bool)

  datatype Fleet = Fleet(now: int, shared: Chain.Until, pods: seq<Replica>,
                         crawls: map<Crawl, CrawlOn>, holds: map<HoldId, Placed>)

  datatype Step =
    | Tick(ms: nat)
    | Begin(c: Crawl, pod: nat)
    | Select(c: Crawl)
    | Find(c: Crawl)                         // the look meets a hold
    | ReportHeld(c: Crawl)
    | Load(h: HoldId, pod: nat)              // a starting pod takes over the shared hold
    | Hold(h: HoldId, pod: nat, d: int)
    | ReportDown(h: HoldId)
    | Share(h: HoldId)
    | Clear(c: Crawl)
    | ReportUp(c: Crawl)
    | ClearShared(c: Crawl)

  ghost function Start(pods: nat): Fleet {
    Fleet(0, None, seq(pods, _ => Replica(None, false)), map[], map[])
  }

  ghost predicate At(f: Fleet, c: Crawl, pc: Pc) {
    c in f.crawls && f.crawls[c].pc == pc && f.crawls[c].pod < |f.pods|
  }

  ghost predicate Enabled(f: Fleet, step: Step) {
    match step
    case Tick(_) => true
    case Begin(c, i) => c !in f.crawls && i < |f.pods|
    case Select(c) =>
      && At(f, c, Looking)
      && !Chain.OnHold(f.pods[f.crawls[c].pod].until, f.crawls[c].start) && !Chain.OnHold(f.shared, f.now)
    case Find(c) =>
      && At(f, c, Looking)
      && (Chain.OnHold(f.pods[f.crawls[c].pod].until, f.crawls[c].start) || Chain.OnHold(f.shared, f.now))
    case ReportHeld(c) => At(f, c, FoundHeld)
    case Load(h, i) => h !in f.holds && i < |f.pods| && Chain.OnHold(f.shared, f.now)
    case Hold(h, i, _) => h !in f.holds && i < |f.pods|
    case ReportDown(h) => h in f.holds && f.holds[h].pod < |f.pods|
    case Share(h) => h in f.holds && !f.holds[h].shared
    case Clear(c) => At(f, c, Calling)
    case ReportUp(c) => At(f, c, Cleared)
    case ClearShared(c) => At(f, c, Recovered)
  }

  ghost function WithPod(f: Fleet, i: nat, pod: Replica): Fleet
    requires i < |f.pods|
  {
    f.(pods := f.pods[i := pod])
  }

  ghost function Moved(f: Fleet, c: Crawl, pc: Pc): Fleet
    requires c in f.crawls
  {
    f.(crawls := f.crawls[c := f.crawls[c].(pc := pc)])
  }

  ghost function Over(f: Fleet, c: Crawl): Fleet {
    f.(crawls := f.crawls - {c})
  }

  ghost function Next(f: Fleet, step: Step): Fleet
    requires Enabled(f, step)
  {
    match step
    case Tick(ms) => f.(now := f.now + ms)
    case Begin(c, i) => f.(crawls := f.crawls[c := CrawlOn(i, f.now, Looking)])
    case Select(c) => Moved(f, c, Calling)
    case Find(c) => Moved(f, c, FoundHeld)
    case ReportHeld(c) =>
      var i := f.crawls[c].pod;
      Over(WithPod(f, i, f.pods[i].(down := true)), c)
    case Load(h, i) =>
      var d := f.shared.value - f.now;
      WithPod(f, i, f.pods[i].(until := Chain.Extended(f.pods[i].until, f.now, d))).(
        holds := f.holds[h := Placed(i, f.now + d, d, true)])
    case Hold(h, i, d) =>
      WithPod(f, i, f.pods[i].(until := Chain.Extended(f.pods[i].until, f.now, d))).(
        holds := f.holds[h := Placed(i, f.now + d, d, false)])
    case ReportDown(h) => WithPod(f, f.holds[h].pod, f.pods[f.holds[h].pod].(down := true))
    case Share(h) =>
      f.(shared := Chain.Extended(f.shared, f.now, f.holds[h].d), holds := f.holds[h := f.holds[h].(shared := true)])
    case Clear(c) =>
      var i := f.crawls[c].pod;
      if Chain.OnHold(f.pods[i].until, f.crawls[c].start) then Over(f, c)
      else Moved(WithPod(f, i, f.pods[i].(until := None)), c, Cleared)
    case ReportUp(c) =>
      var i := f.crawls[c].pod;
      if f.pods[i].down then Moved(WithPod(f, i, f.pods[i].(down := false)), c, Recovered) else Over(f, c)
    case ClearShared(c) => Over(f, c).(shared := None)
  }

  ghost predicate Run(states: seq<Fleet>, steps: seq<Step>, pods: nat) {
    && |states| == |steps| + 1
    && states[0] == Start(pods)
    && forall i :: 0 <= i < |steps| ==> Enabled(states[i], steps[i]) && states[i + 1] == Next(states[i], steps[i])
  }

  ghost predicate Reachable(pods: nat, f: Fleet) {
    exists states, steps :: Run(states, steps, pods) && states[|steps|] == f
  }

  lemma ReachesStart(pods: nat)
    ensures Reachable(pods, Start(pods))
  {
    assert Run([Start(pods)], [], pods);
  }

  lemma ReachesNext(pods: nat, f: Fleet, step: Step)
    requires Reachable(pods, f) && Enabled(f, step)
    ensures Reachable(pods, Next(f, step))
  {
    hide Enabled, Next;
    var states, steps :| Run(states, steps, pods) && states[|steps|] == f;
    var more, after := states + [Next(f, step)], steps + [step];
    forall i | 0 <= i < |after|
      ensures Enabled(more[i], after[i]) && more[i + 1] == Next(more[i], after[i])
    {
      if i < |steps| {
        assert Enabled(states[i], steps[i]);
      }
    }
    assert Run(more, after, pods);
  }

  // ----- the pod a hold was placed on -----

  ghost predicate HoldKept(f: Fleet, h: HoldId) {
    h in f.holds && f.now < f.holds[h].until ==>
      && f.holds[h].pod < |f.pods|
      && f.pods[f.holds[h].pod].until.Some? && f.holds[h].until <= f.pods[f.holds[h].pod].until.value
  }

  ghost predicate KeptInv(f: Fleet, pods: nat) {
    && |f.pods| == pods
    && (forall c :: c in f.crawls ==> f.crawls[c].start <= f.now)
    && (forall h: HoldId :: HoldKept(f, h))
  }

  lemma KeepsHold(f: Fleet, step: Step, h: HoldId)
    requires Enabled(f, step) && HoldKept(f, h)
    requires step.Clear? ==> f.crawls[step.c].start <= f.now
    ensures HoldKept(Next(f, step), h)
  {
  }

  lemma KeepsInv(f: Fleet, step: Step, pods: nat)
    requires Enabled(f, step) && KeptInv(f, pods)
    ensures KeptInv(Next(f, step), pods)
  {
    hide HoldKept;
    forall h: HoldId
      ensures HoldKept(Next(f, step), h)
    {
      KeepsHold(f, step, h);
    }
  }

  lemma {:induction false} InvHolds(states: seq<Fleet>, steps: seq<Step>, pods: nat, i: nat)
    requires Run(states, steps, pods) && i <= |steps|
    ensures KeptInv(states[i], pods)
  {
    hide Enabled, Next, KeptInv;
    if i == 0 {
      StartsKept(pods);
    } else {
      InvHolds(states, steps, pods, i - 1);
      KeepsInv(states[i - 1], steps[i - 1], pods);
    }
  }

  lemma StartsKept(pods: nat)
    ensures KeptInv(Start(pods), pods)
  {
  }

  /** However many replicas there are and whatever they do in between, the pod a
      hold was placed on skips the method until that hold is over. */
  lemma OwnHoldIsKept(pods: nat, f: Fleet, h: HoldId)
    requires Reachable(pods, f) && h in f.holds && f.now < f.holds[h].until
    ensures f.holds[h].pod < |f.pods| && Chain.OnHold(f.pods[f.holds[h].pod].until, f.now)
  {
    hide Enabled, Next;
    var states, steps :| Run(states, steps, pods) && states[|steps|] == f;
    InvHolds(states, steps, pods, |steps|);
    assert HoldKept(f, h);
  }

  // ----- the other replicas -----

  /** No pod would call the method while a hold recorded in the shared store runs. */
  ghost predicate Respected(f: Fleet) {
    forall h, i :: h in f.holds && f.holds[h].shared && f.now < f.holds[h].until && 0 <= i < |f.pods| ==>
      Chain.OnHold(f.pods[i].until, f.now) || Chain.OnHold(f.shared, f.now)
  }

  ghost predicate AlwaysRespected(pods: nat) {
    forall f :: Reachable(pods, f) ==> Respected(f)
  }

  /** A pod on which the method was down and has come free again. */
  ghost function FreeAgain(pods: nat): Fleet
    requires 0 < pods
  {
    Fleet(1, None, Start(pods).pods[0 := Replica(Some(1), true)], map[], map[0 := Placed(0, 1, 1, false)])
  }

  lemma ReachesFreeAgain(pods: nat)
    requires 0 < pods
    ensures Reachable(pods, FreeAgain(pods))
  {
    hide Reachable;
    ReachesStart(pods);
    var f0 := Start(pods);
    ReachesNext(pods, f0, Hold(0, 0, 1));
    var f1 := Next(f0, Hold(0, 0, 1));
    ReachesNext(pods, f1, ReportDown(0));
    var f2 := Next(f1, ReportDown(0));
    ReachesNext(pods, f2, Tick(1));
    assert Next(f2, Tick(1)) == FreeAgain(pods);
  }

  /** A crawl on that pod is under way. */
  ghost function Called(pods: nat): Fleet
    requires 0 < pods
  {
    FreeAgain(pods).(crawls := map[0 := CrawlOn(0, 1, Calling)])
  }

  lemma ReachesCalled(pods: nat)
    requires 0 < pods
    ensures Reachable(pods, Called(pods))
  {
    hide Reachable;
    ReachesFreeAgain(pods);
    ReachesNext(pods, FreeAgain(pods), Begin(0, 0));
    var f := Next(FreeAgain(pods), Begin(0, 0));
    ReachesNext(pods, f, Select(0));
    assert Next(f, Select(0)) == Called(pods);
  }

  /** Another pod is refused meanwhile and shares its hold; then the crawl succeeds,
      and clears it for everyone. */
  lemma ReachesForgotten(pods: nat) returns (f: Fleet)
    requires 2 <= pods
    ensures Reachable(pods, f) && !Respected(f)
  {
    hide Reachable;
    ReachesCalled(pods);
    var f0 := Called(pods);
    ReachesNext(pods, f0, Hold(1, 1, 5));
    var f1 := Next(f0, Hold(1, 1, 5));
    ReachesNext(pods, f1, Share(1));
    var f2 := Next(f1, Share(1));
    ReachesNext(pods, f2, Clear(0));
    var f3 := Next(f2, Clear(0));
    ReachesNext(pods, f3, ReportUp(0));
    var f4 := Next(f3, ReportUp(0));
    ReachesNext(pods, f4, ClearShared(0));
    f := Next(f4, ClearShared(0));
    assert f.now == 1 && f.holds[1] == Placed(1, 6, 5, true) && f.pods[0].until == None && f.shared == None;
  }

  /** A shared hold is respected by every replica in every run exactly when there is
      one replica. */
  lemma SharedHoldsRespectedExactly(pods: nat)
    ensures AlwaysRespected(pods) <==> pods <= 1
  {
    hide Reachable;
    if pods <= 1 {
      forall f | Reachable(pods, f)
        ensures Respected(f)
      {
        OneReplica(pods, f);
      }
    } else {
      var f := ReachesForgotten(pods);
    }
  }

  lemma OneReplica(pods: nat, f: Fleet)
    requires pods <= 1 && Reachable(pods, f)
    ensures Respected(f)
  {
    hide Reachable;
    PodCount(pods, f);
    forall h, i | h in f.holds && f.holds[h].shared && f.now < f.holds[h].until && 0 <= i < |f.pods|
      ensures Chain.OnHold(f.pods[i].until, f.now)
    {
      OwnHoldIsKept(pods, f, h);
    }
  }

  lemma PodCount(pods: nat, f: Fleet)
    requires Reachable(pods, f)
    ensures |f.pods| == pods
  {
    hide Enabled, Next;
    var states, steps :| Run(states, steps, pods) && states[|steps|] == f;
    InvHolds(states, steps, pods, |steps|);
  }

  // ----- the reported state -----

  /** Ending a skip and reporting it are two sections: a hold placed between them is
      in force while the method is reported up, even on one replica. */
  lemma HeldMayBeReportedUp(pods: nat) returns (f: Fleet)
    requires 0 < pods
    ensures Reachable(pods, f) && |f.pods| == pods
    ensures Chain.OnHold(f.pods[0].until, f.now) && !f.pods[0].down
  {
    hide Reachable;
    ReachesCalled(pods);
    var f0 := Called(pods);
    ReachesNext(pods, f0, Clear(0));
    var f1 := Next(f0, Clear(0));
    ReachesNext(pods, f1, Hold(1, 0, 5));
    var f2 := Next(f1, Hold(1, 0, 5));
    ReachesNext(pods, f2, ReportDown(1));
    var f3 := Next(f2, ReportDown(1));
    ReachesNext(pods, f3, ReportUp(0));
    f := Next(f3, ReportUp(0));
  }
}
