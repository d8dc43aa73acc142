/** The response cache's shared fetch: identical requests for one key, of which the
    first to find no flight leads and the others follow it. Every step is one
    atomic action of one caller: a section under the cache's mutex, the end of the
    upstream crawl, the closing of a flight, or a follower waking up. */
module SingleFlight {
  import opened Instants

  type Caller = nat
  type Flight = nat

  datatype Error = Upstream(message: string) | ContextEnded | LeaderAborted

  /** What the upstream crawl hands the leader. */
  datatype Answer = Page(content: string) | Failure(error: Error)

  datatype Mark = Hit | Miss

  /** What a caller is given. */
  datatype Served = Document(content: string, mark: Mark) | Refused(error: Error) | Crashed

  /** How a flight's crawl really ended; the code keeps only err and leaderGone. */
  datatype Ending = Pending | Answered(answer: Answer, leaderLive: bool) | Panicked

  datatype Call = Call(leader: Caller, done: bool, answer: Answer, leaderGone: bool, ending: Ending)

  datatype Pc =
    | Away
    | Entering
    | Leading(flight: Flight)             // in the upstream crawl
    | Unwinding(flight: Flight, served: Served)
    | Closing(flight: Flight, served: Served)  // entry deleted, done not yet closed
    | Following(flight: Flight)
    | Finished(flight: Flight, served: Served, live: bool)

  /** Callers are numbered; waited lists the flights a caller followed and then
      tried again after. */
  datatype State = State(pcs: seq<Pc>, live: seq<bool>, waited: seq<seq<Flight>>,
                         calls: seq<Call>, entry: Option<Flight>)

  datatype Step =
    | Arrive(c: Caller)
    | HangUp(c: Caller)
    | Enter(c: Caller)
    | Crawled(c: Caller, answer: Answer)
    | Panic(c: Caller)
    | Delete(c: Caller)
    | Close(c: Caller)
    | Wake(c: Caller)
    | Leave(c: Caller)

  ghost function Start(n: nat): State {
    State(seq(n, _ => Away), seq(n, _ => true), seq(n, _ => []), [], None)
  }

  ghost predicate Shaped(s: State, n: nat) {
    |s.pcs| == n && |s.live| == n && |s.waited| == n
  }

  ghost predicate Enabled(s: State, step: Step) {
    step.c < |s.pcs| == |s.live| == |s.waited| &&
    var pc := s.pcs[step.c];
    match step
    case Arrive(_) => pc.Away?
    case HangUp(c) => s.live[c]
    case Enter(_) => pc.Entering?
    case Crawled(_, _) => pc.Leading? && pc.flight < |s.calls|
    case Panic(_) => pc.Leading? && pc.flight < |s.calls|
    case Delete(_) => pc.Unwinding?
    case Close(_) => pc.Closing? && pc.flight < |s.calls|
    case Wake(_) => pc.Following? && pc.flight < |s.calls| && s.calls[pc.flight].done
    case Leave(c) => pc.Following? && !s.live[c]
  }

  function ServedLeader(a: Answer): Served {
    match a
    case Page(content) => Document(content, Miss)
    case Failure(e) => Refused(e)
  }

  ghost function At(s: State, c: Caller, pc: Pc): State
    requires c < |s.pcs|
  {
    s.(pcs := s.pcs[c := pc])
  }

  /** The first caller leads; its call is pre-set as an abandoned one. */
  ghost function AfterEnter(s: State, c: Caller): State
    requires c < |s.pcs|
  {
    if s.entry.Some? then At(s, c, Following(s.entry.value))
    else
      At(s, c, Leading(|s.calls|)).(
        calls := s.calls + [Call(c, false, Failure(LeaderAborted), true, Pending)],
        entry := Some(|s.calls|))
  }

  ghost function AfterCrawl(s: State, c: Caller, answer: Answer): State
    requires Enabled(s, Crawled(c, answer))
  {
    var f := s.pcs[c].flight;
    var call := s.calls[f].(answer := answer, leaderGone := !s.live[c], ending := Answered(answer, s.live[c]));
    At(s, c, Unwinding(f, ServedLeader(answer))).(calls := s.calls[f := call])
  }

  ghost function AfterPanic(s: State, c: Caller): State
    requires Enabled(s, Panic(c))
  {
    var f := s.pcs[c].flight;
    At(s, c, Unwinding(f, Crashed)).(calls := s.calls[f := s.calls[f].(ending := Panicked)])
  }

  ghost function AfterClose(s: State, c: Caller): State
    requires Enabled(s, Close(c))
  {
    var f := s.pcs[c].flight;
    At(s, c, Finished(f, s.pcs[c].served, s.live[c])).(calls := s.calls[f := s.calls[f].(done := true)])
  }

  /** A follower shares what the leader got, unless the leader's own context had
      ended: then a live follower tries for itself. */
  ghost function AfterWake(s: State, c: Caller): State
    requires Enabled(s, Wake(c))
  {
    var f := s.pcs[c].flight;
    match s.calls[f].answer
    case Page(content) => At(s, c, Finished(f, Document(content, Hit), s.live[c]))
    case Failure(e) =>
      if s.calls[f].leaderGone && s.live[c] then
        At(s, c, Entering).(waited := s.waited[c := s.waited[c] + [f]])
      else At(s, c, Finished(f, Refused(e), s.live[c]))
  }

  ghost function Next(s: State, step: Step): State
    requires Enabled(s, step)
  {
    match step
    case Arrive(c) => At(s, c, Entering)
    case HangUp(c) => s.(live := s.live[c := false])
    case Enter(c) => AfterEnter(s, c)
    case Crawled(c, answer) => AfterCrawl(s, c, answer)
    case Panic(c) => AfterPanic(s, c)
    case Delete(c) => At(s, c, Closing(s.pcs[c].flight, s.pcs[c].served)).(entry := None)
    case Close(c) => AfterClose(s, c)
    case Wake(c) => AfterWake(s, c)
    case Leave(c) => At(s, c, Finished(s.pcs[c].flight, Refused(ContextEnded), false))
  }

  /** states[0] is the start for n callers and each step leads to the next state. */
  ghost predicate Run(n: nat, states: seq<State>, steps: seq<Step>) {
    && |states| == |steps| + 1
    && states[0] == Start(n)
    && forall i :: 0 <= i < |steps| ==> Enabled(states[i], steps[i]) && states[i + 1] == Next(states[i], steps[i])
  }

  // ----- the invariant, flight by flight and caller by caller -----

  /** A flight's leader is at work on it until it is done, and has finished with
      it afterwards. */
  ghost predicate FlightLed(s: State, f: Flight) {
    f < |s.calls| ==>
      && s.calls[f].leader < |s.pcs|
      && var pc := s.pcs[s.calls[f].leader];
         if s.calls[f].done then pc.Finished? && pc.flight == f
         else (pc.Leading? || pc.Unwinding? || pc.Closing?) && pc.flight == f
  }

  /** A caller at work on a flight is that flight's leader. */
  ghost predicate CallerLeads(s: State, c: Caller) {
    c < |s.pcs| && (s.pcs[c].Leading? || s.pcs[c].Unwinding? || s.pcs[c].Closing?) ==>
      && s.pcs[c].flight < |s.calls|
      && s.calls[s.pcs[c].flight].leader == c && !s.calls[s.pcs[c].flight].done
  }

  /** The entry is the flight whose leader has not deleted it yet. */
  ghost predicate EntryMatches(s: State) {
    s.entry.Some? ==>
      && s.entry.value < |s.calls| && s.calls[s.entry.value].leader < |s.pcs|
      && var pc := s.pcs[s.calls[s.entry.value].leader];
         (pc.Leading? || pc.Unwinding?) && pc.flight == s.entry.value
  }

  ghost predicate Entered(s: State, c: Caller) {
    c < |s.pcs| && (s.pcs[c].Leading? || s.pcs[c].Unwinding?) ==> s.entry == Some(s.pcs[c].flight)
  }

  /** The fields of a call tell how its crawl ended, and a done one did end. */
  ghost predicate Told(s: State, f: Flight) {
    f < |s.calls| ==>
      var call := s.calls[f];
      match call.ending
      case Answered(a, live) => call.answer == a && call.leaderGone == !live
      case _ => call.answer == Failure(LeaderAborted) && call.leaderGone
  }

  /** What a leader carries away is what its crawl came to. */
  ghost predicate LeaderServed(ending: Ending, served: Served) {
    match ending
    case Pending => false
    case Answered(a, _) => served == ServedLeader(a)
    case Panicked => served == Crashed
  }

  ghost predicate Carries(s: State, c: Caller) {
    c < |s.pcs| && (s.pcs[c].Leading? || s.pcs[c].Unwinding? || s.pcs[c].Closing?) ==>
      && s.pcs[c].flight < |s.calls|
      && var ending := s.calls[s.pcs[c].flight].ending;
         if s.pcs[c].Leading? then ending == Pending else LeaderServed(ending, s.pcs[c].served)
  }

  /** What a follower carries away is its leader's page, or its leader's failure
      when the leader had not hung up or the follower has. */
  ghost predicate FollowerServed(call: Call, served: Served, live: bool) {
    match served
    case Document(content, mark) => mark == Hit && call.ending.Answered? && call.ending.answer == Page(content)
    case Refused(e) => live ==> call.ending == Answered(Failure(e), true)
    case Crashed => false
  }

  /** Only a follower that hung up leaves before its flight is done. */
  ghost predicate Late(call: Call, pc: Pc)
    requires pc.Finished?
  {
    call.done || (!pc.live && pc.served == Refused(ContextEnded))
  }

  ghost predicate ServedRight(s: State, c: Caller) {
    c < |s.pcs| && s.pcs[c].Finished? ==>
      && s.pcs[c].flight < |s.calls|
      && var call := s.calls[s.pcs[c].flight];
         if call.leader == c then call.done && LeaderServed(call.ending, s.pcs[c].served)
         else FollowerServed(call, s.pcs[c].served, s.pcs[c].live) && Late(call, s.pcs[c])
  }

  ghost predicate Others(s: State, c: Caller, flights: seq<Flight>) {
    forall i :: 0 <= i < |flights| ==>
      flights[i] < |s.calls| && s.calls[flights[i]].done && s.calls[flights[i]].leader != c
  }

  ghost predicate AllDistinct(flights: seq<Flight>) {
    forall i, j :: 0 <= i < j < |flights| ==> flights[i] != flights[j]
  }

  /** A caller follows other callers' flights, each once, and tries again only
      after they are done. */
  ghost predicate Patient(s: State, c: Caller) {
    && c < |s.pcs| == |s.waited|
    && Others(s, c, s.waited[c]) && AllDistinct(s.waited[c])
    && (s.pcs[c].Following? ==>
          && s.pcs[c].flight < |s.calls| && s.calls[s.pcs[c].flight].leader != c
          && s.pcs[c].flight !in s.waited[c])
  }

  ghost predicate Inv(s: State, n: nat) {
    && |s.pcs| == |s.live| == |s.waited| == n
    && EntryMatches(s)
    && (forall f: Flight :: FlightLed(s, f) && Told(s, f))
    && (forall c: Caller :: CallerLeads(s, c) && Entered(s, c) && Carries(s, c) && ServedRight(s, c))
    && (forall c :: 0 <= c < n ==> Patient(s, c))
  }

  lemma KeepsFlightLed(s: State, step: Step, f: Flight)
    requires Enabled(s, step) && FlightLed(s, f) && CallerLeads(s, step.c)
    ensures FlightLed(Next(s, step), f)
  {
  }

  lemma KeepsCallerLeads(s: State, step: Step, c: Caller)
    requires Enabled(s, step) && c != step.c && CallerLeads(s, c) && CallerLeads(s, step.c)
    ensures CallerLeads(Next(s, step), c)
  {
  }

  lemma StepsCallerLeads(s: State, step: Step)
    requires Enabled(s, step) && CallerLeads(s, step.c)
    ensures CallerLeads(Next(s, step), step.c)
  {
  }

  lemma KeepsEntry(s: State, step: Step)
    requires Enabled(s, step) && EntryMatches(s) && Entered(s, step.c)
    ensures EntryMatches(Next(s, step))
  {
  }

  lemma KeepsEntered(s: State, step: Step, c: Caller)
    requires Enabled(s, step) && EntryMatches(s) && Entered(s, c) && Entered(s, step.c)
    requires CallerLeads(s, c) && CallerLeads(s, step.c)
    ensures Entered(Next(s, step), c)
  {
  }

  lemma KeepsTold(s: State, step: Step, f: Flight)
    requires Enabled(s, step) && Told(s, f) && CallerLeads(s, step.c) && Carries(s, step.c)
    ensures Told(Next(s, step), f)
  {
  }

  lemma KeepsCarries(s: State, step: Step, c: Caller)
    requires Enabled(s, step) && Carries(s, c) && Carries(s, step.c) && CallerLeads(s, c) && CallerLeads(s, step.c)
    ensures Carries(Next(s, step), c)
  {
  }

  /** Another caller's step leaves a finished caller's flight as it was, but for
      being done: a flight that changes otherwise is still being led. */
  lemma KeepsServedRight(s: State, step: Step, c: Caller)
    requires Enabled(s, step) && c != step.c && ServedRight(s, c)
    requires CallerLeads(s, step.c) && Carries(s, step.c)
    ensures ServedRight(Next(s, step), c)
  {
  }

  lemma FinishesServedRight(s: State, step: Step)
    requires Enabled(s, step) && ServedRight(s, step.c) && CallerLeads(s, step.c) && Carries(s, step.c)
    requires Patient(s, step.c)
    requires s.pcs[step.c].Following? ==> Told(s, s.pcs[step.c].flight)
    ensures ServedRight(Next(s, step), step.c)
  {
  }

  lemma KeepsOthers(s: State, step: Step, c: Caller, flights: seq<Flight>)
    requires Enabled(s, step) && Others(s, c, flights)
    ensures Others(Next(s, step), c, flights)
  {
  }

  lemma KeepsPatient(s: State, step: Step, c: Caller)
    requires Enabled(s, step) && Patient(s, c) && EntryMatches(s)
    requires s.entry.Some? ==> CallerLeads(s, s.calls[s.entry.value].leader)
    ensures Patient(Next(s, step), c)
  {
    hide Others;
    KeepsOthers(s, step, c, s.waited[c]);
    if step == Enter(c) && s.entry.Some? {
      NotYetWaited(s, c);
    } else if step == Wake(c) {
      OneMoreWaited(s, c, s.pcs[c].flight);
    }
  }

  lemma NotYetWaited(s: State, c: Caller)
    requires c < |s.waited| && Others(s, c, s.waited[c])
    requires s.entry.Some? && s.entry.value < |s.calls| && !s.calls[s.entry.value].done
    ensures s.entry.value !in s.waited[c]
  {
  }

  lemma OneMoreWaited(s: State, c: Caller, f: Flight)
    requires Enabled(s, Wake(c)) && Patient(s, c) && f == s.pcs[c].flight
    ensures Others(Next(s, Wake(c)), c, s.waited[c] + [f]) && AllDistinct(s.waited[c] + [f])
  {
  }

  lemma Keeps(s: State, step: Step, n: nat)
    requires Inv(s, n) && Enabled(s, step)
    ensures Inv(Next(s, step), n)
  {
    hide FlightLed, CallerLeads, Entered, Told, Carries, ServedRight, Patient, Next, Enabled;
    var t, c := Next(s, step), step.c;
    KeepsShape(s, step);
    KeepsEntry(s, step);
    forall f: Flight
      ensures FlightLed(t, f) && Told(t, f)
    {
      KeepsFlightLed(s, step, f);
      KeepsTold(s, step, f);
    }
    forall d: Caller
      ensures CallerLeads(t, d) && Entered(t, d) && Carries(t, d) && ServedRight(t, d)
    {
      KeepsEntered(s, step, d);
      KeepsCarries(s, step, d);
      if d == c {
        StepsCallerLeads(s, step);
        FinishesServedRight(s, step);
      } else {
        KeepsCallerLeads(s, step, d);
        KeepsServedRight(s, step, d);
      }
    }
    forall d | 0 <= d < n
      ensures Patient(t, d)
    {
      KeepsPatient(s, step, d);
    }
  }

  lemma KeepsShape(s: State, step: Step)
    requires Enabled(s, step)
    ensures step.c < |s.pcs| == |s.live| == |s.waited|
    ensures |Next(s, step).pcs| == |Next(s, step).live| == |Next(s, step).waited| == |s.pcs|
  {
  }

  lemma {:induction false} Holds(n: nat, states: seq<State>, steps: seq<Step>, i: nat)
    requires Run(n, states, steps) && i <= |steps|
    ensures Inv(states[i], n)
  {
    hide Inv, Next, Enabled;
    if i == 0 {
      StartsRight(n);
    } else {
      Holds(n, states, steps, i - 1);
      Keeps(states[i - 1], steps[i - 1], n);
    }
  }

  lemma StartsRight(n: nat)
    ensures Inv(Start(n), n)
  {
  }

  // ----- what every run guarantees -----

  ghost predicate Upstreaming(s: State, c: Caller) {
    c < |s.pcs| && (s.pcs[c].Leading? || s.pcs[c].Unwinding?)
  }

  /** At most one caller is upstream, and the flight's entry exists exactly from
      the moment its leader takes it until that leader is through. */
  lemma OneLeaderUpstream(n: nat, states: seq<State>, steps: seq<Step>, i: nat)
    requires Run(n, states, steps) && i <= |steps|
    ensures var s := states[i];
            && (forall c: Caller, d: Caller :: Upstreaming(s, c) && Upstreaming(s, d) ==> c == d)
            && (s.entry.Some? <==> exists c: Caller :: Upstreaming(s, c))
            && (forall c: Caller :: Upstreaming(s, c) ==> s.entry == Some(s.pcs[c].flight))
  {
    hide FlightLed, Told, Carries, ServedRight, Patient;
    Holds(n, states, steps, i);
    var s := states[i];
    forall c: Caller | Upstreaming(s, c)
      ensures s.entry == Some(s.pcs[c].flight) && s.calls[s.pcs[c].flight].leader == c
    {
      assert Entered(s, c) && CallerLeads(s, c);
    }
    if s.entry.Some? {
      assert Upstreaming(s, s.calls[s.entry.value].leader);
    }
  }

  /** A follower served a document was served its leader's, which the leader was
      served too; the leader alone paid for it. */
  lemma FollowersShareContent(n: nat, states: seq<State>, steps: seq<Step>, i: nat, c: Caller)
    requires Run(n, states, steps) && i <= |steps| && c < |states[i].pcs|
    requires states[i].pcs[c].Finished? && states[i].pcs[c].served.Document?
    ensures states[i].pcs[c].flight < |states[i].calls|
    ensures var s := states[i];
            var leader, served := s.calls[s.pcs[c].flight].leader, s.pcs[c].served;
            && (served.mark == Miss <==> c == leader)
            && leader < |s.pcs| && s.pcs[leader].Finished? && s.pcs[leader].flight == s.pcs[c].flight
            && s.pcs[leader].served == Document(served.content, Miss)
  {
    hide Told, Patient, Entered, Carries, CallerLeads;
    Holds(n, states, steps, i);
    var s := states[i];
    assert ServedRight(s, c) && FlightLed(s, s.pcs[c].flight);
    assert ServedRight(s, s.calls[s.pcs[c].flight].leader);
  }

  /** A follower whose own context is alive is never given the error of a leader
      that hung up or panicked: an error it is given was its leader's answer, got
      while the leader was still there. */
  lemma LiveFollowerInheritsNoHangUp(n: nat, states: seq<State>, steps: seq<Step>, i: nat, c: Caller)
    requires Run(n, states, steps) && i <= |steps| && c < |states[i].pcs|
    requires states[i].pcs[c].Finished? && states[i].pcs[c].live && states[i].pcs[c].served.Refused?
    ensures states[i].pcs[c].flight < |states[i].calls|
    ensures var s := states[i];
            var call := s.calls[s.pcs[c].flight];
            call.leader != c ==> call.ending == Answered(Failure(s.pcs[c].served.error), true)
  {
    hide Told, Patient, Entered, Carries, CallerLeads, FlightLed;
    Holds(n, states, steps, i);
    assert ServedRight(states[i], c);
  }

  ghost function LeadersOf(s: State, flights: seq<Flight>): set<Caller>
    requires forall i :: 0 <= i < |flights| ==> flights[i] < |s.calls|
  {
    set i | 0 <= i < |flights| :: s.calls[flights[i]].leader
  }

  /** Each flight has a leader of its own. */
  lemma {:induction false} LeadersCount(s: State, c: Caller, flights: seq<Flight>)
    requires forall f: Flight :: FlightLed(s, f)
    requires Others(s, c, flights) && AllDistinct(flights)
    ensures |LeadersOf(s, flights)| == |flights|
  {
    if flights != [] {
      var k := |flights| - 1;
      var before, last := flights[..k], s.calls[flights[k]].leader;
      LeadersCount(s, c, before);
      forall i | 0 <= i < k
        ensures s.calls[flights[i]].leader != last
      {
        assert FlightLed(s, flights[i]) && FlightLed(s, flights[k]);
      }
      assert LeadersOf(s, flights) == LeadersOf(s, before) + {last} by {
        assert forall i :: 0 <= i < k ==> before[i] == flights[i];
      }
    }
  }

  lemma {:induction false} BelowCount(n: nat, a: set<Caller>)
    requires forall d :: d in a ==> d < n
    ensures |a| <= n
  {
    if 0 < n {
      BelowCount(n - 1, a - {n - 1});
    } else {
      assert a == {};
    }
  }

  /** A caller tries again at most once per other caller: the flights it waited
      for were led by callers all different, and none of them itself. */
  lemma RetriesOncePerOther(n: nat, states: seq<State>, steps: seq<Step>, i: nat, c: Caller)
    requires Run(n, states, steps) && i <= |steps| && c < n
    ensures c < |states[i].waited| && |states[i].waited[c]| <= n - 1
    ensures forall k :: 0 <= k < |states[i].waited[c]| ==> states[i].waited[c][k] < |states[i].calls|
    ensures |LeadersOf(states[i], states[i].waited[c])| == |states[i].waited[c]|
    ensures c !in LeadersOf(states[i], states[i].waited[c])
  {
    hide Told, Entered, Carries, CallerLeads, ServedRight;
    Holds(n, states, steps, i);
    var s := states[i];
    assert Patient(s, c);
    LeadersCount(s, c, s.waited[c]);
    forall d | d in LeadersOf(s, s.waited[c])
      ensures d < n && d != c
    {
      var k :| 0 <= k < |s.waited[c]| && s.calls[s.waited[c][k]].leader == d;
      assert FlightLed(s, s.waited[c][k]);
    }
    BelowCount(n, LeadersOf(s, s.waited[c]) + {c});
  }

  // ----- progress -----

  /** Some caller can go on, without anyone arriving, hanging up or panicking. */
  ghost predicate CanGoOn(s: State) {
    exists step: Step :: !step.Arrive? && !step.HangUp? && !step.Panic? && Enabled(s, step)
  }

  lemma LeaderCanGoOn(s: State, c: Caller)
    requires c < |s.pcs| == |s.live| == |s.waited| && CallerLeads(s, c)
    requires s.pcs[c].Leading? || s.pcs[c].Unwinding? || s.pcs[c].Closing?
    ensures CanGoOn(s)
  {
    var step := if s.pcs[c].Leading? then Crawled(c, Page("")) else if s.pcs[c].Unwinding? then Delete(c) else Close(c);
    assert Enabled(s, step);
  }

  /** Nobody is ever stuck: as long as a caller that arrived has not been served,
      some step is possible. */
  lemma NeverStuck(n: nat, states: seq<State>, steps: seq<Step>, i: nat, c: Caller)
    requires Run(n, states, steps) && i <= |steps| && c < |states[i].pcs|
    requires !states[i].pcs[c].Away? && !states[i].pcs[c].Finished?
    ensures CanGoOn(states[i])
  {
    hide Told, Entered, Carries, ServedRight, EntryMatches;
    Holds(n, states, steps, i);
    var s := states[i];
    assert CallerLeads(s, c) && Patient(s, c);
    if s.pcs[c].Entering? {
      assert Enabled(s, Enter(c));
    } else if s.pcs[c].Following? {
      var f := s.pcs[c].flight;
      if s.calls[f].done {
        assert Enabled(s, Wake(c));
      } else {
        assert FlightLed(s, f) && CallerLeads(s, s.calls[f].leader);
        LeaderCanGoOn(s, s.calls[f].leader);
      }
    } else {
      LeaderCanGoOn(s, c);
    }
  }

  /** How far a caller has come. */
  ghost function Rank(pc: Pc): nat {
    match pc
    case Away => 0
    case Entering => 1
    case Following(_) => 2
    case Leading(_) => 2
    case Unwinding(_, _) => 3
    case Closing(_, _) => 4
    case Finished(_, _, _) => 5
  }

  ghost function Effort(s: State, c: Caller): nat
    requires c < |s.pcs| == |s.live| == |s.waited|
  {
    Rank(s.pcs[c]) + 2 * |s.waited[c]| + if s.live[c] then 0 else 1
  }

  ghost function TotalEffort(s: State, k: nat): nat
    requires k <= |s.pcs| == |s.live| == |s.waited|
  {
    if k == 0 then 0 else TotalEffort(s, k - 1) + Effort(s, k - 1)
  }

  lemma StepCosts(s: State, step: Step, c: Caller)
    requires Enabled(s, step) && c < |s.pcs|
    requires |Next(s, step).pcs| == |Next(s, step).live| == |Next(s, step).waited| == |s.pcs|
    ensures Effort(s, c) + (if c == step.c then 1 else 0) <= Effort(Next(s, step), c)
  {
  }

  lemma {:induction false} StepCostsInTotal(s: State, step: Step, k: nat)
    requires Enabled(s, step) && k <= |s.pcs|
    requires |Next(s, step).pcs| == |Next(s, step).live| == |Next(s, step).waited| == |s.pcs|
    ensures TotalEffort(s, k) + (if step.c < k then 1 else 0) <= TotalEffort(Next(s, step), k)
  {
    hide Next, Effort, Enabled;
    if 0 < k {
      StepCosts(s, step, k - 1);
      StepCostsInTotal(s, step, k - 1);
    }
  }

  lemma {:induction false} StepsCostEffort(n: nat, states: seq<State>, steps: seq<Step>, i: nat)
    requires Run(n, states, steps) && i <= |steps|
    ensures |states[i].pcs| == |states[i].live| == |states[i].waited| == n
    ensures i <= TotalEffort(states[i], n)
  {
    hide Next, Enabled;
    if 0 < i {
      StepsCostEffort(n, states, steps, i - 1);
      KeepsShape(states[i - 1], steps[i - 1]);
      StepCostsInTotal(states[i - 1], steps[i - 1], n);
    }
  }

  lemma {:induction false} EffortBounded(s: State, k: nat, most: nat)
    requires k <= |s.pcs| == |s.live| == |s.waited|
    requires forall c :: 0 <= c < k ==> |s.waited[c]| <= most
    ensures TotalEffort(s, k) <= k * (6 + 2 * most)
  {
    if 0 < k {
      EffortBounded(s, k - 1, most);
      assert k * (6 + 2 * most) == (k - 1) * (6 + 2 * most) + (6 + 2 * most);
    }
  }

  /** Every run of n callers is over within n * (2 * n + 4) steps, however often
      leaders hang up or panic. */
  lemma EveryRunEnds(n: nat, states: seq<State>, steps: seq<Step>)
    requires Run(n, states, steps)
    ensures |steps| <= n * (2 * n + 4)
  {
    hide Next, Enabled;
    StepsCostEffort(n, states, steps, |steps|);
    if 0 < n {
      forall c | 0 <= c < n
        ensures |states[|steps|].waited[c]| <= n - 1
      {
        RetriesOncePerOther(n, states, steps, |steps|, c);
      }
      EffortBounded(states[|steps|], n, n - 1);
      assert 6 + 2 * (n - 1) == 2 * n + 4;
    }
  }
}
