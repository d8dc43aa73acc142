/** What a follower does when its flight is over: it shares what its leader got, and
    tries for itself only after a leader that panicked or hung up. */
module FlightShares {
  import opened Instants
  import opened SingleFlight

  /** The flight came to nothing its followers could share: the leader panicked, or
      failed with its own context ended. */
  ghost predicate Lost(ending: Ending) {
    ending.Panicked? || (ending.Answered? && ending.answer.Failure? && !ending.leaderLive)
  }

  /** What a follower is to be given when the flight is over, if anything. */
  ghost predicate Shares(ending: Ending, served: Served) {
    ending.Answered? &&
    match ending.answer
    case Page(content) => served == Document(content, Hit)
    case Failure(e) => served == Refused(e)
  }

  ghost predicate AllLost(s: State, flights: seq<Flight>) {
    forall k :: 0 <= k < |flights| ==>
      flights[k] < |s.calls| && s.calls[flights[k]].done && Lost(s.calls[flights[k]].ending)
  }

  lemma LostStep(s: State, step: Step, n: nat, c: Caller)
    requires Inv(s, n) && Enabled(s, step) && c < n && AllLost(s, s.waited[c])
    ensures c < |Next(s, step).waited| && AllLost(Next(s, step), Next(s, step).waited[c])
  {
    hide FlightLed, Entered, Carries, ServedRight, Others;
    assert CallerLeads(s, step.c);
    KeepsShape(s, step);
    if step == Wake(c) {
      var f := s.pcs[c].flight;
      assert Told(s, f);
      DoneHasEnded(s, n, f);
    }
  }

  /** A flight that is done has ended one way or another. */
  lemma DoneHasEnded(s: State, n: nat, f: Flight)
    requires Inv(s, n) && f < |s.calls| && s.calls[f].done
    ensures !s.calls[f].ending.Pending?
  {
    hide EntryMatches, CallerLeads, Told, Entered, Carries, Patient;
    assert FlightLed(s, f);
    assert ServedRight(s, s.calls[f].leader);
  }

  /** On every run a caller has tried again only after flights that were lost. */
  lemma {:induction false} RetriesOnlyAfterLost(n: nat, states: seq<State>, steps: seq<Step>, i: nat, c: Caller)
    requires Run(n, states, steps) && i <= |steps| && c < n
    ensures c < |states[i].waited| && AllLost(states[i], states[i].waited[c])
  {
    hide Inv, Enabled, Next;
    if 0 < i {
      RetriesOnlyAfterLost(n, states, steps, i - 1, c);
      Holds(n, states, steps, i - 1);
      LostStep(states[i - 1], steps[i - 1], n, c);
    }
  }

  /** A follower whose flight is over is one step from what its leader got: the page
      as a hit, or the leader's failure; after a lost flight a live one enters
      again, and one that hung up is refused. */
  lemma FollowerWakesTo(n: nat, states: seq<State>, steps: seq<Step>, i: nat, c: Caller)
    requires Run(n, states, steps) && i <= |steps| && c < |states[i].pcs| && states[i].pcs[c].Following?
    requires states[i].pcs[c].flight < |states[i].calls| && states[i].calls[states[i].pcs[c].flight].done
    ensures Enabled(states[i], Wake(c)) && c < |states[i].live| && c < |states[i].waited|
    ensures var s, t := states[i], Next(states[i], Wake(c));
            var f := s.pcs[c].flight;
            && |t.pcs| == |s.pcs| == |t.waited|
            && (if Lost(s.calls[f].ending) && s.live[c] then t.pcs[c] == Entering && t.waited[c] == s.waited[c] + [f]
                else t.pcs[c].Finished? && t.pcs[c].flight == f && t.pcs[c].live == s.live[c]
                     && t.waited[c] == s.waited[c]
                     && if s.calls[f].ending.Panicked? then t.pcs[c].served.Refused?
                        else Shares(s.calls[f].ending, t.pcs[c].served))
  {
    hide FlightLed, CallerLeads, Entered, Carries, ServedRight, Patient, EntryMatches;
    Holds(n, states, steps, i);
    var s := states[i];
    assert Told(s, s.pcs[c].flight);
    DoneHasEnded(s, n, s.pcs[c].flight);
  }

  /** A leader that is through was given what its own crawl came to, a page as a miss. */
  lemma LeaderKeepsItsAnswer(n: nat, states: seq<State>, steps: seq<Step>, i: nat, f: Flight)
    requires Run(n, states, steps) && i <= |steps| && f < |states[i].calls| && states[i].calls[f].done
    ensures var s := states[i];
            var leader, ending := s.calls[f].leader, s.calls[f].ending;
            && leader < |s.pcs| && s.pcs[leader].Finished? && s.pcs[leader].flight == f
            && match ending
               case Pending => false
               case Panicked => s.pcs[leader].served == Crashed
               case Answered(Page(content), _) => s.pcs[leader].served == Document(content, Miss)
               case Answered(Failure(e), _) => s.pcs[leader].served == Refused(e)
  {
    hide EntryMatches, CallerLeads, Told, Entered, Carries, Patient;
    Holds(n, states, steps, i);
    assert FlightLed(states[i], f);
    assert ServedRight(states[i], states[i].calls[f].leader);
  }

  /** While its flight is not over, a follower that has not hung up waits: no step of
      anyone changes where it is. */
  lemma FollowerWaits(s: State, step: Step, c: Caller)
    requires Enabled(s, step) && c < |s.pcs| && s.pcs[c].Following? && s.live[c]
    requires s.pcs[c].flight < |s.calls| && !s.calls[s.pcs[c].flight].done
    ensures |Next(s, step).pcs| == |s.pcs| && Next(s, step).pcs[c] == s.pcs[c]
  {
  }

  /** A caller that finds a flight under way follows it; one that does not leads. */
  lemma EntersExactly(n: nat, states: seq<State>, steps: seq<Step>, i: nat, c: Caller)
    requires Run(n, states, steps) && i <= |steps| && c < |states[i].pcs| && states[i].pcs[c].Entering?
    ensures Enabled(states[i], Enter(c)) && c < |Next(states[i], Enter(c)).pcs|
    ensures var s, pc := states[i], Next(states[i], Enter(c)).pcs[c];
            if exists d: Caller :: Upstreaming(s, d) then
              pc.Following? && exists d: Caller :: Upstreaming(s, d) && pc.flight == s.pcs[d].flight
            else pc.Leading? && pc.flight == |s.calls|
  {
    hide FlightLed, Told, Carries, ServedRight, Patient;
    Holds(n, states, steps, i);
    OneLeaderUpstream(n, states, steps, i);
  }

  /** A caller that finds nothing under way, and is left alone, fetches, is given what
      its crawl came to, and leaves no entry behind. */
  lemma LeadersWay(s: State, c: Caller, answer: Answer)
    requires c < |s.pcs| == |s.live| == |s.waited| && s.pcs[c].Away? && s.entry == None
    ensures Enabled(s, Arrive(c))
    ensures var f := |s.calls|;
            var s1 := Next(s, Arrive(c));
            && s1 == s.(pcs := s.pcs[c := Entering]) && Enabled(s1, Enter(c))
            && var s2 := Next(s1, Enter(c));
               && s2.pcs == s.pcs[c := Leading(f)] && s2.entry == Some(f) && |s2.calls| == f + 1
               && !s2.calls[f].done && s2.calls[f].leader == c && s2.live == s.live && s2.waited == s.waited
               && Enabled(s2, Crawled(c, answer)) && Enabled(s2, Panic(c))
               && var s3 := Next(s2, Crawled(c, answer));
                  && s3.pcs == s.pcs[c := Unwinding(f, ServedLeader(answer))] && s3.entry == Some(f)
                  && s3.calls[..f] == s.calls && s3.calls[f].ending == Answered(answer, s.live[c])
                  && s3.calls[f].answer == answer && s3.calls[f].leaderGone == !s.live[c] && !s3.calls[f].done
                  && Enabled(s3, Delete(c))
                  && var s4 := Next(s3, Delete(c));
                     && s4 == s3.(pcs := s.pcs[c := Closing(f, ServedLeader(answer))], entry := None)
                     && Enabled(s4, Close(c))
                     && var s5 := Next(s4, Close(c));
                        && s5.pcs == s.pcs[c := Finished(f, ServedLeader(answer), s.live[c])]
                        && s5.calls == s.calls + [s3.calls[f].(done := true)] && s5.entry == None
  {
    var s1 := Next(s, Arrive(c));
    var s2 := Next(s1, Enter(c));
    var s3 := Next(s2, Crawled(c, answer));
    assert s2.pcs == s.pcs[c := Leading(|s.calls|)];
    assert s3.pcs == s.pcs[c := Unwinding(|s.calls|, ServedLeader(answer))];
    var s5 := Next(Next(s3, Delete(c)), Close(c));
    assert s5.calls == s.calls + [s3.calls[|s.calls|].(done := true)];
  }

  /** Anyone may hang up once; a follower that has may leave its flight at any time,
      refused with its own context's end. */
  lemma HangsUpAndLeaves(s: State, c: Caller)
    requires c < |s.pcs| == |s.live| == |s.waited|
    ensures Enabled(s, HangUp(c)) <==> s.live[c]
    ensures s.live[c] ==> Next(s, HangUp(c)) == s.(live := s.live[c := false])
    ensures Enabled(s, Leave(c)) <==> s.pcs[c].Following? && !s.live[c]
    ensures Enabled(s, Leave(c)) ==>
            Next(s, Leave(c)) == s.(pcs := s.pcs[c := Finished(s.pcs[c].flight, Refused(ContextEnded), false)])
  {
  }
}
