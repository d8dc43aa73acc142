/** The ways to read Reddit, followed step by step on one pod and on several: what a
    crawl that is left alone does to a method's holds, and what a hold does to the
    crawls after it. */
module MethodPaths {
  import opened Instants
  import Chain = MethodChain
  import opened MethodFleet

  // ----- one pod -----

  /** A method is out of scope only for a direct crawl, and only the browser is. */
  lemma ScopeExactly(leg: Chain.Leg, directOnly: bool)
    ensures Chain.InScope(leg, directOnly) <==> !directOnly || leg.name != "browser"
  {
  }

  /** A success ends every hold that was over when its crawl started looking, and
      keeps the others whole. */
  lemma SuccessEndsExactly(until: Chain.Until, start: int)
    ensures Chain.ClearedSince(until, start) == None <==> until.None? || until.value <= start
    ensures Chain.ClearedSince(until, start).Some? ==> Chain.ClearedSince(until, start) == until
  {
  }

  /** A hold is the later of the one there was and the one asked for. */
  lemma HoldIsTheLater(until: Chain.Until, now: int, d: int)
    ensures Chain.Extended(until, now, d) == Some(if until.Some? then Max(until.value, now + d) else now + d)
  {
  }

  /** A crawl left alone on a pod looks, takes a free method and, when the call
      succeeds, leaves it without a hold; a hold asked for meanwhile outlives it. */
  lemma CrawlOnPod(p: Chain.Pod, c: Chain.Crawl, ms: nat, d: int)
    requires c !in p.started && !Chain.OnHold(p.until, p.now) && 0 < d
    ensures Chain.Enabled(p, Chain.Begin(c))
    ensures var p1 := Chain.Next(p, Chain.Begin(c));
            && p1 == p.(started := p.started[c := p.now])
            && Chain.Enabled(p1, Chain.Select(c, None)) && Chain.Enabled(p1, Chain.Tick(ms))
            && var p2 := Chain.Next(p1, Chain.Select(c, None));
               && p2 == p1.(chosen := p.chosen + {c})
               && Chain.Enabled(p2, Chain.Succeed(c)) && Chain.Enabled(p2, Chain.Tick(ms))
               && Chain.Next(p2, Chain.Succeed(c))
                  == Chain.Pod(None, p.now, p1.started - {c}, p.chosen - {c})
               && var p3 := Chain.Next(p2, Chain.Tick(ms));
                  && p3 == p2.(now := p.now + ms) && Chain.Enabled(p3, Chain.HoldOn(d))
                  && var p4 := Chain.Next(p3, Chain.HoldOn(d));
                     && p4 == p3.(until := Some(if p.until.Some? then Max(p.until.value, p3.now + d) else p3.now + d))
                     && Chain.Enabled(p4, Chain.Succeed(c))
                     && Chain.Next(p4, Chain.Succeed(c))
                        == Chain.Pod(p4.until, p4.now, p1.started - {c}, p.chosen - {c})
  {
  }

  /** A method on hold is not to be selected, by that pod's memory or by what other
      replicas recorded; one that is free by both is. */
  lemma SelectsExactly(p: Chain.Pod, c: Chain.Crawl, left: Option<int>)
    requires c in p.started
    ensures Chain.Enabled(p, Chain.Select(c, left)) <==>
            (p.until.None? || p.until.value <= p.started[c]) && (left.None? || left.value <= 0)
  {
  }

  /** A crawl begins once and succeeds only through a method it took. */
  lemma CrawlsExactly(p: Chain.Pod, c: Chain.Crawl, ms: nat, d: int)
    ensures Chain.Enabled(p, Chain.Begin(c)) <==> c !in p.started
    ensures Chain.Enabled(p, Chain.Succeed(c)) <==> c in p.started && c in p.chosen
    ensures Chain.Enabled(p, Chain.Tick(ms)) && Chain.Enabled(p, Chain.HoldOn(d))
  {
  }

  /** Candidates are called until one answers, or fails in a way another method could
      not get around, or its caller's context ends: never past such a call, and never
      short of it unless the candidates run out. */
  lemma StopsExactly(results: seq<Chain.Result>, n: nat)
    requires Chain.StoppedAt(results, n)
    ensures 0 < n <= |results|
    ensures forall i :: 0 <= i < n - 1 ==> MayTryNext(results[i])
    ensures n < |results| ==> !MayTryNext(results[n - 1])
  {
  }

  ghost predicate MayTryNext(r: Chain.Result) {
    r.Failed? && !r.ended && Chain.CanFailOver(r.error)
  }

  // ----- several pods -----

  /** A hold and its two reports reach the pod, its reported state and every replica;
      the later of two holds stands in both places. */
  lemma HoldReachesAll(f: Fleet, h: HoldId, i: nat, d: nat)
    requires h !in f.holds && i < |f.pods| && 0 < d
    ensures Enabled(f, Hold(h, i, d))
    ensures var f1 := Next(f, Hold(h, i, d));
            && |f1.pods| == |f.pods| && Chain.OnHold(f1.pods[i].until, f.now) && f.now + d <= f1.pods[i].until.value
            && f1.pods[i].down == f.pods[i].down && f1.shared == f.shared && f1.crawls == f.crawls
            && (forall j :: 0 <= j < |f.pods| && j != i ==> f1.pods[j] == f.pods[j])
            && f1.holds == f.holds[h := Placed(i, f.now + d, d, false)]
            && Enabled(f1, ReportDown(h)) && Enabled(f1, Share(h))
            && var f2 := Next(f1, ReportDown(h));
               && f2 == f1.(pods := f1.pods[i := f1.pods[i].(down := true)])
               && Enabled(f2, Share(h))
               && var f3 := Next(f2, Share(h));
                  && Chain.OnHold(f3.shared, f.now) && f.now + d <= f3.shared.value
                  && f3.shared.value == (if f.shared.Some? then Max(f.shared.value, f.now + d) else f.now + d)
                  && f3.pods == f2.pods && f3.crawls == f.crawls
                  && f3.holds == f.holds[h := Placed(i, f.now + d, d, true)] && !Enabled(f3, Share(h))
  {
  }

  /** A crawl that begins calls the method if it is free, by its pod and by the shared
      store, and otherwise reports it down, having changed nothing else. */
  lemma LooksExactly(f: Fleet, c: Crawl, i: nat)
    requires c !in f.crawls && i < |f.pods|
    ensures Enabled(f, Begin(c, i)) && !Enabled(f, Begin(c, |f.pods|))
    ensures var f1 := Next(f, Begin(c, i));
            && f1 == f.(crawls := f.crawls[c := CrawlOn(i, f.now, Looking)]) && !Enabled(f1, Begin(c, i))
            && var held := Chain.OnHold(f.pods[i].until, f.now) || Chain.OnHold(f.shared, f.now);
               && (Enabled(f1, Select(c)) <==> !held) && (Enabled(f1, Find(c)) <==> held)
               && (!held ==> Next(f1, Select(c)) == f.(crawls := f.crawls[c := CrawlOn(i, f.now, Calling)]))
               && (held ==>
                     && Enabled(Next(f1, Find(c)), ReportHeld(c))
                     && Next(Next(f1, Find(c)), ReportHeld(c))
                        == f.(pods := f.pods[i := f.pods[i].(down := true)], crawls := f.crawls - {c}))
  {
    var f1 := Next(f, Begin(c, i));
    if Enabled(f1, Find(c)) {
      var f2 := Next(f1, Find(c));
      assert f2.crawls - {c} == f.crawls - {c};
    } else {
      assert f1.crawls[c := CrawlOn(i, f.now, Calling)] == f.crawls[c := CrawlOn(i, f.now, Calling)];
    }
  }

  /** A crawl that succeeds ends its pod's skip; only when the method was reported
      down does it report it up and end the shared hold. A hold that was placed since
      its start ends the crawl with nothing changed. */
  lemma SucceedsExactly(f: Fleet, c: Crawl)
    requires At(f, c, Calling)
    ensures Enabled(f, Clear(c))
    ensures var i, start := f.crawls[c].pod, f.crawls[c].start;
            var over := f.(crawls := f.crawls - {c});
            if Chain.OnHold(f.pods[i].until, start) then Next(f, Clear(c)) == over
            else
              && Enabled(Next(f, Clear(c)), ReportUp(c))
              && var cleared := over.(pods := f.pods[i := Replica(None, false)]);
                 && (!f.pods[i].down ==> Next(Next(f, Clear(c)), ReportUp(c)) == cleared)
                 && (f.pods[i].down ==>
                       && Enabled(Next(Next(f, Clear(c)), ReportUp(c)), ClearShared(c))
                       && Next(Next(Next(f, Clear(c)), ReportUp(c)), ClearShared(c)) == cleared.(shared := None))
  {
    var i := f.crawls[c].pod;
    if !Chain.OnHold(f.pods[i].until, f.crawls[c].start) {
      var f1 := Next(f, Clear(c));
      assert f1.crawls - {c} == f.crawls - {c};
      assert f1.pods[i := Replica(None, false)] == f.pods[i := Replica(None, false)];
      if f.pods[i].down {
        var f2 := Next(f1, ReportUp(c));
        assert f2.crawls - {c} == f.crawls - {c};
        assert f2.pods == f.pods[i := Replica(None, false)];
      }
    }
  }

  /** Each section follows the one before it, and the clock waits for nobody. */
  lemma SectionsExactly(f: Fleet, c: Crawl, h: HoldId, ms: nat)
    ensures Enabled(f, Tick(ms)) && Next(f, Tick(ms)) == f.(now := f.now + ms)
    ensures Enabled(f, ReportUp(c)) <==> At(f, c, Cleared)
    ensures Enabled(f, ClearShared(c)) <==> At(f, c, Recovered)
    ensures Enabled(f, ReportHeld(c)) <==> At(f, c, FoundHeld)
    ensures Enabled(f, Share(h)) <==> h in f.holds && !f.holds[h].shared
    ensures Enabled(f, ReportDown(h)) <==> h in f.holds && f.holds[h].pod < |f.pods|
  {
  }

  /** A pod that starts during a shared hold takes it over, to its end and no further,
      and reports the method down. */
  lemma LoadsExactly(f: Fleet, h: HoldId, i: nat)
    requires h !in f.holds && i < |f.pods|
    ensures Enabled(f, Load(h, i)) <==> Chain.OnHold(f.shared, f.now)
    ensures Chain.OnHold(f.shared, f.now) ==>
            var f1 := Next(f, Load(h, i));
            && |f1.pods| == |f.pods| && f1.shared == f.shared && f1.crawls == f.crawls
            && f1.pods[i].until
               == Some(if f.pods[i].until.Some? then Max(f.pods[i].until.value, f.shared.value) else f.shared.value)
            && f1.holds == f.holds[h := Placed(i, f.shared.value, f.shared.value - f.now, true)]
            && (forall j :: 0 <= j < |f.pods| && j != i ==> f1.pods[j] == f.pods[j])
            && Enabled(f1, ReportDown(h)) && Next(f1, ReportDown(h)).pods[i].down
  {
  }
}
