/** The limiter's slot table, followed step by step: how a caller comes to hold a
    slot and gives it back, and how an idle slot goes. */
module SlotPaths {
  import opened SlotTable

  /** What a caller left alone does until it holds a slot of its host. */
  ghost function Acquiring(t: Table, c: Caller, host: Host, id: SlotId): seq<Step> {
    if host in t.limits then [Call(c, host), Load(c), Reference(c)]
    else [Call(c, host), Load(c), LoadOrStore(c, id), Reference(c)]
  }

  ghost predicate CanFollow(t: Table, steps: seq<Step>)
    decreases |steps|
  {
    steps == [] || (Enabled(t, steps[0]) && CanFollow(Next(t, steps[0]), steps[1..]))
  }

  ghost function Follow(t: Table, steps: seq<Step>): Table
    requires CanFollow(t, steps)
    decreases |steps|
  {
    if steps == [] then t else Follow(Next(t, steps[0]), steps[1..])
  }

  lemma FollowOne(t: Table, step: Step, rest: seq<Step>)
    requires Enabled(t, step) && CanFollow(Next(t, step), rest)
    ensures CanFollow(t, [step] + rest) && Follow(t, [step] + rest) == Follow(Next(t, step), rest)
  {
    assert ([step] + rest)[1..] == rest;
  }

  /** A caller left alone takes the slot its host is mapped to, with one reference
      more and nothing else changed. */
  lemma TakesMappedSlot(t: Table, c: Caller, host: Host)
    requires Mapped(t) && c !in t.callers && host in t.limits && !t.slots[t.limits[host]].sweeping
    ensures var id, steps := t.limits[host], Acquiring(t, c, host, 0);
            && CanFollow(t, steps)
            && Follow(t, steps) == Table(t.limits, t.slots[id := t.slots[id].(refs := t.slots[id].refs + 1)],
                                         t.callers[c := Holding(host, id)])
  {
    var id := t.limits[host];
    var t1 := t.(callers := t.callers[c := Looking(host)]);
    var t2 := t.(callers := t.callers[c := Loaded(host, id)]);
    assert t1.callers[c := Loaded(host, id)] == t2.callers;
    var t3 := Table(t.limits, t.slots[id := t.slots[id].(refs := t.slots[id].refs + 1)],
                    t.callers[c := Holding(host, id)]);
    assert t2.callers[c := Holding(host, id)] == t3.callers;
    FollowOne(t2, Reference(c), []);
    FollowOne(t1, Load(c), [Reference(c)]);
    FollowOne(t, Call(c, host), [Load(c), Reference(c)]);
    assert [Call(c, host)] + [Load(c), Reference(c)] == Acquiring(t, c, host, 0);
    assert [Load(c)] + [Reference(c)] == [Load(c), Reference(c)] && [Reference(c)] + [] == [Reference(c)];
  }

  /** A caller whose host has no slot stores a fresh one and takes it. */
  lemma StoresFreshSlot(t: Table, c: Caller, host: Host, id: SlotId)
    requires c !in t.callers && host !in t.limits && id !in t.slots
    ensures var steps := Acquiring(t, c, host, id);
            && CanFollow(t, steps)
            && Follow(t, steps) == Table(t.limits[host := id], t.slots[id := Meta(host, 1, false, false)],
                                         t.callers[c := Holding(host, id)])
  {
    var t1 := t.(callers := t.callers[c := Looking(host)]);
    var t2 := t.(callers := t.callers[c := Missed(host)]);
    var t3 := Table(t.limits[host := id], t.slots[id := Meta(host, 0, false, false)], t.callers[c := Loaded(host, id)]);
    var t4 := Table(t.limits[host := id], t.slots[id := Meta(host, 1, false, false)],
                    t.callers[c := Holding(host, id)]);
    assert t1.callers[c := Missed(host)] == t2.callers && t2.callers[c := Loaded(host, id)] == t3.callers;
    assert t3.callers[c := Holding(host, id)] == t4.callers;
    assert t3.slots[id := Meta(host, 1, false, false)] == t4.slots;
    FollowOne(t3, Reference(c), []);
    FollowOne(t2, LoadOrStore(c, id), [Reference(c)]);
    FollowOne(t1, Load(c), [LoadOrStore(c, id), Reference(c)]);
    FollowOne(t, Call(c, host), [Load(c), LoadOrStore(c, id), Reference(c)]);
    assert [Call(c, host)] + [Load(c), LoadOrStore(c, id), Reference(c)] == Acquiring(t, c, host, id);
    assert [Load(c)] + [LoadOrStore(c, id), Reference(c)] == [Load(c), LoadOrStore(c, id), Reference(c)];
    assert [LoadOrStore(c, id)] + [Reference(c)] == [LoadOrStore(c, id), Reference(c)];
    assert [Reference(c)] + [] == [Reference(c)];
  }

  /** A caller that was beaten to the store takes what it finds there, and one that
      finds its slot dead looks again. */
  lemma LooksAgain(t: Table, c: Caller, id: SlotId)
    requires c in t.callers
    ensures t.callers[c].Missed? && id !in t.slots && t.callers[c].host in t.limits ==>
            var host := t.callers[c].host;
            Next(t, LoadOrStore(c, id)) == t.(callers := t.callers[c := Loaded(host, t.limits[host])])
    ensures t.callers[c].Loaded? && Unlocked(t, t.callers[c].id) && t.slots[t.callers[c].id].dead ==>
            Next(t, Reference(c)) == t.(callers := t.callers[c := Looking(t.callers[c].host)])
  {
  }

  /** A caller that is done leaves its slot with one reference less. */
  lemma GivesBack(t: Table, c: Caller)
    requires c in t.callers && t.callers[c].Holding? && Unlocked(t, t.callers[c].id)
    ensures var id, u := t.callers[c].id, Next(t, Done(c));
            && u.limits == t.limits && u.slots.Keys == t.slots.Keys && u.callers == t.callers - {c}
            && u.slots[id] == t.slots[id].(refs := t.slots[id].refs - 1)
            && forall k :: k in t.slots && k != id ==> u.slots[k] == t.slots[k]
  {
  }

  /** The sweep of an idle slot leaves its host without one, and the next caller of
      that host stores a fresh one. */
  lemma SweepsIdleSlot(t: Table, id: SlotId, c: Caller, next: SlotId)
    requires Mapped(t) && Unlocked(t, id) && t.slots[id].refs == 0 && !t.slots[id].dead
    requires c !in t.callers && next !in t.slots
    ensures CanFollow(t, [MarkDead(id), Unmap(id)])
    ensures var host, u := t.slots[id].host, Follow(t, [MarkDead(id), Unmap(id)]);
            && u == Table(t.limits - {host}, t.slots[id := t.slots[id].(dead := true)], t.callers)
            && CanFollow(u, Acquiring(u, c, host, next))
            && Follow(u, Acquiring(u, c, host, next)).callers[c := Looking(host)] == t.callers[c := Looking(host)]
            && Follow(u, Acquiring(u, c, host, next)).limits == t.limits[host := next]
  {
    hide Mapped, Enabled, SlotTable.Next, Follow, CanFollow, Acquiring;
    var host := t.slots[id].host;
    DropsSlot(t, id);
    var u := Table(t.limits - {host}, t.slots[id := t.slots[id].(dead := true)], t.callers);
    StoresFreshSlot(u, c, host, next);
    assert (t.limits - {host})[host := next] == t.limits[host := next];
  }

  lemma DropsSlot(t: Table, id: SlotId)
    requires Mapped(t) && Unlocked(t, id) && t.slots[id].refs == 0 && !t.slots[id].dead
    ensures CanFollow(t, [MarkDead(id), Unmap(id)])
    ensures Follow(t, [MarkDead(id), Unmap(id)])
         == Table(t.limits - {t.slots[id].host}, t.slots[id := t.slots[id].(dead := true)], t.callers)
  {
    var host := t.slots[id].host;
    var t1 := t.(slots := t.slots[id := t.slots[id].(dead := true, sweeping := true)]);
    assert t1.slots[id := t1.slots[id].(sweeping := false)] == t.slots[id := t.slots[id].(dead := true)];
    FollowOne(t1, Unmap(id), []);
    FollowOne(t, MarkDead(id), [Unmap(id)]);
    assert [MarkDead(id)] + [Unmap(id)] == [MarkDead(id), Unmap(id)] && [Unmap(id)] + [] == [Unmap(id)];
  }
}
