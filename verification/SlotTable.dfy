/** The limiter's table of per-host slots. Callers look a slot up without a lock,
    then take a reference under the slot's own lock; the sweep marks a slot dead
    under that lock before it unmaps it. Every step below is one atomic action of
    one caller or of the sweep. */
module SlotTable {

  type Host = string
  type SlotId = nat
  type Caller = nat

  /** One slot; sweeping while the sweep holds its lock. */
  datatype Meta = Meta(host: Host, refs: int, dead: bool, sweeping: bool)

  datatype Pc =
    | Looking(host: Host)
    | Missed(host: Host)
    | Loaded(host: Host, id: SlotId)
    | Holding(host: Host, id: SlotId)

  datatype Table = Table(limits: map<Host, SlotId>, slots: map<SlotId, Meta>, callers: map<Caller, Pc>)

  datatype Step =
    | Call(c: Caller, host: Host)   // a caller arrives
    | Load(c: Caller)               // looks the host up
    | LoadOrStore(c: Caller, id: SlotId)
    | Reference(c: Caller)          // takes a reference, or looks again when the slot is dead
    | Done(c: Caller)               // drops the reference
    | MarkDead(id: SlotId)          // the sweep found the slot idle
    | Unmap(id: SlotId)             // the sweep deletes that mapping and unlocks

  ghost predicate Unlocked(t: Table, id: SlotId) {
    id in t.slots && !t.slots[id].sweeping
  }

  ghost predicate Enabled(t: Table, step: Step) {
    match step
    case Call(c, _) => c !in t.callers
    case Load(c) => c in t.callers && t.callers[c].Looking?
    case LoadOrStore(c, id) => c in t.callers && t.callers[c].Missed? && id !in t.slots
    case Reference(c) => c in t.callers && t.callers[c].Loaded? && Unlocked(t, t.callers[c].id)
    case Done(c) => c in t.callers && t.callers[c].Holding? && Unlocked(t, t.callers[c].id)
    case MarkDead(id) => Unlocked(t, id) && t.slots[id].refs == 0
    case Unmap(id) => id in t.slots && t.slots[id].sweeping
  }

  ghost function Next(t: Table, step: Step): Table
    requires Enabled(t, step)
  {
    match step
    case Call(c, host) => t.(callers := t.callers[c := Looking(host)])
    case Load(c) =>
      var host := t.callers[c].host;
      t.(callers := t.callers[c := if host in t.limits then Loaded(host, t.limits[host]) else Missed(host)])
    case LoadOrStore(c, id) =>
      var host := t.callers[c].host;
      if host in t.limits then t.(callers := t.callers[c := Loaded(host, t.limits[host])])
      else Table(t.limits[host := id], t.slots[id := Meta(host, 0, false, false)], t.callers[c := Loaded(host, id)])
    case Reference(c) =>
      var host, id := t.callers[c].host, t.callers[c].id;
      var m := t.slots[id];
      if m.dead then t.(callers := t.callers[c := Looking(host)])
      else t.(slots := t.slots[id := m.(refs := m.refs + 1)], callers := t.callers[c := Holding(host, id)])
    case Done(c) =>
      var id := t.callers[c].id;
      var m := t.slots[id];
      t.(slots := t.slots[id := m.(refs := m.refs - 1)], callers := t.callers - {c})
    case MarkDead(id) => t.(slots := t.slots[id := t.slots[id].(dead := true, sweeping := true)])
    case Unmap(id) =>
      var m := t.slots[id];
      var limits := if m.host in t.limits && t.limits[m.host] == id then t.limits - {m.host} else t.limits;
      t.(limits := limits, slots := t.slots[id := m.(sweeping := false)])
  }

  ghost predicate Run(states: seq<Table>, steps: seq<Step>) {
    && |states| == |steps| + 1
    && states[0] == Table(map[], map[], map[])
    && forall i :: 0 <= i < |steps| ==> Enabled(states[i], steps[i]) && states[i + 1] == Next(states[i], steps[i])
  }

  ghost function Holders(t: Table, id: SlotId): set<Caller> {
    set c | c in t.callers && t.callers[c].Holding? && t.callers[c].id == id
  }

  /** A live slot is the one its host is mapped to; a mapping to a dead slot is on
      its way out, under the sweep's lock. */
  ghost predicate Mapped(t: Table) {
    && (forall id :: id in t.slots && !t.slots[id].dead ==>
          t.slots[id].host in t.limits && t.limits[t.slots[id].host] == id)
    && (forall h :: h in t.limits ==>
          && t.limits[h] in t.slots && t.slots[t.limits[h]].host == h
          && (t.slots[t.limits[h]].dead ==> t.slots[t.limits[h]].sweeping))
    && (forall id :: id in t.slots && t.slots[id].sweeping ==> t.slots[id].dead)
  }

  /** The slot a caller has in hand is one of its host. */
  ghost predicate Placed(t: Table) {
    forall c :: c in t.callers && (t.callers[c].Loaded? || t.callers[c].Holding?) ==>
      t.callers[c].id in t.slots && t.slots[t.callers[c].id].host == t.callers[c].host
  }

  /** The reference count is the number of holders, and a dead slot has none. */
  ghost predicate CountedAt(t: Table, id: SlotId)
    requires id in t.slots
  {
    t.slots[id].refs == |Holders(t, id)| && (t.slots[id].dead ==> Holders(t, id) == {})
  }

  ghost predicate Counted(t: Table) {
    forall id :: id in t.slots ==> CountedAt(t, id)
  }

  ghost predicate Inv(t: Table) {
    Mapped(t) && Placed(t) && Counted(t)
  }

  lemma KeepsMapped(t: Table, step: Step)
    requires Mapped(t) && Enabled(t, step)
    ensures Mapped(Next(t, step))
  {
    if step.Unmap? {
      UnmapKeepsMapped(t, step.id);
    } else {
      CallersKeepMapped(t, step);
    }
  }

  lemma UnmapKeepsMapped(t: Table, id: SlotId)
    requires Mapped(t) && Enabled(t, Unmap(id))
    ensures Mapped(Next(t, Unmap(id)))
  {
  }

  lemma CallersKeepMapped(t: Table, step: Step)
    requires Mapped(t) && Enabled(t, step) && !step.Unmap?
    ensures Mapped(Next(t, step))
  {
  }

  lemma KeepsPlaced(t: Table, step: Step)
    requires Placed(t) && Mapped(t) && Enabled(t, step)
    ensures Placed(Next(t, step))
  {
  }

  /** A step changes only the holders of the slot its caller takes or drops. */
  lemma HoldersAfter(t: Table, step: Step, id: SlotId)
    requires Enabled(t, step)
    ensures Holders(Next(t, step), id) ==
            if step.Reference? && t.callers[step.c].id == id && !t.slots[id].dead then Holders(t, id) + {step.c}
            else if step.Done? && t.callers[step.c].id == id then Holders(t, id) - {step.c}
            else Holders(t, id)
  {
  }

  lemma NoHoldersYet(t: Table, id: SlotId)
    requires Placed(t) && id !in t.slots
    ensures Holders(t, id) == {}
  {
    forall d | d in t.callers && t.callers[d].Holding?
      ensures t.callers[d].id != id
    {
    }
  }

  lemma KeepsCounted(t: Table, step: Step)
    requires Counted(t) && Placed(t) && Enabled(t, step)
    ensures Counted(Next(t, step))
  {
    hide Holders, Next, Enabled, Placed;
    var u := Next(t, step);
    forall id | id in u.slots
      ensures CountedAt(u, id)
    {
      assert id in t.slots ==> CountedAt(t, id);
      KeepsCountedAt(t, step, id);
    }
  }

  lemma KeepsCountedAt(t: Table, step: Step, id: SlotId)
    requires Placed(t) && Enabled(t, step) && id in Next(t, step).slots
    requires id in t.slots ==> CountedAt(t, id)
    ensures CountedAt(Next(t, step), id)
  {
    hide Holders, Placed;
    HoldersAfter(t, step, id);
    if id !in t.slots {
      NoHoldersYet(t, id);
    } else if step.Reference? {
      IsHolder(t, step.c, id);
    } else if step.Done? {
      IsHolder(t, step.c, id);
    }
  }

  lemma IsHolder(t: Table, c: Caller, id: SlotId)
    ensures c in Holders(t, id) <==> c in t.callers && t.callers[c].Holding? && t.callers[c].id == id
  {
  }

  lemma Keeps(t: Table, step: Step)
    requires Inv(t) && Enabled(t, step)
    ensures Inv(Next(t, step))
  {
    hide Mapped, Placed, Counted, Next, Enabled;
    KeepsMapped(t, step);
    KeepsPlaced(t, step);
    KeepsCounted(t, step);
  }

  lemma {:induction false} Holds(states: seq<Table>, steps: seq<Step>, i: nat)
    requires Run(states, steps) && i <= |steps|
    ensures Inv(states[i])
  {
    if 0 < i {
      Holds(states, steps, i - 1);
      Keeps(states[i - 1], steps[i - 1]);
    }
  }

  ghost predicate OneLiveSlotPerHost(t: Table) {
    forall a, b :: a in t.slots && b in t.slots && !t.slots[a].dead && !t.slots[b].dead ==>
      t.slots[a].host == t.slots[b].host ==> a == b
  }

  ghost predicate HoldersOfHostShareSlot(t: Table) {
    forall c, d :: c in t.callers && d in t.callers && t.callers[c].Holding? && t.callers[d].Holding? ==>
      t.callers[c].host == t.callers[d].host ==> t.callers[c].id == t.callers[d].id
  }

  /** In every reachable state each host has at most one live slot, and all who
      hold a slot for a host hold that one: its pacing state is never split. */
  lemma PacingNeverSplit(states: seq<Table>, steps: seq<Step>, i: nat)
    requires Run(states, steps) && i <= |steps|
    ensures OneLiveSlotPerHost(states[i]) && HoldersOfHostShareSlot(states[i])
  {
    var t := states[i];
    Holds(states, steps, i);
    forall c | c in t.callers && t.callers[c].Holding?
      ensures t.callers[c].id in t.slots && !t.slots[t.callers[c].id].dead
    {
      assert c in Holders(t, t.callers[c].id);
    }
  }

  lemma DeadStays(t: Table, step: Step, id: SlotId)
    requires Enabled(t, step) && id in t.slots && t.slots[id].dead
    ensures id in Next(t, step).slots && Next(t, step).slots[id].dead
  {
  }

  /** A slot once dead stays dead, and no caller ever takes a reference to it. */
  lemma {:induction false} DeadGainsNoReference(states: seq<Table>, steps: seq<Step>, id: SlotId, i: nat, j: nat)
    requires Run(states, steps) && i <= j <= |steps|
    requires id in states[i].slots && states[i].slots[id].dead
    ensures id in states[j].slots && states[j].slots[id].dead
    ensures states[j].slots[id].refs == 0 && Holders(states[j], id) == {}
    decreases j
  {
    hide Enabled, Next, Holders, Mapped, Placed;
    Holds(states, steps, j);
    if i < j {
      DeadGainsNoReference(states, steps, id, i, j - 1);
      DeadStays(states[j - 1], steps[j - 1], id);
    }
  }
}
