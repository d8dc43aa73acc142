/** The in-process cache backend: a recency list and a map over the same elements,
    bounded by the bytes they hold. Instants are integers on one clock. */
module LruMemory {
  import opened Instants

  datatype Entry = Entry(content: string, metadata: map<string, string>, cachedAt: int)

  const ENTRY_OVERHEAD := 256

  // ----- the size of an entry -----

  ghost function MetadataBytes(m: map<string, string>): nat
    decreases |m|
  {
    if m == map[] then 0
    else
      var k :| k in m;
      |k| + |m[k]| + MetadataBytes(m - {k})
  }

  /** The sum does not depend on the order the map is walked in. */
  lemma {:induction false} AnyOrder(m: map<string, string>, k: string)
    requires k in m
    ensures MetadataBytes(m) == |k| + |m[k]| + MetadataBytes(m - {k})
    decreases |m|
  {
    var j :| j in m && MetadataBytes(m) == |j| + |m[j]| + MetadataBytes(m - {j});
    if j != k {
      AnyOrder(m - {j}, k);
      AnyOrder(m - {k}, j);
      assert m - {j} - {k} == m - {k} - {j};
    }
  }

  ghost function SizeOf(key: string, e: Entry): nat {
    ENTRY_OVERHEAD + |key| + |e.content| + MetadataBytes(e.metadata)
  }

  method EntrySize(key: string, e: Entry) returns (n: nat)
    ensures n == SizeOf(key, e)
  {
    n := ENTRY_OVERHEAD + |key| + |e.content|;
    var rest := e.metadata;
    while rest != map[]
      invariant n + MetadataBytes(rest) == SizeOf(key, e)
      decreases |rest|
    {
      var k :| k in rest;
      AnyOrder(rest, k);
      n := n + |k| + |rest[k]|;
      rest := rest - {k};
    }
  }

  /** Every character of the key, the content and the metadata counts once, and an
      entry of nothing is the overhead. */
  lemma SizeCountsEverything(key: string, e: Entry, more: string, k: string, v: string)
    ensures SizeOf("", Entry("", map[], e.cachedAt)) == 256
    ensures SizeOf(key + more, e) == SizeOf(key, e) + |more|
    ensures SizeOf(key, e.(content := e.content + more)) == SizeOf(key, e) + |more|
    ensures k !in e.metadata ==> SizeOf(key, e.(metadata := e.metadata[k := v])) == SizeOf(key, e) + |k| + |v|
    ensures SizeOf(key, e.(cachedAt := 0)) == SizeOf(key, e)
  {
    if k !in e.metadata {
      AnyOrder(e.metadata[k := v], k);
      assert e.metadata[k := v] - {k} == e.metadata;
    }
  }

  // ----- the list as values -----

  datatype Item = Item(key: string, entry: Entry, expires: int, size: nat)

  ghost function Total(list: seq<Item>): nat {
    if list == [] then 0 else Total(list[..|list| - 1]) + list[|list| - 1].size
  }

  ghost predicate DistinctKeys(list: seq<Item>) {
    forall i, j :: 0 <= i < j < |list| ==> list[i].key != list[j].key
  }

  /** The list without the item at place i. */
  ghost function Without(list: seq<Item>, i: nat): seq<Item>
    requires i < |list|
  {
    list[..i] + list[i + 1..]
  }

  /** The place of a key, or the length when it is absent. */
  ghost function Place(list: seq<Item>, key: string): (i: nat)
    ensures i <= |list|
    ensures i < |list| ==> list[i].key == key
    ensures forall j :: 0 <= j < i ==> list[j].key != key
  {
    if list == [] || list[0].key == key then 0 else 1 + Place(list[1..], key)
  }

  ghost function Dropped(list: seq<Item>, key: string): seq<Item> {
    var i := Place(list, key);
    if i < |list| then Without(list, i) else list
  }

  /** Drops from the back until the rest fits. */
  ghost function Trimmed(list: seq<Item>, budget: int): seq<Item> {
    if list == [] || Total(list) <= budget then list else Trimmed(list[..|list| - 1], budget)
  }

  ghost predicate Hits(list: seq<Item>, key: string, now: int) {
    Place(list, key) < |list| && now < list[Place(list, key)].expires
  }

  ghost function AfterGet(list: seq<Item>, key: string, now: int): seq<Item> {
    var i := Place(list, key);
    if i == |list| then list
    else if now < list[i].expires then [list[i]] + Without(list, i)
    else Without(list, i)
  }

  ghost function AfterSet(list: seq<Item>, item: Item, maxItem: int, maxBytes: int): seq<Item> {
    if maxItem < item.size then list
    else Trimmed([item] + Dropped(list, item.key), maxBytes)
  }

  // ----- sums -----

  lemma {:induction false} TotalConcat(a: seq<Item>, b: seq<Item>)
    ensures Total(a + b) == Total(a) + Total(b)
  {
    if b == [] {
      assert a + b == a;
    } else {
      assert (a + b)[..|a + b| - 1] == a + b[..|b| - 1];
      TotalConcat(a, b[..|b| - 1]);
    }
  }

  lemma TotalOne(item: Item)
    ensures Total([item]) == item.size
  {
    assert [item][..0] == [];
  }

  lemma TotalWithout(list: seq<Item>, i: nat)
    requires i < |list|
    ensures Total(Without(list, i)) == Total(list) - list[i].size
  {
    hide Total;
    assert list == list[..i] + [list[i]] + list[i + 1..];
    TotalConcat(list[..i], [list[i]]);
    TotalConcat(list[..i] + [list[i]], list[i + 1..]);
    TotalConcat(list[..i], list[i + 1..]);
    TotalOne(list[i]);
  }

  lemma TotalPushed(item: Item, list: seq<Item>)
    ensures Total([item] + list) == item.size + Total(list)
  {
    hide Total;
    TotalConcat([item], list);
    TotalOne(item);
  }

  lemma AloneFits(list: seq<Item>, budget: int)
    requires list != [] && list[0].size <= budget < Total(list)
    ensures 1 < |list|
  {
    assert list == [list[0]] + list[1..];
    TotalPushed(list[0], list[1..]);
  }

  lemma OneMoreTrimmed(list: seq<Item>, budget: int)
    requires list != [] && budget < Total(list)
    ensures Trimmed(list, budget) == Trimmed(list[..|list| - 1], budget)
  {
  }

  lemma NothingTrimmed(list: seq<Item>, budget: int)
    requires Total(list) <= budget
    ensures Trimmed(list, budget) == list
  {
  }

  // ----- the backend -----

  class Element {
    const key: string
    const entry: Entry
    const expires: int
    const size: nat

    constructor (key: string, entry: Entry, expires: int, size: nat)
      ensures this.key == key && this.entry == entry && this.expires == expires && this.size == size
    {
      this.key, this.entry, this.expires, this.size := key, entry, expires, size;
    }
  }

  ghost function ItemOf(el: Element): Item {
    Item(el.key, el.entry, el.expires, el.size)
  }

  ghost function ItemsOf(ll: seq<Element>): seq<Item> {
    seq(|ll|, i requires 0 <= i < |ll| => ItemOf(ll[i]))
  }

  /** Map and list hold the same elements, each under its own key. */
  ghost predicate Bijection(ll: seq<Element>, items: map<string, Element>) {
    && (forall i :: 0 <= i < |ll| ==> ll[i].key in items && items[ll[i].key] == ll[i])
    && (forall k :: k in items ==> items[k] in ll && items[k].key == k)
    && (forall i, j :: 0 <= i < j < |ll| ==> ll[i].key != ll[j].key)
  }

  lemma BijectionRemoved(ll: seq<Element>, items: map<string, Element>, i: nat)
    requires Bijection(ll, items) && i < |ll|
    ensures Bijection(ll[..i] + ll[i + 1..], items - {ll[i].key})
  {
    var shorter, fewer := ll[..i] + ll[i + 1..], items - {ll[i].key};
    forall k | k in fewer
      ensures fewer[k] in shorter
    {
      var j :| 0 <= j < |ll| && ll[j] == items[k];
      assert shorter[if j < i then j else j - 1] == ll[j];
    }
  }

  lemma BijectionPushed(ll: seq<Element>, items: map<string, Element>, el: Element)
    requires Bijection(ll, items) && el.key !in items
    ensures Bijection([el] + ll, items[el.key := el])
  {
    var longer, more := [el] + ll, items[el.key := el];
    forall k | k in more
      ensures more[k] in longer
    {
      if k != el.key {
        var j :| 0 <= j < |ll| && ll[j] == items[k];
        assert longer[j + 1] == ll[j];
      }
    }
  }

  lemma ListedOnce(ll: seq<Element>, items: map<string, Element>, key: string)
    requires Bijection(ll, items)
    ensures key in items <==> Place(ItemsOf(ll), key) < |ll|
    ensures key in items ==> ll[Place(ItemsOf(ll), key)] == items[key]
  {
    if key in items {
      var j :| 0 <= j < |ll| && ll[j] == items[key];
      assert ItemsOf(ll)[j].key == key;
    }
  }

  lemma FirstWithKey(ll: seq<Element>, items: map<string, Element>, i: nat)
    requires Bijection(ll, items) && i < |ll|
    ensures Place(ItemsOf(ll), ll[i].key) == i
  {
    assert ItemsOf(ll)[i].key == ll[i].key;
  }

  /** What putting a new element in front makes. */
  lemma LinkedInFront(ll: seq<Element>, items: map<string, Element>, el: Element)
    requires Bijection(ll, items) && el.key !in items
    ensures Bijection([el] + ll, items[el.key := el])
    ensures ItemsOf([el] + ll) == [ItemOf(el)] + ItemsOf(ll)
    ensures Total(ItemsOf([el] + ll)) == el.size + Total(ItemsOf(ll))
  {
    hide Total, Bijection;
    BijectionPushed(ll, items, el);
    TotalPushed(ItemOf(el), ItemsOf(ll));
    assert ItemsOf([el] + ll) == [ItemOf(el)] + ItemsOf(ll);
  }

  /** What taking one element out leaves. */
  lemma Unlinked(ll: seq<Element>, items: map<string, Element>, i: nat)
    requires Bijection(ll, items) && i < |ll|
    ensures var rest := ll[..i] + ll[i + 1..];
            && Bijection(rest, items - {ll[i].key})
            && Total(ItemsOf(rest)) == Total(ItemsOf(ll)) - ll[i].size
            && ItemsOf(rest) == Dropped(ItemsOf(ll), ll[i].key)
            && (ll[i] == ll[|ll| - 1] ==> rest == ll[..|ll| - 1])
  {
    hide Total, Bijection;
    TotalWithout(ItemsOf(ll), i);
    BijectionRemoved(ll, items, i);
    FirstWithKey(ll, items, i);
    FirstWithKey(ll, items, |ll| - 1);
    assert ItemsOf(ll[..i] + ll[i + 1..]) == Without(ItemsOf(ll), i);
  }

  lemma KnownElement(ll: seq<Element>, items: map<string, Element>, i: nat)
    requires Bijection(ll, items) && i < |ll|
    ensures ll[i].key in items && items[ll[i].key] == ll[i]
  {
  }

  datatype SetError = Stored | TooLarge

  class Memory {
    const maxBytes: int
    const maxItem: int
    var ll: seq<Element>
    var items: map<string, Element>
    var bytes: int

    constructor (maxBytes: int, maxItemBytes: int)
      ensures Valid() && List() == []
      ensures this.maxBytes == maxBytes
      ensures maxItem == if 0 < maxItemBytes <= maxBytes then maxItemBytes else maxBytes
    {
      this.maxBytes := maxBytes;
      maxItem := if maxItemBytes <= 0 || maxItemBytes > maxBytes then maxBytes else maxItemBytes;
      ll, items, bytes := [], map[], 0;
    }

    ghost function List(): seq<Item>
      reads this
    {
      ItemsOf(ll)
    }

    ghost predicate Linked()
      reads this
    {
      Bijection(ll, items)
    }

    /** The counter is the bytes held, within the budget when there is one. */
    ghost predicate Counted()
      reads this
    {
      bytes == Total(List()) && (bytes == 0 || bytes <= maxBytes)
    }

    ghost predicate Valid()
      reads this
    {
      maxItem <= maxBytes && Linked() && Counted()
    }

    /** Unlinks one element from the list and the map. */
    method Remove(el: Element)
      requires Linked() && bytes == Total(List()) && el in ll
      modifies this
      ensures Linked() && bytes == Total(List())
      ensures List() == Dropped(old(List()), el.key)
      ensures items == old(items) - {el.key} && bytes == old(bytes) - el.size
      ensures |ll| == |old(ll)| - 1 && (el == old(ll)[|ll|] ==> ll == old(ll)[..|ll|])
    {
      hide Total, Bijection;
      ListedOnce(ll, items, el.key);
      var i := 0;
      while ll[i] != el
        invariant 0 <= i < |ll| && el !in ll[..i]
        decreases |ll| - i
      {
        i := i + 1;
      }
      Unlinked(ll, items, i);
      ll := ll[..i] + ll[i + 1..];
      items := items - {el.key};
      bytes := bytes - el.size;
    }

    method MoveToFront(el: Element)
      requires Linked() && el in ll
      modifies this`ll
      ensures Linked()
      ensures List() == [ItemOf(el)] + Dropped(old(List()), el.key)
    {
      hide Total, Bijection;
      var i := 0;
      while ll[i] != el
        invariant 0 <= i < |ll| && el !in ll[..i]
        decreases |ll| - i
      {
        i := i + 1;
      }
      FirstWithKey(ll, items, i);
      BijectionRemoved(ll, items, i);
      BijectionPushed(ll[..i] + ll[i + 1..], items - {el.key}, el);
      KnownElement(ll, items, i);
      assert (items - {el.key})[el.key := el] == items;
      ll := [el] + (ll[..i] + ll[i + 1..]);
      assert List() == [ItemOf(el)] + Without(old(List()), i);
    }

    /** The live entry for a key, if any; an expired one is dropped. */
    method Get(key: string, now: int) returns (hit: Option<Entry>)
      requires Valid()
      modifies this
      ensures Valid()
      ensures List() == AfterGet(old(List()), key, now)
      ensures hit == if Hits(old(List()), key, now) then Some(old(List())[Place(old(List()), key)].entry) else None
    {
      hide Total, Bijection;
      ListedOnce(ll, items, key);
      if key !in items {
        return None;
      }
      var el := items[key];
      if !(now < el.expires) {
        Remove(el);
        return None;
      }
      var i: nat := Place(List(), key);
      TotalWithout(List(), i);
      TotalPushed(List()[i], Without(List(), i));
      MoveToFront(el);
      return Some(el.entry);
    }

    /** Drops least recently used elements until the budget holds. The one in front
        fits on its own, so it stays. */
    method Evict()
      requires Linked() && bytes == Total(List())
      requires ll != [] && ll[0].size <= maxBytes
      modifies this
      ensures Linked() && bytes == Total(List()) && bytes <= maxBytes
      ensures List() == Trimmed(old(List()), maxBytes)
      ensures ll != [] && ll[0] == old(ll[0])
    {
      hide Total, Bijection, Dropped, Trimmed;
      while bytes > maxBytes
        invariant Linked() && bytes == Total(List())
        invariant 0 < |ll| && ll[0] == old(ll[0])
        invariant Trimmed(old(List()), maxBytes) == Trimmed(List(), maxBytes)
        decreases |ll|
      {
        ghost var before := List();
        AloneFits(before, maxBytes);
        OneMoreTrimmed(before, maxBytes);
        Remove(ll[|ll| - 1]);
        assert List() == before[..|before| - 1];
      }
      NothingTrimmed(List(), maxBytes);
    }

    /** Stores an entry at the front and drops from the back until the budget
        holds; an entry over the item cap changes nothing. */
    method Set(key: string, e: Entry, ttl: int, now: int) returns (r: SetError)
      requires Valid()
      modifies this
      ensures Valid()
      ensures r == TooLarge <==> maxItem < SizeOf(key, e)
      ensures List() == AfterSet(old(List()), Item(key, e, now + ttl, SizeOf(key, e)), maxItem, maxBytes)
      ensures r == Stored ==> 0 < |List()| && List()[0] == Item(key, e, now + ttl, SizeOf(key, e))
    {
      hide Total, Bijection;
      var size := EntrySize(key, e);
      if size > maxItem {
        return TooLarge;
      }
      ListedOnce(ll, items, key);
      if key in items {
        Remove(items[key]);
      }
      var el := new Element(key, e, now + ttl, size);
      LinkedInFront(ll, items, el);
      ll := [el] + ll;
      items := items[key := el];
      bytes := bytes + size;
      Evict();
      return Stored;
    }
  }

  // ----- runs -----

  datatype Op =
    | Look(key: string, now: int)
    | Put(key: string, entry: Entry, ttl: int, now: int)

  ghost function PutItem(op: Op): Item
    requires op.Put?
  {
    Item(op.key, op.entry, op.now + op.ttl, SizeOf(op.key, op.entry))
  }

  /** A budget and an item cap within it, as the constructor leaves them. */
  datatype Limits = Limits(maxItem: int, maxBytes: int)

  ghost function After(list: seq<Item>, op: Op, m: Limits): seq<Item> {
    match op
    case Look(key, now) => AfterGet(list, key, now)
    case Put(_, _, _, _) => AfterSet(list, PutItem(op), m.maxItem, m.maxBytes)
  }

  ghost function Exec(ops: seq<Op>, m: Limits): seq<Item> {
    if ops == [] then [] else After(Exec(ops[..|ops| - 1], m), ops[|ops| - 1], m)
  }

  /** The item of the last accepted put of a key. */
  ghost function LastPut(ops: seq<Op>, m: Limits, key: string): Option<Item> {
    if ops == [] then None
    else
      var op := ops[|ops| - 1];
      if op.Put? && op.key == key && PutItem(op).size <= m.maxItem then Some(PutItem(op))
      else LastPut(ops[..|ops| - 1], m, key)
  }

  /** An accepted put uses its key, and so does a look that hits. */
  ghost predicate Uses(list: seq<Item>, op: Op, m: Limits) {
    match op
    case Look(key, now) => Hits(list, key, now)
    case Put(_, _, _, _) => PutItem(op).size <= m.maxItem
  }

  /** When a key was last used: the number of operations up to that one, or 0. */
  ghost function LastUse(ops: seq<Op>, m: Limits, key: string): (at: nat)
    ensures at <= |ops|
  {
    if ops == [] then 0
    else
      var op := ops[|ops| - 1];
      if op.key == key && Uses(Exec(ops[..|ops| - 1], m), op, m) then |ops|
      else LastUse(ops[..|ops| - 1], m, key)
  }

  /** The list runs from the most to the least recently used. */
  ghost predicate ByRecency(list: seq<Item>, ops: seq<Op>, m: Limits) {
    forall i, j :: 0 <= i < j < |list| ==> LastUse(ops, m, list[j].key) < LastUse(ops, m, list[i].key)
  }

  ghost predicate AllLastPut(list: seq<Item>, ops: seq<Op>, m: Limits) {
    forall i :: 0 <= i < |list| ==> LastPut(ops, m, list[i].key) == Some(list[i])
  }

  /** list is `of` itself, or `of` without place k. */
  ghost predicate IsWithout(list: seq<Item>, of: seq<Item>, k: nat) {
    if k < |of| then list == Without(of, k) else list == of
  }

  lemma DroppedIs(list: seq<Item>, key: string) returns (k: nat)
    requires DistinctKeys(list)
    ensures IsWithout(Dropped(list, key), list, k)
    ensures forall i :: 0 <= i < |Dropped(list, key)| ==> Dropped(list, key)[i].key != key
  {
    k := Place(list, key);
  }

  lemma ShorterOrdered(list: seq<Item>, of: seq<Item>, k: nat, ops: seq<Op>, m: Limits)
    requires IsWithout(list, of, k) && ByRecency(of, ops, m) && AllLastPut(of, ops, m)
    ensures ByRecency(list, ops, m) && AllLastPut(list, ops, m)
  {
    forall i | 0 <= i < |list|
      ensures list[i] == of[if k <= i then (if k < |of| then i + 1 else i) else i]
    {
    }
  }

  /** The keys of a list were last used and put before an operation on another key. */
  lemma OtherKeysKept(list: seq<Item>, ops: seq<Op>, op: Op, m: Limits)
    requires ByRecency(list, ops, m) && AllLastPut(list, ops, m)
    requires forall i :: 0 <= i < |list| ==> list[i].key != op.key
    ensures ByRecency(list, ops + [op], m) && AllLastPut(list, ops + [op], m)
  {
    assert (ops + [op])[..|ops|] == ops;
  }

  lemma FrontOrdered(front: Item, list: seq<Item>, ops: seq<Op>, op: Op, m: Limits)
    requires ByRecency(list, ops, m) && AllLastPut(list, ops, m)
    requires forall i :: 0 <= i < |list| ==> list[i].key != op.key
    requires front.key == op.key && Uses(Exec(ops, m), op, m)
    requires LastPut(ops + [op], m, op.key) == Some(front)
    ensures ByRecency([front] + list, ops + [op], m) && AllLastPut([front] + list, ops + [op], m)
  {
    hide Exec, Uses, LastPut;
    assert (ops + [op])[..|ops|] == ops;
    OtherKeysKept(list, ops, op, m);
    assert LastUse(ops + [op], m, op.key) == |ops| + 1;
    forall i | 0 <= i < |list|
      ensures LastUse(ops + [op], m, list[i].key) <= |ops|
    {
      assert LastUse(ops + [op], m, list[i].key) == LastUse(ops, m, list[i].key);
    }
  }

  /** Trimming keeps the longest prefix that fits. */
  lemma {:induction false} TrimmedPrefix(list: seq<Item>, budget: int) returns (k: nat)
    ensures k <= |list| && Trimmed(list, budget) == list[..k]
    ensures Total(list[..k]) <= budget || k == 0
    ensures k < |list| ==> budget < Total(list[..k + 1])
  {
    if list == [] || Total(list) <= budget {
      k := |list|;
      assert list[..k] == list;
    } else {
      k := TrimmedPrefix(list[..|list| - 1], budget);
      assert list[..|list| - 1][..k] == list[..k];
      if k == |list| - 1 {
        assert list[..k + 1] == list;
      } else {
        assert list[..|list| - 1][..k + 1] == list[..k + 1];
      }
    }
  }

  ghost predicate RunInv(list: seq<Item>, ops: seq<Op>, m: Limits) {
    DistinctKeys(list) && ByRecency(list, ops, m) && AllLastPut(list, ops, m)
  }

  lemma PrefixKept(list: seq<Item>, k: nat, ops: seq<Op>, m: Limits)
    requires k <= |list| && RunInv(list, ops, m)
    ensures RunInv(list[..k], ops, m)
  {
  }

  lemma PutKept(list: seq<Item>, ops: seq<Op>, op: Op, m: Limits)
    requires list == Exec(ops, m) && RunInv(list, ops, m) && op.Put? && PutItem(op).size <= m.maxItem
    ensures RunInv([PutItem(op)] + Dropped(list, op.key), ops + [op], m)
  {
    hide Exec, ByRecency, AllLastPut;
    var k := DroppedIs(list, op.key);
    ShorterOrdered(Dropped(list, op.key), list, k, ops, m);
    assert (ops + [op])[..|ops|] == ops;
    FrontOrdered(PutItem(op), Dropped(list, op.key), ops, op, m);
  }

  lemma LookKept(list: seq<Item>, ops: seq<Op>, op: Op, m: Limits)
    requires list == Exec(ops, m) && RunInv(list, ops, m) && op.Look?
    ensures RunInv(After(list, op, m), ops + [op], m)
  {
    hide Exec, ByRecency, AllLastPut;
    var k := DroppedIs(list, op.key);
    var rest := Dropped(list, op.key);
    ShorterOrdered(rest, list, k, ops, m);
    assert (ops + [op])[..|ops|] == ops;
    var i := Place(list, op.key);
    if Hits(list, op.key, op.now) {
      assert LastPut(ops, m, list[i].key) == Some(list[i]) by {
        PlacePut(list, ops, m, i);
      }
      FrontOrdered(list[i], rest, ops, op, m);
    } else {
      OtherKeysKept(rest, ops, op, m);
    }
  }

  lemma PlacePut(list: seq<Item>, ops: seq<Op>, m: Limits, i: nat)
    requires AllLastPut(list, ops, m) && i < |list|
    ensures LastPut(ops, m, list[i].key) == Some(list[i])
  {
  }

  lemma RefusedKept(list: seq<Item>, ops: seq<Op>, op: Op, m: Limits)
    requires RunInv(list, ops, m) && op.Put? && m.maxItem < PutItem(op).size
    ensures RunInv(list, ops + [op], m)
  {
    hide Exec;
    assert (ops + [op])[..|ops|] == ops;
  }

  lemma {:induction false} RunHolds(ops: seq<Op>, m: Limits)
    ensures RunInv(Exec(ops, m), ops, m)
  {
    if ops != [] {
      hide RunInv, Dropped, Trimmed;
      var before, op := ops[..|ops| - 1], ops[|ops| - 1];
      RunHolds(before, m);
      var list := Exec(before, m);
      assert before + [op] == ops;
      if op.Look? {
        LookKept(list, before, op, m);
      } else if PutItem(op).size <= m.maxItem {
        PutKept(list, before, op, m);
        var k := TrimmedPrefix([PutItem(op)] + Dropped(list, op.key), m.maxBytes);
        PrefixKept([PutItem(op)] + Dropped(list, op.key), k, ops, m);
      } else {
        RefusedKept(list, before, op, m);
      }
    }
  }

  // ----- what every run guarantees -----

  /** A look that hits is answered with the last accepted put of its key, still
      within its time to live. */
  lemma HitIsLastPut(ops: seq<Op>, m: Limits, key: string, now: int)
    requires Hits(Exec(ops, m), key, now)
    ensures var list := Exec(ops, m);
            var item := list[Place(list, key)];
            LastPut(ops, m, key) == Some(item) && item.key == key && now < item.expires
  {
    hide Exec;
    RunHolds(ops, m);
  }

  /** A look right after an accepted put hits until the entry expires: a put never
      evicts what it has just stored. */
  lemma PutIsFound(ops: seq<Op>, m: Limits, op: Op, now: int)
    requires m.maxItem <= m.maxBytes && op.Put? && PutItem(op).size <= m.maxItem
    ensures Hits(Exec(ops + [op], m), op.key, now) <==> now < op.now + op.ttl
    ensures Exec(ops + [op], m) != [] && Exec(ops + [op], m)[0] == PutItem(op)
  {
    assert (ops + [op])[..|ops|] == ops;
    var list := [PutItem(op)] + Dropped(Exec(ops, m), op.key);
    var k := TrimmedPrefix(list, m.maxBytes);
    TotalOne(PutItem(op));
    assert list[..1] == [PutItem(op)];
  }

  ghost predicate Has(list: seq<Item>, key: string) {
    Place(list, key) < |list|
  }

  /** Only an expired look or a put that needs the room takes an entry away. */
  lemma LostTo(ops: seq<Op>, m: Limits, op: Op, key: string)
    requires Has(Exec(ops, m), key) && !Has(Exec(ops + [op], m), key)
    ensures op.Look? ==> op.key == key && !Hits(Exec(ops, m), key, op.now)
    ensures op.Put? ==> PutItem(op).size <= m.maxItem
  {
    hide Trimmed, Total;
    assert (ops + [op])[..|ops|] == ops;
    var list := Exec(ops, m);
    RunHolds(ops, m);
    if op.Look? && (op.key != key || Hits(list, key, op.now)) {
      KeptByLook(list, op.key, op.now, key);
    }
  }

  lemma HasAt(list: seq<Item>, key: string, i: nat)
    requires i < |list| && list[i].key == key
    ensures Has(list, key)
  {
  }

  lemma KeptByLook(list: seq<Item>, looked: string, now: int, key: string)
    requires Has(list, key) && (looked != key || Hits(list, key, now))
    ensures Has(AfterGet(list, looked, now), key)
  {
    var i, p := Place(list, looked), Place(list, key);
    var after := AfterGet(list, looked, now);
    if i == |list| {
    } else if now < list[i].expires {
      HasAt(after, key, if p == i then 0 else if p < i then p + 1 else p);
    } else {
      HasAt(after, key, if p < i then p else p - 1);
    }
  }

  /** Eviction takes the least recently used entries and no more of them than it
      must: every entry kept was used later than every entry evicted, and with
      the last of the evicted ones back the budget would be exceeded. */
  lemma EvictsLeastRecentlyUsed(ops: seq<Op>, m: Limits, op: Op) returns (evicted: seq<Item>)
    requires op.Put? && PutItem(op).size <= m.maxItem <= m.maxBytes
    ensures var kept := Exec(ops + [op], m);
            && kept + evicted == [PutItem(op)] + Dropped(Exec(ops, m), op.key)
            && Total(kept) <= m.maxBytes
            && (evicted != [] ==> m.maxBytes < Total(kept + evicted[..1]))
            && forall i, j :: 0 <= i < |kept| && 0 <= j < |evicted| ==>
                 LastUse(ops + [op], m, evicted[j].key) < LastUse(ops + [op], m, kept[i].key)
  {
    hide LastUse, Dropped, Total;
    assert (ops + [op])[..|ops|] == ops;
    var list := [PutItem(op)] + Dropped(Exec(ops, m), op.key);
    RunHolds(ops, m);
    PutKept(Exec(ops, m), ops, op, m);
    var k := TrimmedPrefix(list, m.maxBytes);
    TotalOne(PutItem(op));
    assert list[..1] == [PutItem(op)];
    evicted := list[k..];
    assert list[..k] + list[k..] == list;
    assert evicted != [] ==> list[..k + 1] == list[..k] + evicted[..1];
    forall i, j | 0 <= i < k && 0 <= j < |evicted|
      ensures LastUse(ops + [op], m, evicted[j].key) < LastUse(ops + [op], m, list[..k][i].key)
    {
      assert evicted[j] == list[k + j];
    }
  }

  /** A backend with no budget stores nothing. */
  lemma {:induction false} NoBudgetStoresNothing(ops: seq<Op>, m: Limits)
    requires m.maxItem <= m.maxBytes <= 0
    ensures Exec(ops, m) == []
  {
    if ops != [] {
      NoBudgetStoresNothing(ops[..|ops| - 1], m);
    }
  }
}
