/** Hacker News threads: the comment tree flattened in pre-order, and the one-pass
    index of each comment's root and depth. */
module HackerNews {
  import opened Instants
  import opened Threads

  /** A node of the fetched tree; a deleted one has neither author nor text. */
  datatype Item = Item(id: Id, author: string, text: string, children: seq<Item>)

  predicate Live(c: Item) {
    c.author != "" || c.text != ""
  }

  // ----- flattening -----

  /** A node's own comment. */
  function HeadComment(c: Item, parent: Id): seq<Comment> {
    if Live(c) then [Comment(c.id, parent, c.text)] else []
  }

  /** The live comments in pre-order, each with the id of its direct parent. */
  function Flat(children: seq<Item>, parent: Id): seq<Comment> {
    if children == [] then []
    else
      var c := children[0];
      HeadComment(c, parent) + Flat(c.children, c.id) + Flat(children[1..], parent)
  }

  /** Every id of the tree, deleted nodes included, in pre-order. */
  ghost function TreeIds(children: seq<Item>): seq<Id> {
    if children == [] then []
    else [children[0].id] + TreeIds(children[0].children) + TreeIds(children[1..])
  }

  class Output {
    var comments: seq<Comment>

    constructor ()
      ensures comments == []
    {
      comments := [];
    }
  }

  lemma {:induction false} FlatConcat(a: seq<Item>, b: seq<Item>, parent: Id)
    ensures Flat(a + b, parent) == Flat(a, parent) + Flat(b, parent)
  {
    hide Flat;
    if a == [] {
      assert a + b == b;
      FlatNothing(parent);
    } else {
      assert (a + b)[0] == a[0] && (a + b)[1..] == a[1..] + b;
      FlatConcat(a[1..], b, parent);
      FlatNext(a, parent);
      FlatNext(a + b, parent);
    }
  }

  lemma FlatNext(children: seq<Item>, parent: Id)
    requires children != []
    ensures var c := children[0];
            Flat(children, parent) == HeadComment(c, parent) + Flat(c.children, c.id) + Flat(children[1..], parent)
  {
  }

  lemma FlatOne(c: Item, parent: Id)
    ensures Flat([c], parent) == HeadComment(c, parent) + Flat(c.children, c.id)
  {
    assert [c][1..] == [];
  }

  /** Appends the live comments below a node, skipping deleted ones but not what
      hangs under them. */
  method FlattenComments(children: seq<Item>, parent: Id, out: Output)
    modifies out
    ensures out.comments == old(out.comments) + Flat(children, parent)
  {
    hide Flat;
    assert Flat([], parent) == [] by {
      FlatNothing(parent);
    }
    for i := 0 to |children|
      invariant out.comments == old(out.comments) + Flat(children[..i], parent)
    {
      var c := children[i];
      assert children[..i + 1] == children[..i] + [c];
      FlatConcat(children[..i], [c], parent);
      FlatOne(c, parent);
      FlatNothing(c.id);
      if c.author != "" || c.text != "" {
        out.comments := out.comments + [Comment(c.id, parent, c.text)];
      }
      if 0 < |c.children| {
        FlattenComments(c.children, c.id, out);
      }
    }
    assert children[..|children|] == children;
  }

  lemma FlatNothing(parent: Id)
    ensures Flat([], parent) == []
  {
  }

  // ----- the index -----

  datatype SubtreeIndex = SubtreeIndex(root: map<Id, Id>, depth: map<Id, int>)

  const NO_SUBTREES := SubtreeIndex(map[], map[])

  function DepthIn(idx: SubtreeIndex, id: Id): int {
    if id in idx.depth then idx.depth[id] else 0
  }

  function Indexed(idx: SubtreeIndex, c: Comment): SubtreeIndex {
    if c.parent in idx.root then
      SubtreeIndex(idx.root[c.id := idx.root[c.parent]], idx.depth[c.id := DepthIn(idx, c.parent) + 1])
    else SubtreeIndex(idx.root[c.id := c.id], idx.depth[c.id := 0])
  }

  function IndexFrom(idx: SubtreeIndex, comments: seq<Comment>): SubtreeIndex {
    if comments == [] then idx
    else Indexed(IndexFrom(idx, comments[..|comments| - 1]), comments[|comments| - 1])
  }

  function IndexOf(comments: seq<Comment>): SubtreeIndex {
    IndexFrom(NO_SUBTREES, comments)
  }

  /** One forward pass over a flattened list. */
  method IndexSubtrees(comments: seq<Comment>) returns (idx: SubtreeIndex)
    ensures idx == IndexOf(comments)
  {
    idx := NO_SUBTREES;
    for i := 0 to |comments|
      invariant idx == IndexOf(comments[..i])
    {
      var c := comments[i];
      assert comments[..i + 1][..i] == comments[..i];
      if c.parent in idx.root {
        var r := idx.root[c.parent];
        idx := SubtreeIndex(idx.root[c.id := r], idx.depth[c.id := DepthIn(idx, c.parent) + 1]);
      } else {
        idx := SubtreeIndex(idx.root[c.id := c.id], idx.depth[c.id := 0]);
      }
    }
    assert comments[..|comments|] == comments;
  }

  // ----- true roots and depths, told from the tree -----

  datatype Place = Place(id: Id, root: Id, depth: int)

  /** Under the same root as its parent and one deeper, or a root itself when its
      parent is the story or was deleted. */
  ghost function HereUnder(c: Item, above: Option<Place>): Place {
    if above.Some? then Place(c.id, above.value.root, above.value.depth + 1) else Place(c.id, c.id, 0)
  }

  ghost function HeadPlace(c: Item, above: Option<Place>): seq<Place> {
    if Live(c) then [HereUnder(c, above)] else []
  }

  ghost function AboveChildren(c: Item, above: Option<Place>): Option<Place> {
    if Live(c) then Some(HereUnder(c, above)) else None
  }

  /** Where every live comment hangs. */
  ghost function Places(children: seq<Item>, above: Option<Place>): seq<Place> {
    if children == [] then []
    else
      var c := children[0];
      HeadPlace(c, above) + Places(c.children, AboveChildren(c, above)) + Places(children[1..], above)
  }

  ghost function Record(idx: SubtreeIndex, places: seq<Place>): SubtreeIndex {
    if places == [] then idx
    else
      var before, p := Record(idx, places[..|places| - 1]), places[|places| - 1];
      SubtreeIndex(before.root[p.id := p.root], before.depth[p.id := p.depth])
  }

  lemma {:induction false} IndexFromConcat(idx: SubtreeIndex, a: seq<Comment>, b: seq<Comment>)
    ensures IndexFrom(idx, a + b) == IndexFrom(IndexFrom(idx, a), b)
  {
    if b == [] {
      assert a + b == a;
    } else {
      assert (a + b)[..|a + b| - 1] == a + b[..|b| - 1];
      IndexFromConcat(idx, a, b[..|b| - 1]);
    }
  }

  lemma {:induction false} RecordConcat(idx: SubtreeIndex, a: seq<Place>, b: seq<Place>)
    ensures Record(idx, a + b) == Record(Record(idx, a), b)
  {
    if b == [] {
      assert a + b == a;
    } else {
      assert (a + b)[..|a + b| - 1] == a + b[..|b| - 1];
      RecordConcat(idx, a, b[..|b| - 1]);
    }
  }

  /** Recording places leaves every other id as it was. */
  lemma {:induction false} RecordElsewhere(idx: SubtreeIndex, places: seq<Place>, id: Id)
    requires forall i :: 0 <= i < |places| ==> places[i].id != id
    ensures id in Record(idx, places).root <==> id in idx.root
    ensures id in Record(idx, places).depth <==> id in idx.depth
    ensures id in idx.root ==> Record(idx, places).root[id] == idx.root[id]
    ensures id in idx.depth ==> Record(idx, places).depth[id] == idx.depth[id]
  {
    if places != [] {
      RecordElsewhere(idx, places[..|places| - 1], id);
    }
  }

  /** The ids of the live places are among the ids of the tree. */
  lemma {:induction false} PlacesInTree(children: seq<Item>, above: Option<Place>)
    ensures forall i :: 0 <= i < |Places(children, above)| ==> Places(children, above)[i].id in TreeIds(children)
  {
    if children != [] {
      var c := children[0];
      PlacesInTree(c.children, AboveChildren(c, above));
      PlacesInTree(children[1..], above);
    }
  }

  /** What the index knows of a parent: its place when it was emitted, nothing
      when it is the story or was deleted. */
  ghost predicate Knows(idx: SubtreeIndex, parent: Id, above: Option<Place>) {
    if above.Some? then
      && parent in idx.root && idx.root[parent] == above.value.root
      && parent in idx.depth && idx.depth[parent] == above.value.depth
    else parent !in idx.root
  }

  ghost predicate Fresh(idx: SubtreeIndex, ids: seq<Id>) {
    forall i :: 0 <= i < |ids| ==> ids[i] !in idx.root && ids[i] !in idx.depth
  }

  lemma HeadIndexed(idx: SubtreeIndex, c: Item, parent: Id, above: Option<Place>)
    requires Knows(idx, parent, above)
    ensures IndexFrom(idx, HeadComment(c, parent)) == Record(idx, HeadPlace(c, above))
  {
    if Live(c) {
      assert HeadComment(c, parent)[..0] == [] && HeadPlace(c, above)[..0] == [];
    }
  }

  lemma HeadKnown(idx: SubtreeIndex, c: Item, above: Option<Place>)
    requires c.id !in idx.root
    ensures Knows(Record(idx, HeadPlace(c, above)), c.id, AboveChildren(c, above))
  {
    if Live(c) {
      assert HeadPlace(c, above)[..0] == [];
    }
  }

  /** Recording some places keeps what is known of, or fresh in, other ids. */
  lemma OthersKept(idx: SubtreeIndex, places: seq<Place>, parent: Id, above: Option<Place>, ids: seq<Id>)
    requires Knows(idx, parent, above) && Fresh(idx, ids)
    requires forall i :: 0 <= i < |places| ==> places[i].id != parent && places[i].id !in ids
    ensures Knows(Record(idx, places), parent, above) && Fresh(Record(idx, places), ids)
  {
    RecordElsewhere(idx, places, parent);
    forall i | 0 <= i < |ids|
      ensures ids[i] !in Record(idx, places).root && ids[i] !in Record(idx, places).depth
    {
      RecordElsewhere(idx, places, ids[i]);
    }
  }

  lemma DistinctParts(parent: Id, id: Id, below: seq<Id>, rest: seq<Id>)
    requires NoDuplicates([parent] + ([id] + below + rest))
    ensures NoDuplicates([id] + below) && NoDuplicates([parent] + rest)
    ensures id != parent && id !in below && id !in rest && parent !in rest
    ensures forall x :: x in below ==> x != parent && x !in rest
  {
    var all := [parent] + ([id] + below + rest);
    forall i | 0 <= i < |below|
      ensures all[2 + i] == below[i]
    {
    }
    forall i | 0 <= i < |rest|
      ensures all[2 + |below| + i] == rest[i]
    {
    }
    assert all[0] == parent && all[1] == id;
  }

  lemma FreshParts(idx: SubtreeIndex, id: Id, below: seq<Id>, rest: seq<Id>)
    requires Fresh(idx, [id] + below + rest)
    ensures id !in idx.root && Fresh(idx, below) && Fresh(idx, rest)
  {
    var all := [id] + below + rest;
    assert all[0] == id;
    assert forall i :: 0 <= i < |below| ==> all[1 + i] == below[i];
    assert forall i :: 0 <= i < |rest| ==> all[1 + |below| + i] == rest[i];
  }

  /** Indexing a flattened forest records exactly the places of its comments. */
  lemma {:induction false} IndexRecordsPlaces(idx: SubtreeIndex, children: seq<Item>, parent: Id, above: Option<Place>)
    requires NoDuplicates([parent] + TreeIds(children))
    requires Fresh(idx, TreeIds(children)) && Knows(idx, parent, above)
    ensures IndexFrom(idx, Flat(children, parent)) == Record(idx, Places(children, above))
    decreases children
  {
    if children != [] {
      hide NoDuplicates, Fresh, Knows, IndexFrom, Record, HereUnder;
      var c, rest := children[0], children[1..];
      var inner := AboveChildren(c, above);
      var head, below := HeadPlace(c, above), Places(c.children, inner);
      DistinctParts(parent, c.id, TreeIds(c.children), TreeIds(rest));
      FreshParts(idx, c.id, TreeIds(c.children), TreeIds(rest));
      HeadIndexed(idx, c, parent, above);
      HeadKnown(idx, c, above);
      var idx1 := Record(idx, head);
      OthersKept(idx, head, parent, above, TreeIds(rest));
      FreshAfterHead(idx, c, above, TreeIds(c.children));
      IndexRecordsPlaces(idx1, c.children, c.id, inner);
      PlacesInTree(c.children, inner);
      OthersKept(idx1, below, parent, above, TreeIds(rest));
      IndexRecordsPlaces(Record(idx1, below), rest, parent, above);
      IndexFromConcat(idx, HeadComment(c, parent), Flat(c.children, c.id));
      IndexFromConcat(idx, HeadComment(c, parent) + Flat(c.children, c.id), Flat(rest, parent));
      RecordConcat(idx, head, below);
      RecordConcat(idx, head + below, Places(rest, above));
      PlacesSplit(children, above);
    } else {
      NothingIndexed(idx, parent, above);
    }
  }

  lemma NothingIndexed(idx: SubtreeIndex, parent: Id, above: Option<Place>)
    ensures IndexFrom(idx, Flat([], parent)) == Record(idx, Places([], above))
  {
  }

  lemma PlacesSplit(children: seq<Item>, above: Option<Place>)
    requires children != []
    ensures Places(children, above) == HeadPlace(children[0], above)
         + Places(children[0].children, AboveChildren(children[0], above)) + Places(children[1..], above)
  {
  }

  lemma FreshAfterHead(idx: SubtreeIndex, c: Item, above: Option<Place>, ids: seq<Id>)
    requires Fresh(idx, ids) && c.id !in ids
    ensures Fresh(Record(idx, HeadPlace(c, above)), ids)
  {
    if Live(c) {
      assert HeadPlace(c, above)[..0] == [];
    }
  }

  // ----- the index of a flattened thread -----

  /** No comment comes before its parent, or is its own. */
  ghost predicate ParentsFirst(list: seq<Comment>) {
    forall i, j :: 0 <= i <= j < |list| ==> list[i].parent != list[j].id
  }

  ghost predicate WellFormed(list: seq<Comment>) {
    DistinctIds(list) && ParentsFirst(list)
  }

  /** The index of a list agrees with the parent links: a comment whose parent is
      emitted has its parent's root and is one deeper, any other is a root. */
  ghost predicate Lawful(idx: SubtreeIndex, list: seq<Comment>, c: Comment) {
    && c.id in idx.root && c.id in idx.depth
    && if c.parent in Ids(list) then
         && c.parent in idx.root && idx.root[c.id] == idx.root[c.parent]
         && c.parent in idx.depth && idx.depth[c.id] == idx.depth[c.parent] + 1
       else idx.root[c.id] == c.id && idx.depth[c.id] == 0
  }

  ghost predicate FitsList(idx: SubtreeIndex, list: seq<Comment>) {
    && idx.root.Keys == idx.depth.Keys == Ids(list)
    && forall i :: 0 <= i < |list| ==> Lawful(idx, list, list[i])
  }

  /** A comment indexed later disturbs no earlier one. */
  lemma LawfulStill(idx: SubtreeIndex, front: seq<Comment>, last: Comment, c: Comment)
    requires FitsList(idx, front) && Lawful(idx, front, c) && c.id in Ids(front)
    requires last.id !in Ids(front) && c.parent != last.id
    requires Ids(front + [last]) == Ids(front) + {last.id}
    ensures Lawful(Indexed(idx, last), front + [last], c)
  {
    hide Ids;
  }

  lemma LawfulLast(idx: SubtreeIndex, front: seq<Comment>, last: Comment)
    requires FitsList(idx, front) && last.id !in Ids(front) && last.parent != last.id
    requires Ids(front + [last]) == Ids(front) + {last.id}
    ensures Lawful(Indexed(idx, last), front + [last], last)
    ensures Indexed(idx, last).root.Keys == Indexed(idx, last).depth.Keys == Ids(front + [last])
  {
    hide Ids;
  }

  lemma LastIsNew(list: seq<Comment>)
    requires list != [] && WellFormed(list)
    ensures var front, last := list[..|list| - 1], list[|list| - 1];
            && WellFormed(front) && list == front + [last]
            && last.id !in Ids(front) && last.parent != last.id
            && Ids(front + [last]) == Ids(front) + {last.id}
            && forall i :: 0 <= i < |front| ==> front[i].parent != last.id && front[i].id in Ids(front)
  {
    LastIdIsNew(list);
    IdsSplit(list);
  }

  lemma {:induction false} IndexFits(list: seq<Comment>)
    requires WellFormed(list)
    ensures FitsList(IndexOf(list), list)
  {
    if list == [] {
      assert Ids(list) == {};
    } else {
      hide WellFormed, Ids, Lawful, Indexed;
      LastIsNew(list);
      var front, last := list[..|list| - 1], list[|list| - 1];
      IndexFits(front);
      LawfulLast(IndexOf(front), front, last);
      forall i | 0 <= i < |front|
        ensures Lawful(IndexOf(list), list, front[i])
      {
        LawfulStill(IndexOf(front), front, last, front[i]);
      }
    }
  }

  /** A comment's place in the index. */
  ghost predicate SamePlace(a: SubtreeIndex, b: SubtreeIndex, id: Id) {
    && id in a.root && id in b.root && a.root[id] == b.root[id]
    && id in a.depth && id in b.depth && a.depth[id] == b.depth[id]
  }

  lemma LawfulAt(list: seq<Comment>, c: Comment)
    requires WellFormed(list) && c in list
    ensures Lawful(IndexOf(list), list, c)
  {
    hide IndexOf, WellFormed, Lawful;
    IndexFits(list);
    var k :| 0 <= k < |list| && list[k] == c;
  }

  /** Dropping comments, but no emitted parent of one that stays, moves nobody. */
  lemma {:induction false} PlacesStable(list: seq<Comment>, sub: seq<Comment>, i: nat)
    requires WellFormed(list) && WellFormed(sub) && ClosedIn(sub, list) && i < |sub|
    requires forall c :: c in sub ==> c in list
    ensures SamePlace(IndexOf(list), IndexOf(sub), sub[i].id)
    decreases i
  {
    hide IndexOf, WellFormed, Ids;
    var c := sub[i];
    LawfulAt(list, c);
    LawfulAt(sub, c);
    SubIds(list, sub, c.parent);
    if c.parent in Ids(list) {
      var j := ParentBefore(sub, i);
      PlacesStable(list, sub, j);
    }
  }

  lemma ParentBefore(list: seq<Comment>, i: nat) returns (j: nat)
    requires WellFormed(list) && i < |list| && list[i].parent in Ids(list)
    ensures j < i && list[j].id == list[i].parent
  {
    j :| j < |list| && list[j].id == list[i].parent;
  }

  lemma SubIds(list: seq<Comment>, sub: seq<Comment>, id: Id)
    requires forall c :: c in sub ==> c in list
    ensures id in Ids(sub) ==> id in Ids(list)
  {
    IdIn(sub, id);
    IdIn(list, id);
  }

  // ----- what flattening emits -----

  /** All that a flattened list names is in the tree, and it is well formed. */
  ghost predicate Within(list: seq<Comment>, parent: Id, ids: seq<Id>) {
    forall i :: 0 <= i < |list| ==> list[i].id in ids && (list[i].parent == parent || list[i].parent in ids)
  }

  lemma {:induction false} FlatWithin(children: seq<Item>, parent: Id)
    ensures Within(Flat(children, parent), parent, TreeIds(children))
    decreases children
  {
    if children != [] {
      FlatWithin(children[0].children, children[0].id);
      FlatWithin(children[1..], parent);
    }
  }

  lemma WellFormedConcat(a: seq<Comment>, b: seq<Comment>)
    requires WellFormed(a) && WellFormed(b)
    requires forall i, j :: 0 <= i < |a| && 0 <= j < |b| ==> a[i].id != b[j].id && a[i].parent != b[j].id
    ensures WellFormed(a + b)
  {
  }

  /** Pre-order emits a parent before its replies. */
  lemma {:induction false} FlatWellFormed(children: seq<Item>, parent: Id)
    requires NoDuplicates([parent] + TreeIds(children))
    ensures WellFormed(Flat(children, parent))
    decreases children
  {
    if children != [] {
      hide NoDuplicates;
      var c, rest := children[0], children[1..];
      var head, below, after := HeadComment(c, parent), Flat(c.children, c.id), Flat(rest, parent);
      DistinctParts(parent, c.id, TreeIds(c.children), TreeIds(rest));
      FlatWellFormed(c.children, c.id);
      FlatWellFormed(rest, parent);
      FlatWithin(c.children, c.id);
      FlatWithin(rest, parent);
      HeadThenBelow(head, below, c, parent, TreeIds(c.children));
      ThenRest(head + below, after, c.id, parent, TreeIds(c.children), TreeIds(rest));
    }
  }

  lemma HeadThenBelow(head: seq<Comment>, below: seq<Comment>, c: Item, parent: Id, ids: seq<Id>)
    requires head == HeadComment(c, parent) && WellFormed(below) && Within(below, c.id, ids)
    requires c.id != parent && c.id !in ids && parent !in ids
    ensures WellFormed(head + below)
    ensures Within(head + below, parent, [c.id] + ids)
  {
    WellFormedConcat(head, below);
  }

  lemma ThenRest(a: seq<Comment>, b: seq<Comment>, id: Id, parent: Id, ids: seq<Id>, rest: seq<Id>)
    requires WellFormed(a) && WellFormed(b) && Within(a, parent, [id] + ids) && Within(b, parent, rest)
    requires id !in rest && parent !in rest && forall x :: x in ids ==> x !in rest
    ensures WellFormed(a + b)
  {
    forall i, j | 0 <= i < |a| && 0 <= j < |b|
      ensures a[i].id != b[j].id && a[i].parent != b[j].id
    {
      assert b[j].id in rest;
      assert a[i].id in [id] + ids && (a[i].parent == parent || a[i].parent in [id] + ids);
    }
    WellFormedConcat(a, b);
  }

  /** For any tree with distinct ids, one pass over its flattened comments gives
      each of them the root and depth it has in the tree. */
  lemma OnePassIndexIsTrue(children: seq<Item>, story: Id, i: nat)
    requires NoDuplicates([story] + TreeIds(children)) && i < |Places(children, None)|
    ensures var p := Places(children, None)[i];
            var idx := IndexOf(Flat(children, story));
            && p.id in idx.root && idx.root[p.id] == p.root
            && p.id in idx.depth && idx.depth[p.id] == p.depth
  {
    hide IndexFrom;
    var places := Places(children, None);
    IndexRecordsPlaces(NO_SUBTREES, children, story, None);
    PlacesMatch(children, story, None);
    FlatWellFormed(children, story);
    RecordedAt(NO_SUBTREES, places, i);
  }

  ghost predicate SameIds(places: seq<Place>, list: seq<Comment>) {
    |places| == |list| && forall i {:trigger places[i]} :: 0 <= i < |list| ==> places[i].id == list[i].id
  }

  lemma SameIdsConcat(a: seq<Place>, b: seq<Place>, c: seq<Comment>, d: seq<Comment>)
    requires SameIds(a, c) && SameIds(b, d)
    ensures SameIds(a + b, c + d)
  {
  }

  /** The places are those of the emitted comments, one each. */
  lemma {:induction false} PlacesMatch(children: seq<Item>, parent: Id, above: Option<Place>)
    ensures SameIds(Places(children, above), Flat(children, parent))
    decreases children
  {
    if children != [] {
      var c, rest := children[0], children[1..];
      PlacesMatch(c.children, c.id, AboveChildren(c, above));
      PlacesMatch(rest, parent, above);
      SameIdsConcat(HeadPlace(c, above), Places(c.children, AboveChildren(c, above)),
                    HeadComment(c, parent), Flat(c.children, c.id));
      SameIdsConcat(HeadPlace(c, above) + Places(c.children, AboveChildren(c, above)), Places(rest, above),
                    HeadComment(c, parent) + Flat(c.children, c.id), Flat(rest, parent));
    }
  }

  lemma {:induction false} RecordedAt(idx: SubtreeIndex, places: seq<Place>, i: nat)
    requires i < |places| && forall j, k :: 0 <= j < k < |places| ==> places[j].id != places[k].id
    ensures var p := places[i];
            var after := Record(idx, places);
            && p.id in after.root && after.root[p.id] == p.root
            && p.id in after.depth && after.depth[p.id] == p.depth
  {
    if i < |places| - 1 {
      assert places[..|places| - 1][i] == places[i];
      RecordedAt(idx, places[..|places| - 1], i);
    }
  }
}
