/** The three caps on a flattened Hacker News thread: whole top-level threads, then
    breadth inside each, then the whole list. A cap of zero or less is off. */
module HackerNewsCaps {
  import opened Instants
  import opened Threads
  import opened BreadthFirst
  import opened HackerNews

  // ----- what each cap keeps -----

  ghost predicate IsRoot(idx: SubtreeIndex, c: Comment) {
    c.id in idx.root && idx.root[c.id] == c.id
  }

  /** The ids of the top-level comments, in order. */
  ghost function RootsOf(list: seq<Comment>, idx: SubtreeIndex): seq<Id> {
    if list == [] then []
    else
      var front, last := RootsOf(list[..|list| - 1], idx), list[|list| - 1];
      if IsRoot(idx, last) then front + [last.id] else front
  }

  /** The ids that hang under one of the given roots. */
  ghost function Under(idx: SubtreeIndex, roots: seq<Id>): set<Id> {
    set id | id in idx.root && idx.root[id] in roots
  }

  ghost function TopCut(list: seq<Comment>, n: int): seq<Comment> {
    var roots := RootsOf(list, IndexOf(list));
    if n <= 0 || |roots| <= n then list else Filter(list, Under(IndexOf(list), roots[..n]))
  }

  ghost function ByThread(list: seq<Comment>): Ranking {
    Ranking(list, IndexOf(list).root, IndexOf(list).depth)
  }

  ghost function AsOne(list: seq<Comment>): Ranking {
    Ranking(list, map id | id in Ids(list) :: 0, IndexOf(list).depth)
  }

  ghost function SubtreeCut(list: seq<Comment>, n: int): seq<Comment> {
    if n <= 0 then list else Filter(list, First(ByThread(list), n))
  }

  ghost function FlatCut(list: seq<Comment>, n: int): seq<Comment> {
    if n <= 0 || |list| <= n then list else Filter(list, First(AsOne(list), n))
  }

  // ----- the caps in place -----

  lemma {:induction false} DepthsAreNatural(list: seq<Comment>)
    ensures forall id :: id in IndexOf(list).depth ==> 0 <= IndexOf(list).depth[id]
  {
    if list != [] {
      DepthsAreNatural(list[..|list| - 1]);
      assert IndexOf(list) == Indexed(IndexOf(list[..|list| - 1]), list[|list| - 1]);
    }
  }

  lemma RankingsValid(list: seq<Comment>)
    requires WellFormed(list)
    ensures ByThread(list).Valid() && AsOne(list).Valid() && OneGroup(AsOne(list), 0)
  {
    hide IndexOf;
    IndexFits(list);
    DepthsAreNatural(list);
    forall i | 0 <= i < |list|
      ensures list[i].id in Ids(list)
    {
    }
  }

  lemma RootsNext(list: seq<Comment>, idx: SubtreeIndex, i: nat)
    requires i < |list|
    ensures RootsOf(list[..i + 1], idx) ==
            if IsRoot(idx, list[i]) then RootsOf(list[..i], idx) + [list[i].id] else RootsOf(list[..i], idx)
  {
    assert list[..i + 1][..i] == list[..i];
  }

  ghost function Prefix(ids: seq<Id>, n: nat): seq<Id> {
    if n < |ids| then ids[..n] else ids
  }

  ghost function Taken(ids: seq<Id>, n: nat): set<Id> {
    set id | id in Prefix(ids, n)
  }

  lemma TakenNext(ids: seq<Id>, n: nat, id: Id)
    ensures Taken(ids + [id], n) == if |ids| < n then Taken(ids, n) + {id} else Taken(ids, n)
  {
    if |ids| < n {
      assert forall x :: x in ids + [id] <==> x in ids || x == id;
    } else {
      assert (ids + [id])[..n] == ids[..n];
    }
  }

  /** Counts the top-level comments and takes the first n of them. */
  method TakeRoots(list: seq<Comment>, idx: SubtreeIndex, n: nat) returns (keptRoots: set<Id>, roots: nat)
    requires FitsList(idx, list)
    ensures roots == |RootsOf(list, idx)| && keptRoots == Taken(RootsOf(list, idx), n)
  {
    hide Taken;
    keptRoots, roots := {}, 0;
    NoneTaken(n);
    for i := 0 to |list|
      invariant roots == |RootsOf(list[..i], idx)| && keptRoots == Taken(RootsOf(list[..i], idx), n)
    {
      var c := list[i];
      assert Lawful(idx, list, list[i]);
      RootsNext(list, idx, i);
      if idx.root[c.id] == c.id {
        TakenNext(RootsOf(list[..i], idx), n, c.id);
        if roots < n {
          keptRoots := keptRoots + {c.id};
        }
        roots := roots + 1;
      }
    }
    assert list[..|list|] == list;
  }

  lemma NoneTaken(n: nat)
    ensures Taken([], n) == {}
  {
  }

  /** Collects the ids that hang under a kept root. */
  method TakeUnder(list: seq<Comment>, idx: SubtreeIndex, keptRoots: set<Id>) returns (kept: set<Id>)
    requires FitsList(idx, list)
    ensures kept == set i: nat | i < |list| && UnderKept(list, idx, keptRoots, i) :: list[i].id
  {
    kept := {};
    for i := 0 to |list|
      invariant kept == set j: nat | j < i && UnderKept(list, idx, keptRoots, j) :: list[j].id
    {
      var c := list[i];
      assert Lawful(idx, list, list[i]);
      if idx.root[c.id] in keptRoots {
        kept := kept + {c.id};
      }
    }
  }

  ghost predicate UnderKept(list: seq<Comment>, idx: SubtreeIndex, keptRoots: set<Id>, i: nat) {
    i < |list| && list[i].id in idx.root && idx.root[list[i].id] in keptRoots
  }

  /** Keeps the first n top-level threads with every reply beneath them. */
  method CapTopLevel(t: Thread, n: int)
    requires t.Valid() && WellFormed(t.Comments())
    modifies t, t.buffer
    ensures t.Valid() && t.Comments() == TopCut(old(t.Comments()), n)
  {
    hide IndexOf, Filter, WellFormed, RootsOf, FitsList;
    if n <= 0 {
      return;
    }
    var comments := t.buffer[..t.count];
    var idx := IndexSubtrees(comments);
    IndexFits(comments);
    var keptRoots, roots := TakeRoots(comments, idx, n);
    if roots <= n {
      return;
    }
    var kept := TakeUnder(comments, idx, keptRoots);
    t.KeepOnly(kept);
    SameFilter(comments, kept, Under(idx, RootsOf(comments, idx)[..n]));
  }

  lemma {:induction false} SameFilter(list: seq<Comment>, a: set<Id>, b: set<Id>)
    requires forall i :: 0 <= i < |list| ==> (list[i].id in a <==> list[i].id in b)
    ensures Filter(list, a) == Filter(list, b)
  {
    if list != [] {
      SameFilter(list[..|list| - 1], a, b);
    }
  }

  /** Keeps at most n comments of every top-level thread, its root included. */
  method CapPerSubtree(t: Thread, n: int)
    requires t.Valid() && WellFormed(t.Comments())
    modifies t, t.buffer
    ensures t.Valid() && t.Comments() == SubtreeCut(old(t.Comments()), n)
  {
    hide IndexOf, Filter, WellFormed, First;
    if n <= 0 {
      return;
    }
    var comments := t.buffer[..t.count];
    var idx := IndexSubtrees(comments);
    RankingsValid(comments);
    var kept := TakePerGroup(Ranking(comments, idx.root, idx.depth), n);
    t.KeepOnly(kept);
  }

  /** Keeps at most n comments of the whole list. */
  method CapComments(t: Thread, n: int)
    requires t.Valid() && WellFormed(t.Comments())
    modifies t, t.buffer
    ensures t.Valid() && t.Comments() == FlatCut(old(t.Comments()), n)
  {
    hide IndexOf, Filter, WellFormed, First, Ids;
    if n <= 0 || t.count <= n {
      return;
    }
    var comments := t.buffer[..t.count];
    var idx := IndexSubtrees(comments);
    RankingsValid(comments);
    var kept := TakeByDepth(Ranking(comments, map id | id in Ids(comments) :: 0, idx.depth), n, 0);
    t.KeepOnly(kept);
  }

  // ----- what a cut keeps intact -----

  lemma {:induction false} FilterParentsFirst(list: seq<Comment>, kept: set<Id>)
    requires ParentsFirst(list)
    ensures ParentsFirst(Filter(list, kept))
  {
    if list != [] {
      var front, last := list[..|list| - 1], list[|list| - 1];
      FilterParentsFirst(front, kept);
      forall i | 0 <= i < |Filter(front, kept)|
        ensures Filter(front, kept)[i].parent != last.id
      {
        FilterMembers(front, kept, Filter(front, kept)[i]);
      }
    }
  }

  lemma FilterWellFormed(list: seq<Comment>, kept: set<Id>)
    requires WellFormed(list)
    ensures WellFormed(Filter(list, kept))
    ensures forall c :: c in Filter(list, kept) ==> c in list
  {
    FilterDistinct(list, kept);
    FilterParentsFirst(list, kept);
    forall c | c in Filter(list, kept)
      ensures c in list
    {
      FilterMembers(list, kept, c);
    }
  }

  /** A cut of a list: some of its comments in their order, never a reply without
      its emitted parent, every one with the root and depth it had. */
  ghost predicate CutOf(sub: seq<Comment>, list: seq<Comment>) {
    && (exists kept :: sub == Filter(list, kept))
    && WellFormed(sub)
    && ClosedIn(sub, list)
    && forall id :: id in Ids(sub) ==> SamePlace(IndexOf(list), IndexOf(sub), id)
  }

  lemma FilterIsCut(list: seq<Comment>, kept: set<Id>)
    requires WellFormed(list) && ClosedIn(Filter(list, kept), list)
    ensures CutOf(Filter(list, kept), list)
  {
    hide WellFormed, ClosedIn, Filter, IndexOf;
    var sub := Filter(list, kept);
    FilterWellFormed(list, kept);
    forall id | id in Ids(sub)
      ensures SamePlace(IndexOf(list), IndexOf(sub), id)
    {
      var i :| 0 <= i < |sub| && sub[i].id == id;
      PlacesStable(list, sub, i);
    }
  }

  lemma CutOfItself(list: seq<Comment>)
    requires WellFormed(list)
    ensures CutOf(list, list)
  {
    hide WellFormed;
    FilterAll(list, Ids(list));
    FilterIsCut(list, Ids(list));
  }

  lemma CutOfCut(a: seq<Comment>, b: seq<Comment>, c: seq<Comment>)
    requires CutOf(b, a) && CutOf(c, b)
    ensures CutOf(c, a)
  {
    hide WellFormed, IndexOf;
    var k :| b == Filter(a, k);
    var m :| c == Filter(b, m);
    FilterTwice(a, k, m);
    FilterIds(a, k);
    FilterIds(b, m);
    forall x | x in c && x.parent in Ids(a)
      ensures x.parent in Ids(c)
    {
      FilterMembers(b, m, x);
    }
  }

  /** A kept set that has every emitted parent of its members loses no parent. */
  lemma ParentsKept(list: seq<Comment>, kept: set<Id>)
    requires forall c :: c in list && c.id in kept && c.parent in Ids(list) ==> c.parent in kept
    ensures ClosedIn(Filter(list, kept), list)
  {
    hide Ids;
    FilterIds(list, kept);
    forall c | c in Filter(list, kept) && c.parent in Ids(list)
      ensures c.parent in Ids(Filter(list, kept))
    {
      FilterMembers(list, kept, c);
    }
  }

  // ----- top-level threads -----

  lemma RootOfParent(list: seq<Comment>, c: Comment)
    requires WellFormed(list) && c in list && c.parent in Ids(list)
    ensures var idx := IndexOf(list);
            && c.id in idx.root && c.parent in idx.root && idx.root[c.id] == idx.root[c.parent]
            && c.id in idx.depth && c.parent in idx.depth && idx.depth[c.id] == idx.depth[c.parent] + 1
  {
    hide IndexOf, Ids, WellFormed;
    IndexFits(list);
    var i :| 0 <= i < |list| && list[i] == c;
    assert Lawful(IndexOf(list), list, list[i]);
  }

  lemma TopCutIsCut(list: seq<Comment>, n: int)
    requires WellFormed(list)
    ensures CutOf(TopCut(list, n), list)
  {
    hide WellFormed, IndexOf, RootsOf, Ids, ClosedIn, CutOf;
    var roots := RootsOf(list, IndexOf(list));
    if n <= 0 || |roots| <= n {
      CutOfItself(list);
    } else {
      var kept := Under(IndexOf(list), roots[..n]);
      forall c | c in list && c.id in kept && c.parent in Ids(list)
        ensures c.parent in kept
      {
        RootOfParent(list, c);
      }
      ParentsKept(list, kept);
      FilterIsCut(list, kept);
    }
  }

  // ----- breadth-first cuts -----

  lemma ParentOutranks(r: Ranking, n: nat, list: seq<Comment>, c: Comment)
    requires r.list == list && r.depth == IndexOf(list).depth && WellFormed(list) && r.Valid()
    requires c in list && c.parent in Ids(list) && c.id in First(r, n)
    requires r.group == IndexOf(list).root || OneGroup(r, 0)
    ensures c.parent in First(r, n)
  {
    hide WellFormed, IndexOf, First, Rank;
    RootOfParent(list, c);
    var i :| 0 <= i < |list| && list[i] == c;
    var k :| 0 <= k < |list| && list[k].id == c.parent;
    ShallowerFirst(r, k, i);
    ChosenIsFirst(r, n, i);
    ChosenIsFirst(r, n, k);
  }

  lemma SubtreeCutIsCut(list: seq<Comment>, n: int)
    requires WellFormed(list)
    ensures CutOf(SubtreeCut(list, n), list)
  {
    hide WellFormed, IndexOf, First, Ids, ClosedIn, CutOf;
    if n <= 0 {
      CutOfItself(list);
    } else {
      RankingsValid(list);
      var kept := First(ByThread(list), n);
      forall c | c in list && c.id in kept && c.parent in Ids(list)
        ensures c.parent in kept
      {
        ParentOutranks(ByThread(list), n, list, c);
      }
      ParentsKept(list, kept);
      FilterIsCut(list, kept);
    }
  }

  lemma FlatCutIsCut(list: seq<Comment>, n: int)
    requires WellFormed(list)
    ensures CutOf(FlatCut(list, n), list)
  {
    hide WellFormed, IndexOf, First, Ids, ClosedIn, CutOf, OneGroup;
    if n <= 0 || |list| <= n {
      CutOfItself(list);
    } else {
      RankingsValid(list);
      var kept := First(AsOne(list), n);
      forall c | c in list && c.id in kept && c.parent in Ids(list)
        ensures c.parent in kept
      {
        ParentOutranks(AsOne(list), n, list, c);
      }
      ParentsKept(list, kept);
      FilterIsCut(list, kept);
    }
  }

  // ----- how much each cap keeps -----

  /** The ids of the comments under one root, the root included. */
  ghost function ThreadOf(list: seq<Comment>, root: Id): set<Id> {
    set id | id in IndexOf(list).root && IndexOf(list).root[id] == root
  }

  ghost function RootSet(list: seq<Comment>): set<Id> {
    set id | id in IndexOf(list).root && IndexOf(list).root[id] == id
  }

  lemma CutThreads(list: seq<Comment>, sub: seq<Comment>, kept: set<Id>, root: Id)
    requires WellFormed(list) && sub == Filter(list, kept) && CutOf(sub, list)
    ensures ThreadOf(sub, root) == ThreadOf(list, root) * kept
    ensures RootSet(sub) == RootSet(list) * kept
  {
    hide WellFormed, IndexOf, Ids, ClosedIn, Lawful;
    IndexFits(list);
    IndexFits(sub);
    FilterIds(list, kept);
    forall id
      ensures id in IndexOf(sub).root <==> id in IndexOf(list).root && id in kept
      ensures id in IndexOf(sub).root ==> IndexOf(sub).root[id] == IndexOf(list).root[id]
    {
      assert id in Ids(sub) <==> id in Ids(list) && id in kept;
      assert id in Ids(sub) ==> SamePlace(IndexOf(list), IndexOf(sub), id);
    }
  }

  lemma {:induction false} RootsAreRoots(list: seq<Comment>, idx: SubtreeIndex)
    requires DistinctIds(list)
    ensures forall id :: id in RootsOf(list, idx) <==> id in Ids(list) && id in idx.root && idx.root[id] == id
    ensures NoDuplicates(RootsOf(list, idx))
  {
    if list != [] {
      hide DistinctIds, Ids;
      LastIdIsNew(list);
      IdsSplit(list);
      RootsAreRoots(list[..|list| - 1], idx);
    } else {
      assert Ids(list) == {};
    }
  }

  /** The first cap keeps exactly the first n top-level comments, and with each of
      them its whole thread. */
  lemma TopCutKeepsWholeThreads(list: seq<Comment>, n: int, root: Id)
    requires WellFormed(list) && 0 < n
    ensures RootSet(TopCut(list, n)) == Taken(RootsOf(list, IndexOf(list)), n)
    ensures ThreadOf(TopCut(list, n), root) ==
            if root in Taken(RootsOf(list, IndexOf(list)), n) then ThreadOf(list, root) else {}
  {
    hide WellFormed, IndexOf, Ids, ClosedIn, Lawful, CutOf, RootsOf, Filter;
    var idx := IndexOf(list);
    var roots := RootsOf(list, idx);
    IndexFits(list);
    DistinctWhenWellFormed(list);
    RootsAreRoots(list, idx);
    TopCutIsCut(list, n);
    RootIsItsOwn(list, root);
    if n < |roots| {
      CutThreads(list, TopCut(list, n), Under(idx, roots[..n]), root);
      assert Prefix(roots, n) == roots[..n];
      forall id | id in roots[..n]
        ensures id in roots
      {
      }
    } else {
      assert Prefix(roots, n) == roots;
      forall id
        ensures id in RootSet(list) <==> id in roots
      {
        assert id in idx.root <==> id in Ids(list);
      }
    }
  }

  lemma DistinctWhenWellFormed(list: seq<Comment>)
    requires WellFormed(list)
    ensures DistinctIds(list)
  {
  }

  /** Every comment hangs under a top-level comment of the list. */
  lemma {:induction false} RootIsEmitted(list: seq<Comment>, i: nat)
    requires WellFormed(list) && i < |list|
    ensures var idx := IndexOf(list);
            var id := list[i].id;
            && id in idx.root && idx.root[id] in idx.root && idx.root[idx.root[id]] == idx.root[id]
    decreases i
  {
    hide IndexOf;
    IndexFits(list);
    assert Lawful(IndexOf(list), list, list[i]);
    if list[i].parent in Ids(list) {
      var j :| 0 <= j < |list| && list[j].id == list[i].parent;
      RootIsEmitted(list, j);
    }
  }

  lemma RootIsItsOwn(list: seq<Comment>, root: Id)
    requires WellFormed(list)
    ensures ThreadOf(list, root) != {} ==> root in RootSet(list)
  {
    hide IndexOf, WellFormed, Lawful;
    IndexFits(list);
    if id :| id in ThreadOf(list, root) {
      assert id in Ids(list);
      var i :| 0 <= i < |list| && list[i].id == id;
      RootIsEmitted(list, i);
    }
  }

  /** The second cap keeps exactly n comments of every thread, or all of a
      smaller one. */
  lemma SubtreeCutSizes(list: seq<Comment>, n: nat, root: Id)
    requires WellFormed(list) && 0 < n
    ensures |ThreadOf(SubtreeCut(list, n), root)| == Min(n, |ThreadOf(list, root)|)
  {
    hide WellFormed, IndexOf, Ids, CutOf, First, Filter;
    RankingsValid(list);
    SubtreeCutIsCut(list, n);
    CutThreads(list, SubtreeCut(list, n), First(ByThread(list), n), root);
    ThreadIsGroup(list, root);
    ChosenPerGroup(ByThread(list), n, root);
  }

  lemma ThreadIsGroup(list: seq<Comment>, root: Id)
    requires WellFormed(list)
    ensures ThreadOf(list, root) == Members(ByThread(list), root)
  {
    hide IndexOf, WellFormed, Lawful;
    IndexFits(list);
    forall id | id in ThreadOf(list, root)
      ensures id in Members(ByThread(list), root)
    {
      assert id in Ids(list);
      var i: nat :| i < |list| && list[i].id == id;
      assert InGroup(ByThread(list), i, root);
    }
  }

  lemma AllIsGroup(list: seq<Comment>)
    ensures Members(AsOne(list), 0) == Ids(list)
  {
    hide IndexOf;
    forall id | id in Ids(list)
      ensures id in Members(AsOne(list), 0)
    {
      var i: nat :| i < |list| && list[i].id == id;
      assert InGroup(AsOne(list), i, 0);
    }
  }

  /** The last cap keeps exactly n comments, or all of a shorter list, and none
      that is deeper than one it drops. */
  lemma FlatCutSize(list: seq<Comment>, n: nat)
    requires WellFormed(list) && 0 < n
    ensures |FlatCut(list, n)| == Min(n, |list|)
  {
    hide WellFormed, IndexOf, Ids, CutOf, First, Filter, OneGroup, Members, AsOne;
    if n < |list| {
      RankingsValid(list);
      DistinctWhenWellFormed(list);
      ChosenPerGroup(AsOne(list), n, 0);
      AllIsGroup(list);
      FilterSize(list, First(AsOne(list), n));
      IdsCount(list);
    }
  }

  lemma FlatCutIsShallowest(list: seq<Comment>, n: nat, kept: Comment, dropped: Comment)
    requires WellFormed(list) && 0 < n
    requires kept in FlatCut(list, n) && dropped in list && dropped !in FlatCut(list, n)
    ensures var depth := IndexOf(list).depth;
            kept.id in depth && dropped.id in depth && depth[kept.id] <= depth[dropped.id]
  {
    hide WellFormed, IndexOf, Ids, CutOf, First, OneGroup;
    RankingsValid(list);
    var r := AsOne(list);
    FilterMembers(list, First(r, n), kept);
    FilterMembers(list, First(r, n), dropped);
    var i :| 0 <= i < |list| && list[i] == kept;
    var k :| 0 <= k < |list| && list[k] == dropped;
    SameGroup(r, i, k);
    ChosenAreShallowest(r, n, i, k);
  }

  lemma SameGroup(r: Ranking, i: nat, k: nat)
    requires r.Valid() && OneGroup(r, 0) && i < |r.list| && k < |r.list|
    ensures r.group[r.list[i].id] == r.group[r.list[k].id] == 0
  {
  }

  // ----- the three caps in order -----

  ghost function AllCaps(list: seq<Comment>, topLevel: int, perSubtree: int, comments: int): seq<Comment> {
    FlatCut(SubtreeCut(TopCut(list, topLevel), perSubtree), comments)
  }

  /** Whatever the three caps are, what they leave of a thread is some of its
      comments in their order, never a reply without its emitted ancestors, each
      under the root and at the depth it had; under at most the allowed number of
      roots; and exactly as many comments as the last cap allows. */
  lemma CapsNeverOrphan(children: seq<Item>, story: Id, topLevel: int, perSubtree: int, comments: int)
    requires NoDuplicates([story] + TreeIds(children))
    ensures var list := Flat(children, story);
            var left := AllCaps(list, topLevel, perSubtree, comments);
            var before := SubtreeCut(TopCut(list, topLevel), perSubtree);
            && CutOf(left, list)
            && (0 < topLevel ==> |RootSet(left)| <= topLevel)
            && |left| == if 0 < comments then Min(comments, |before|) else |before|
  {
    hide WellFormed, CutOf, NoDuplicates, TreeIds, RootSet, TopCut, SubtreeCut;
    var list := Flat(children, story);
    FlatWellFormed(children, story);
    var a := TopCut(list, topLevel);
    TopCutIsCut(list, topLevel);
    CutIsWellFormed(a, list);
    var b := SubtreeCut(a, perSubtree);
    SubtreeCutIsCut(a, perSubtree);
    CutIsWellFormed(b, a);
    var c := FlatCut(b, comments);
    FlatCutIsCut(b, comments);
    CutOfCut(list, a, b);
    CutOfCut(list, b, c);
    CutOfCut(a, b, c);
    if 0 < comments {
      FlatCutSize(b, comments);
    }
    if 0 < topLevel {
      TopCutKeepsWholeThreads(list, topLevel, story);
      FewerRoots(a, c);
      TakenAtMost(RootsOf(list, IndexOf(list)), topLevel);
    }
  }

  lemma CutIsWellFormed(sub: seq<Comment>, list: seq<Comment>)
    requires CutOf(sub, list)
    ensures WellFormed(sub)
  {
  }

  lemma FewerRoots(list: seq<Comment>, sub: seq<Comment>)
    requires WellFormed(list) && CutOf(sub, list)
    ensures |RootSet(sub)| <= |RootSet(list)|
  {
    hide WellFormed, RootSet, SamePlace, ClosedIn;
    var kept :| sub == Filter(list, kept);
    CutThreads(list, sub, kept, 0);
    SubsetSize(RootSet(sub), RootSet(list));
  }

  lemma {:induction false} TakenAtMost(ids: seq<Id>, n: nat)
    ensures |Taken(ids, n)| <= n
  {
    if n == 0 {
      assert Taken(ids, 0) == {};
    } else if n <= |ids| {
      TakenAtMost(ids, n - 1);
      assert ids[..n] == ids[..n - 1] + [ids[n - 1]];
      assert Prefix(ids, n) == ids[..n];
      assert Taken(ids, n) == Taken(ids, n - 1) + {ids[n - 1]};
    } else {
      TakenAtMost(ids, n - 1);
      assert Prefix(ids, n) == ids == Prefix(ids, n - 1);
    }
  }
}
