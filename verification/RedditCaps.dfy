/** The caps on a Reddit thread. Comments name their parents in any order, and a
    malformed thread may name them in a circle. */
module RedditCaps {
  import opened Instants
  import opened Threads
  import opened BreadthFirst

  type Parents = map<Id, Id>

  function ParentsOf(list: seq<Comment>): (parent: Parents)
    ensures forall i :: 0 <= i < |list| ==> list[i].id in parent
  {
    if list == [] then map[]
    else ParentsOf(list[..|list| - 1])[list[|list| - 1].id := list[|list| - 1].parent]
  }

  method MapParents(list: seq<Comment>) returns (parent: Parents)
    ensures parent == ParentsOf(list)
  {
    parent := map[];
    for i := 0 to |list|
      invariant parent == ParentsOf(list[..i])
    {
      assert list[..i + 1][..i] == list[..i];
      parent := parent[list[i].id := list[i].parent];
    }
    assert list[..|list|] == list;
  }

  ghost predicate Linked(list: seq<Comment>, parent: Parents) {
    forall i :: 0 <= i < |list| ==> list[i].id in parent && parent[list[i].id] == list[i].parent
  }

  lemma LinkedNext(front: seq<Comment>, last: Comment, before: Parents)
    requires Linked(front, before) && last.id !in before
    ensures Linked(front + [last], before[last.id := last.parent])
  {
  }

  lemma ParentsLast(list: seq<Comment>)
    requires list != []
    ensures ParentsOf(list) == ParentsOf(list[..|list| - 1])[list[|list| - 1].id := list[|list| - 1].parent]
  {
  }

  lemma NoParents(list: seq<Comment>)
    requires list == []
    ensures ParentsOf(list).Keys == Ids(list) && Linked(list, ParentsOf(list))
  {
  }

  lemma {:induction false} ParentsAre(list: seq<Comment>)
    requires DistinctIds(list)
    ensures ParentsOf(list).Keys == Ids(list) && Linked(list, ParentsOf(list))
  {
    if list == [] {
      NoParents(list);
    } else {
      hide Ids, DistinctIds, Linked, ParentsOf;
      var front, last := list[..|list| - 1], list[|list| - 1];
      LastIdIsNew(list);
      IdsSplit(list);
      ParentsLast(list);
      ParentsAre(front);
      LinkedNext(front, last, ParentsOf(front));
      assert front + [last] == list;
    }
  }

  lemma ParentsCount(list: seq<Comment>)
    requires DistinctIds(list)
    ensures |ParentsOf(list)| == |list|
  {
    hide Ids, ParentsOf;
    ParentsAre(list);
    IdsCount(list);
    assert |ParentsOf(list)| == |ParentsOf(list).Keys|;
  }

  // ----- depth by the parent chain -----

  /** The emitted parent of a comment, if it has one; a comment that names itself
      has none. */
  function Up(parent: Parents, id: Id): Option<Id> {
    if id in parent && parent[id] != id && parent[id] in parent then Some(parent[id]) else None
  }

  /** Where the chain from id is after the given hops, if it is that long. */
  ghost function Walk(parent: Parents, id: Id, hops: nat): Option<Id>
    decreases hops
  {
    if hops == 0 then Some(id)
    else if Up(parent, id).None? then None
    else Walk(parent, Up(parent, id).value, hops - 1)
  }

  ghost predicate Reaches(parent: Parents, a: Id, b: Id) {
    exists hops: nat :: 0 < hops && Walk(parent, a, hops) == Some(b)
  }

  ghost predicate OnCycle(parent: Parents, id: Id) {
    Reaches(parent, id, id)
  }

  lemma {:induction false} WalkFurther(parent: Parents, id: Id, hops: nat)
    ensures Walk(parent, id, hops + 1) ==
            if Walk(parent, id, hops).None? then None else Up(parent, Walk(parent, id, hops).value)
    decreases hops
  {
    if 0 < hops && Up(parent, id).Some? {
      WalkFurther(parent, Up(parent, id).value, hops - 1);
    } else if hops == 0 && Up(parent, id).Some? {
      assert Walk(parent, Up(parent, id).value, 0) == Up(parent, id);
    }
  }

  lemma ReachesUp(parent: Parents, a: Id, b: Id)
    requires (a == b || Reaches(parent, a, b)) && Up(parent, b).Some?
    ensures Reaches(parent, a, Up(parent, b).value)
  {
    if a == b {
      WalkFurther(parent, a, 0);
      assert Walk(parent, a, 1) == Up(parent, b);
    } else {
      var hops: nat :| 0 < hops && Walk(parent, a, hops) == Some(b);
      WalkFurther(parent, a, hops);
      assert Walk(parent, a, hops + 1) == Up(parent, b);
    }
  }

  lemma ReachesBack(parent: Parents, id: Id)
    requires Up(parent, id).Some? && Reaches(parent, Up(parent, id).value, id)
    ensures OnCycle(parent, id)
  {
    var hops: nat :| 0 < hops && Walk(parent, Up(parent, id).value, hops) == Some(id);
    assert Walk(parent, id, hops + 1) == Some(id);
  }

  /** The depth of a comment that is not on a cycle is one more than its parent's. */
  ghost predicate DepthLaw(parent: Parents, depth: map<Id, int>, working: set<Id>, id: Id) {
    id in depth && id !in working && !OnCycle(parent, id) ==>
      if Up(parent, id).Some? then
        && Up(parent, id).value in depth && Up(parent, id).value !in working
        && depth[id] == depth[Up(parent, id).value] + 1
      else depth[id] == 0
  }

  ghost predicate Memo(parent: Parents, depth: map<Id, int>, working: set<Id>) {
    && depth.Keys <= parent.Keys && working <= depth.Keys
    && (forall id :: id in depth ==> 0 <= depth[id])
    && (forall id :: DepthLaw(parent, depth, working, id))
  }

  /** The memo after asking for one more depth. The id being worked on holds a
      provisional 0, which is where a circle ends. */
  function Deepened(parent: Parents, depth: map<Id, int>, id: Id): (more: map<Id, int>)
    requires id in parent && depth.Keys <= parent.Keys
    ensures depth.Keys + {id} <= more.Keys <= parent.Keys
    decreases parent.Keys - depth.Keys
  {
    if id in depth then depth
    else if Up(parent, id).None? then depth[id := 0]
    else
      assert id in parent.Keys - depth.Keys && id !in parent.Keys - depth[id := 0].Keys;
      var above := Deepened(parent, depth[id := 0], parent[id]);
      above[id := above[parent[id]] + 1]
  }

  class Depths {
    const parent: Parents
    var depth: map<Id, int>

    constructor (parent: Parents)
      ensures this.parent == parent && depth == map[]
    {
      this.parent, depth := parent, map[];
    }

    /** Memoised depth. It ends on every parent map: each call not answered from
        the memo puts one more id in it. */
    method DepthOf(id: Id) returns (d: int)
      requires id in parent && depth.Keys <= parent.Keys
      modifies this
      ensures depth == Deepened(parent, old(depth), id) && d == depth[id]
      decreases parent.Keys - depth.Keys
    {
      if id in depth {
        return depth[id];
      }
      depth := depth[id := 0];
      d := 0;
      var p := parent[id];
      if p != id {
        if p in parent {
          assert id in parent.Keys - old(depth).Keys && id !in parent.Keys - depth.Keys;
          var above := DepthOf(p);
          d := above + 1;
        }
      }
      depth := depth[id := d];
    }
  }

  /** Asking for one more depth keeps the law, whoever waits for the answer below. */
  lemma {:induction false} DeepenedKeepsLaw(parent: Parents, depth: map<Id, int>, working: set<Id>, id: Id)
    requires id in parent && Memo(parent, depth, working)
    requires forall s :: s in working ==> Reaches(parent, s, id)
    ensures Memo(parent, Deepened(parent, depth, id), working)
    decreases parent.Keys - depth.Keys
  {
    if id !in depth {
      StartedMemo(parent, depth, depth[id := 0], working, id);
      if Up(parent, id).Some? {
        forall s | s in working + {id}
          ensures Reaches(parent, s, parent[id])
        {
          ReachesUp(parent, s, id);
        }
        DeepenedKeepsLaw(parent, depth[id := 0], working + {id}, parent[id]);
        FinishedMemo(parent, Deepened(parent, depth[id := 0], parent[id]), Deepened(parent, depth, id), working, id);
      } else {
        FinishedMemo(parent, depth[id := 0], depth[id := 0], working, id);
      }
    }
  }

  lemma StartedMemo(parent: Parents, depth: map<Id, int>, more: map<Id, int>, working: set<Id>, id: Id)
    requires Memo(parent, depth, working) && id in parent && id !in depth && more == depth[id := 0]
    ensures Memo(parent, more, working + {id})
  {
    hide OnCycle;
    forall x
      ensures DepthLaw(parent, more, working + {id}, x)
    {
      assert DepthLaw(parent, depth, working, x);
    }
  }

  lemma FinishedMemo(parent: Parents, before: map<Id, int>, depth: map<Id, int>, working: set<Id>, id: Id)
    requires Memo(parent, before, working + {id}) && id !in working && id in before
    requires id in depth && depth == before[id := depth[id]] && 0 <= depth[id]
    requires forall s :: s in working ==> Reaches(parent, s, id)
    requires if Up(parent, id).Some? then
               Up(parent, id).value in before && depth[id] == before[Up(parent, id).value] + 1
             else depth[id] == 0
    ensures Memo(parent, depth, working)
  {
    hide Reaches;
    if Up(parent, id).Some? && Up(parent, id).value in working {
      ReachesBack(parent, id);
    }
    forall x
      ensures DepthLaw(parent, depth, working, x)
    {
      assert DepthLaw(parent, before, working + {id}, x);
    }
  }

  // ----- the depths of a thread -----

  /** What the depths settle: every comment off the cycles is one deeper than its
      emitted parent, or at depth 0 without one. */
  ghost predicate Settled(parent: Parents, depth: map<Id, int>) {
    && depth.Keys == parent.Keys
    && Memo(parent, depth, {})
  }

  /** The depths of the first k comments, asked for in list order. */
  function DepthsUpTo(list: seq<Comment>, k: nat): (depth: map<Id, int>)
    requires k <= |list|
    ensures depth.Keys <= ParentsOf(list).Keys && forall i :: 0 <= i < k ==> list[i].id in depth
  {
    if k == 0 then map[] else Deepened(ParentsOf(list), DepthsUpTo(list, k - 1), list[k - 1].id)
  }

  function DepthsOf(list: seq<Comment>): map<Id, int> {
    DepthsUpTo(list, |list|)
  }

  method AllDepths(list: seq<Comment>, parent: Parents) returns (depth: map<Id, int>)
    requires parent == ParentsOf(list)
    ensures depth == DepthsOf(list)
  {
    hide ParentsOf, Deepened;
    var memo := new Depths(parent);
    for i := 0 to |list|
      invariant fresh(memo) && memo.parent == parent && memo.depth == DepthsUpTo(list, i)
    {
      var d := memo.DepthOf(list[i].id);
    }
    depth := memo.depth;
  }

  lemma {:induction false} DepthsKeepLaw(list: seq<Comment>, k: nat)
    requires k <= |list|
    ensures Memo(ParentsOf(list), DepthsUpTo(list, k), {})
  {
    hide Memo, Deepened;
    if k == 0 {
      EmptyMemo(ParentsOf(list));
    } else {
      DepthsKeepLaw(list, k - 1);
      DeepenedKeepsLaw(ParentsOf(list), DepthsUpTo(list, k - 1), {}, list[k - 1].id);
    }
  }

  /** The depths the loop computes obey the law, on every parent graph. */
  lemma DepthsSettled(list: seq<Comment>)
    requires DistinctIds(list)
    ensures Settled(ParentsOf(list), DepthsOf(list))
  {
    hide Memo, DistinctIds;
    DepthsKeepLaw(list, |list|);
    ParentsAre(list);
    MemoKeys(ParentsOf(list), DepthsOf(list), list);
  }

  lemma EmptyMemo(parent: Parents)
    ensures Memo(parent, map[], {})
  {
  }

  lemma MemoKeys(parent: Parents, depth: map<Id, int>, list: seq<Comment>)
    requires Memo(parent, depth, {}) && parent.Keys == Ids(list)
    requires forall j :: 0 <= j < |list| ==> list[j].id in depth
    ensures depth.Keys == parent.Keys
  {
  }

  /** The chain above id ends after exactly k hops. */
  ghost predicate EndsAfter(parent: Parents, id: Id, k: nat) {
    Walk(parent, id, k).Some? && Up(parent, Walk(parent, id, k).value).None?
  }

  lemma EndsUp(parent: Parents, id: Id, k: nat)
    requires EndsAfter(parent, id, k)
    ensures if k == 0 then Up(parent, id).None?
            else Up(parent, id).Some? && EndsAfter(parent, Up(parent, id).value, k - 1)
  {
  }

  lemma {:induction false} EndsOnce(parent: Parents, id: Id, k: nat, m: nat)
    requires EndsAfter(parent, id, k) && EndsAfter(parent, id, m)
    ensures k == m
    decreases k
  {
    if 0 < k && 0 < m {
      EndsOnce(parent, Up(parent, id).value, k - 1, m - 1);
    }
  }

  lemma {:induction false} WalkOn(parent: Parents, id: Id, j: nat, k: nat)
    requires j <= k && EndsAfter(parent, id, k)
    ensures Walk(parent, id, j).Some? && EndsAfter(parent, Walk(parent, id, j).value, k - j)
    decreases j
  {
    if 0 < j {
      EndsUp(parent, id, k);
      WalkOn(parent, Up(parent, id).value, j - 1, k - 1);
    }
  }

  lemma {:induction false} WalkStops(parent: Parents, id: Id, k: nat, hops: nat)
    requires EndsAfter(parent, id, k) && k < hops
    ensures Walk(parent, id, hops).None?
    decreases k
  {
    if 0 < k {
      EndsUp(parent, id, k);
      WalkStops(parent, Up(parent, id).value, k - 1, hops - 1);
    }
  }

  /** A chain that ends is on no cycle. */
  lemma EndingIsAcyclic(parent: Parents, id: Id, k: nat)
    requires EndsAfter(parent, id, k)
    ensures !OnCycle(parent, id)
  {
    if OnCycle(parent, id) {
      var hops: nat :| 0 < hops && Walk(parent, id, hops) == Some(id);
      if hops <= k {
        WalkOn(parent, id, hops, k);
        EndsOnce(parent, id, k, k - hops);
      } else {
        WalkStops(parent, id, k, hops);
      }
      assert false;
    }
  }

  /** Where the parent links make no circle, the depth is exactly the number of
      emitted ancestors. */
  lemma {:induction false} DepthIsExact(parent: Parents, depth: map<Id, int>, id: Id, k: nat)
    requires Settled(parent, depth) && id in parent && EndsAfter(parent, id, k)
    ensures depth[id] == k
    decreases k
  {
    hide OnCycle;
    EndingIsAcyclic(parent, id, k);
    EndsUp(parent, id, k);
    assert DepthLaw(parent, depth, {}, id);
    if 0 < k {
      DepthIsExact(parent, depth, Up(parent, id).value, k - 1);
    }
  }

  // ----- the absolute cap -----

  ghost function Whole(list: seq<Comment>): Ranking {
    Ranking(list, map id | id in Ids(list) :: 0, DepthsOf(list))
  }

  /** What the cap keeps of a list: the first n, breadth first. */
  ghost function FlatCut(list: seq<Comment>, n: int): seq<Comment> {
    if n <= 0 || |list| <= n then list else Filter(list, First(Whole(list), n))
  }

  lemma WholeIsValid(list: seq<Comment>)
    requires DistinctIds(list)
    ensures Whole(list).Valid() && OneGroup(Whole(list), 0)
  {
    hide DepthLaw, DepthsOf;
    ParentsAre(list);
    DepthsSettled(list);
    forall i | 0 <= i < |list|
      ensures list[i].id in Ids(list)
    {
    }
  }

  method CapComments(t: Thread, n: int)
    requires t.Valid() && DistinctIds(t.Comments())
    modifies t, t.buffer
    ensures t.Valid() && t.Comments() == FlatCut(old(t.Comments()), n)
  {
    hide Filter, First, Ids, DistinctIds, OneGroup, DepthsOf, ParentsOf;
    if n <= 0 || t.count <= n {
      return;
    }
    var comments := t.buffer[..t.count];
    var parent := MapParents(comments);
    var depth := AllDepths(comments, parent);
    WholeIsValid(comments);
    var kept := TakeByDepth(Ranking(comments, map id | id in Ids(comments) :: 0, depth), n, 0);
    t.KeepOnly(kept);
  }

  lemma WholeMembers(list: seq<Comment>)
    ensures Members(Whole(list), 0) == Ids(list)
  {
    hide DepthsOf;
    forall id | id in Ids(list)
      ensures id in Members(Whole(list), 0)
    {
      var i: nat :| i < |list| && list[i].id == id;
      assert InGroup(Whole(list), i, 0);
    }
  }

  /** Exactly n comments are kept, or all of a shorter list, cycles or not. */
  lemma CapKeepsExactly(list: seq<Comment>, n: nat)
    requires DistinctIds(list) && 0 < n
    ensures |FlatCut(list, n)| == Min(n, |list|)
  {
    hide Ids, DistinctIds, First, Filter, OneGroup, Members, DepthsOf;
    if n < |list| {
      WholeIsValid(list);
      WholeMembers(list);
      ChosenPerGroup(Whole(list), n, 0);
      FilterSize(list, First(Whole(list), n));
      IdsCount(list);
    }
  }

  /** No comment off the cycles is kept without its emitted parent. */
  lemma CapOrphansOnlyOnCycles(list: seq<Comment>, n: int, c: Comment)
    requires DistinctIds(list) && c in FlatCut(list, n)
    requires c.parent in Ids(list) && c.parent != c.id && !OnCycle(ParentsOf(list), c.id)
    ensures c.parent in Ids(FlatCut(list, n))
  {
    hide DistinctIds, First, Filter, OneGroup, OnCycle, Rank, Ids, DepthsOf;
    if 0 < n < |list| {
      var r := Whole(list);
      WholeIsValid(list);
      ParentsAre(list);
      DepthsSettled(list);
      FilterMembers(list, First(r, n), c);
      FilterIds(list, First(r, n));
      var i, k := PlaceOfParent(list, c);
      assert DepthLaw(ParentsOf(list), r.depth, {}, c.id);
      SameWhole(r, i, k);
      ShallowerFirst(r, k, i);
      ChosenIsFirst(r, n, i);
      ChosenIsFirst(r, n, k);
    }
  }

  lemma SameWhole(r: Ranking, i: nat, k: nat)
    requires r.Valid() && OneGroup(r, 0) && i < |r.list| && k < |r.list|
    ensures r.group[r.list[i].id] == r.group[r.list[k].id] == 0
  {
  }

  lemma PlaceOfParent(list: seq<Comment>, c: Comment) returns (i: nat, k: nat)
    requires c in list && c.parent in Ids(list)
    ensures i < |list| && list[i] == c && k < |list| && list[k].id == c.parent
  {
    i :| i < |list| && list[i] == c;
    k :| k < |list| && list[k].id == c.parent;
  }

  // ----- exactly when the absolute cap orphans nobody -----

  /** At every size, the comments the cap leaves have their emitted parents. */
  ghost predicate NeverOrphans(list: seq<Comment>) {
    forall n: int :: ClosedIn(FlatCut(list, n), list)
  }

  ghost predicate Acyclic(list: seq<Comment>) {
    forall c :: c in list ==> !OnCycle(ParentsOf(list), c.id)
  }

  ghost function RankOf(r: Ranking, id: Id): nat
    requires r.Valid() && id in Ids(r.list)
  {
    var i: nat :| i < |r.list| && r.list[i].id == id;
    Rank(r, i)
  }

  lemma RankAt(r: Ranking, i: nat)
    requires r.Valid() && i < |r.list|
    ensures r.list[i].id in Ids(r.list) && RankOf(r, r.list[i].id) == Rank(r, i)
  {
    hide Rank;
    PlaceOf(r, i);
  }

  /** If no cap orphans anybody, every comment is ranked behind its parent. */
  lemma ParentRanksFirst(list: seq<Comment>, id: Id)
    requires DistinctIds(list) && NeverOrphans(list) && Whole(list).Valid() && Up(ParentsOf(list), id).Some?
    ensures id in Ids(list) && Up(ParentsOf(list), id).value in Ids(list)
    ensures RankOf(Whole(list), Up(ParentsOf(list), id).value) < RankOf(Whole(list), id)
  {
    hide DistinctIds, NeverOrphans, First, Rank, RankOf, Ids, Filter, OneGroup, ParentsOf, DepthsOf;
    var r := Whole(list);
    ParentsAre(list);
    var i, k := PlacesUp(list, id);
    WholeIsValid(list);
    SameWhole(r, i, k);
    RankAt(r, i);
    RankAt(r, k);
    RanksDiffer(r, i, k);
    RankBelowLength(r, k);
    if Rank(r, i) + 1 < |list| {
      KeptBehindParent(list, i, k);
    }
  }

  lemma PlacesUp(list: seq<Comment>, id: Id) returns (i: nat, k: nat)
    requires DistinctIds(list) && Up(ParentsOf(list), id).Some?
    ensures i < |list| && k < |list| && i != k
    ensures list[i].id == id && list[k].id == list[i].parent == Up(ParentsOf(list), id).value
  {
    ParentsAre(list);
    i :| i < |list| && list[i].id == id;
    k :| k < |list| && list[k].id == Up(ParentsOf(list), id).value;
  }

  /** The cap that just keeps a comment keeps its parent too. */
  lemma KeptBehindParent(list: seq<Comment>, i: nat, k: nat)
    requires DistinctIds(list) && NeverOrphans(list) && Whole(list).Valid()
    requires i < |list| && k < |list| && list[i].parent == list[k].id && Rank(Whole(list), i) + 1 < |list|
    ensures Rank(Whole(list), k) <= Rank(Whole(list), i)
  {
    hide DistinctIds, First, Rank, Ids, Filter, DepthsOf;
    var r := Whole(list);
    var n := Rank(r, i) + 1;
    assert ClosedIn(FlatCut(list, n), list);
    RankAt(r, k);
    ChosenIsFirst(r, n, i);
    ChosenIsFirst(r, n, k);
    FilterMembers(list, First(r, n), list[i]);
    FilterIds(list, First(r, n));
  }

  lemma {:induction false} RankFalls(list: seq<Comment>, id: Id, hops: nat)
    requires DistinctIds(list) && NeverOrphans(list) && Whole(list).Valid()
    requires id in Ids(list) && 0 < hops && Walk(ParentsOf(list), id, hops).Some?
    ensures Walk(ParentsOf(list), id, hops).value in Ids(list)
    ensures RankOf(Whole(list), Walk(ParentsOf(list), id, hops).value) < RankOf(Whole(list), id)
    decreases hops
  {
    hide DistinctIds, NeverOrphans, RankOf, Ids, ParentsOf, Whole;
    ParentRanksFirst(list, id);
    if 1 < hops {
      RankFalls(list, Up(ParentsOf(list), id).value, hops - 1);
    }
  }

  lemma NoCycleThrough(list: seq<Comment>, c: Comment)
    requires DistinctIds(list) && NeverOrphans(list) && Whole(list).Valid() && c in list
    ensures !OnCycle(ParentsOf(list), c.id)
  {
    hide DistinctIds, NeverOrphans, RankOf, Ids, Whole, ParentsOf;
    IdIn(list, c.id);
    if OnCycle(ParentsOf(list), c.id) {
      var hops: nat :| 0 < hops && Walk(ParentsOf(list), c.id, hops) == Some(c.id);
      RankFalls(list, c.id, hops);
    }
  }

  lemma CapClosed(list: seq<Comment>, n: int)
    requires DistinctIds(list) && Acyclic(list)
    ensures ClosedIn(FlatCut(list, n), list)
  {
    hide OnCycle, FlatCut, Ids, ParentsOf;
    forall c | c in FlatCut(list, n) && c.parent in Ids(list)
      ensures c.parent in Ids(FlatCut(list, n))
    {
      LeftIsPart(list, n, c);
      IdIn(FlatCut(list, n), c.id);
      if c.parent != c.id {
        CapOrphansOnlyOnCycles(list, n, c);
      }
    }
  }

  lemma LeftIsPart(list: seq<Comment>, n: int, c: Comment)
    requires c in FlatCut(list, n)
    ensures c in list
  {
    hide First, Filter, Whole;
    if 0 < n < |list| {
      FilterMembers(list, First(Whole(list), n), c);
    }
  }

  /** The absolute cap, with the depths the code computes, orphans nobody at any
      size exactly when the thread's parent links make no circle: a circle always
      has a cap that splits it. */
  lemma CapNeverOrphansExactly(list: seq<Comment>)
    requires DistinctIds(list)
    ensures NeverOrphans(list) <==> Acyclic(list)
  {
    hide DistinctIds, FlatCut, Ids, OnCycle, Whole, ClosedIn, ParentsOf;
    if Acyclic(list) {
      forall n: int
        ensures ClosedIn(FlatCut(list, n), list)
      {
        CapClosed(list, n);
      }
    }
    if NeverOrphans(list) {
      WholeIsValid(list);
      forall c | c in list
        ensures !OnCycle(ParentsOf(list), c.id)
      {
        NoCycleThrough(list, c);
      }
    }
  }

  const CIRCLE := [Comment(1, 2, "a"), Comment(2, 1, "b")]

  /** Two comments that name each other: the second is found at depth 1, the first
      at depth 2, and a cap of one keeps the second without its parent. */
  lemma CircleIsSplit()
    ensures DistinctIds(CIRCLE) && DepthsOf(CIRCLE) == map[1 := 2, 2 := 1]
    ensures FlatCut(CIRCLE, 1) == [Comment(2, 1, "b")] && !ClosedIn(FlatCut(CIRCLE, 1), CIRCLE)
  {
    CircleDepths();
    CircleCut();
  }

  lemma CircleDepths()
    ensures DepthsOf(CIRCLE) == map[1 := 2, 2 := 1]
  {
    var parent: Parents := map[1 := 2, 2 := 1];
    assert CIRCLE[..1][..0] == [] && CIRCLE[..1] == [Comment(1, 2, "a")];
    assert ParentsOf(CIRCLE) == parent;
    assert Deepened(parent, map[1 := 0, 2 := 0], 1) == map[1 := 0, 2 := 0];
    assert Deepened(parent, map[1 := 0], 2) == map[1 := 0, 2 := 1];
    assert Deepened(parent, map[], 1) == map[1 := 2, 2 := 1];
    assert DepthsUpTo(CIRCLE, 0) == map[];
  }

  lemma CircleCut()
    requires DepthsOf(CIRCLE) == map[1 := 2, 2 := 1]
    ensures FlatCut(CIRCLE, 1) == [Comment(2, 1, "b")] && !ClosedIn(FlatCut(CIRCLE, 1), CIRCLE)
  {
    hide DepthsOf, Filter, Rank, First;
    var r := Whole(CIRCLE);
    WholeIsValid(CIRCLE);
    ShallowerFirst(r, 1, 0);
    ChosenIsFirst(r, 1, 0);
    FilterMembers(CIRCLE, First(r, 1), CIRCLE[0]);
    CapKeepsExactly(CIRCLE, 1);
    var left := FlatCut(CIRCLE, 1);
    FilterMembers(CIRCLE, First(r, 1), left[0]);
    assert left == [left[0]];
    assert left[0] == Comment(2, 1, "b");
    assert Ids(left) == {2};
    assert CIRCLE[0].id in Ids(CIRCLE);
  }

  // ----- the top-level cap -----

  /** The chain above id towards the post: it stops below the post, or where a
      comment is not emitted. */
  ghost predicate StopsAt(parent: Parents, post: Id, id: Id) {
    id !in parent || parent[id] == post
  }

  ghost predicate StopsAfter(parent: Parents, post: Id, id: Id, k: nat)
    decreases k
  {
    if k == 0 then StopsAt(parent, post, id)
    else !StopsAt(parent, post, id) && StopsAfter(parent, post, parent[id], k - 1)
  }

  /** Where a chain that stops after k hops stops. */
  ghost function StopOf(parent: Parents, post: Id, id: Id, k: nat): Id
    requires StopsAfter(parent, post, id, k)
    decreases k
  {
    if k == 0 then id else StopOf(parent, post, parent[id], k - 1)
  }

  /** The top-level comment a chain of any length leads to, if it leads to one. */
  ghost function RootOf(parent: Parents, post: Id, id: Id): Option<Id> {
    if k: nat :| StopsAfter(parent, post, id, k) && StopOf(parent, post, id, k) in parent
    then Some(StopOf(parent, post, id, k))
    else None
  }

  lemma {:induction false} StopsOnce(parent: Parents, post: Id, id: Id, k: nat, m: nat)
    requires StopsAfter(parent, post, id, k) && StopsAfter(parent, post, id, m)
    ensures k == m
    decreases k
  {
    if 0 < k && 0 < m {
      StopsOnce(parent, post, parent[id], k - 1, m - 1);
    }
  }

  /** The comments a stopping chain passes, all emitted and all different. */
  ghost function Passed(parent: Parents, post: Id, id: Id, k: nat): set<Id>
    requires StopsAfter(parent, post, id, k)
    decreases k
  {
    if k == 0 then {} else {id} + Passed(parent, post, parent[id], k - 1)
  }

  lemma {:induction false} PassedStops(parent: Parents, post: Id, id: Id, k: nat, x: Id) returns (j: nat)
    requires StopsAfter(parent, post, id, k) && x in Passed(parent, post, id, k)
    ensures 0 < j <= k && StopsAfter(parent, post, x, j) && x in parent
    decreases k
  {
    if x == id {
      j := k;
    } else {
      j := PassedStops(parent, post, parent[id], k - 1, x);
    }
  }

  /** Pigeonhole: a chain that stops at all passes each comment at most once, so
      it stops within as many hops as there are comments. */
  lemma {:induction false} StopsWithin(parent: Parents, post: Id, id: Id, k: nat)
    requires StopsAfter(parent, post, id, k)
    ensures Passed(parent, post, id, k) <= parent.Keys && |Passed(parent, post, id, k)| == k <= |parent.Keys|
    decreases k
  {
    if 0 < k {
      var rest := Passed(parent, post, parent[id], k - 1);
      StopsWithin(parent, post, parent[id], k - 1);
      if id in rest {
        var j := PassedStops(parent, post, parent[id], k - 1, id);
        StopsOnce(parent, post, id, k, j);
      }
      SubsetSize(Passed(parent, post, id, k), parent.Keys);
    }
  }

  lemma RootWhenStopped(parent: Parents, post: Id, id: Id, k: nat)
    requires StopsAfter(parent, post, id, k)
    ensures RootOf(parent, post, id) ==
            if StopOf(parent, post, id, k) in parent then Some(StopOf(parent, post, id, k)) else None
  {
    forall m: nat | StopsAfter(parent, post, id, m)
      ensures m == k
    {
      StopsOnce(parent, post, id, k, m);
    }
  }

  /** A comment hangs under the same top-level comment as its parent. */
  lemma RootUp(parent: Parents, post: Id, id: Id)
    requires !StopsAt(parent, post, id)
    ensures RootOf(parent, post, id) == RootOf(parent, post, parent[id])
  {
    if k: nat :| StopsAfter(parent, post, id, k) {
      RootWhenStopped(parent, post, id, k);
      RootWhenStopped(parent, post, parent[id], k - 1);
    } else if k: nat :| StopsAfter(parent, post, parent[id], k) {
      assert StopsAfter(parent, post, id, k + 1);
    }
  }

  /** A comment stays when its top-level one does, or when it leads to none. */
  ghost predicate Stays(parent: Parents, post: Id, kept: set<Id>, id: Id) {
    RootOf(parent, post, id).None? || RootOf(parent, post, id).value in kept
  }

  /** Walks up at most as many hops as there are comments, and decides as the
      chain of any length would. */
  method RootKept(parent: Parents, post: Id, kept: set<Id>, count: nat, id: Id) returns (keep: bool)
    requires |parent| <= count
    ensures keep == Stays(parent, post, kept, id)
  {
    var cur := id;
    for hops := 0 to count + 1
      invariant RootOf(parent, post, cur) == RootOf(parent, post, id)
      invariant forall k: nat :: StopsAfter(parent, post, id, k) ==>
        hops <= k && StopsAfter(parent, post, cur, k - hops)
    {
      if cur !in parent {
        RootWhenStopped(parent, post, cur, 0);
        return true;
      }
      if parent[cur] == post {
        RootWhenStopped(parent, post, cur, 0);
        return cur in kept;
      }
      RootUp(parent, post, cur);
      cur := parent[cur];
    }
    assert |parent.Keys| == |parent|;
    forall k: nat | StopsAfter(parent, post, id, k)
      ensures false
    {
      StopsWithin(parent, post, id, k);
    }
    return true;
  }

  /** The direct replies to the post, in order. */
  ghost function TopLevel(list: seq<Comment>, post: Id): seq<Id> {
    if list == [] then []
    else
      var front, last := TopLevel(list[..|list| - 1], post), list[|list| - 1];
      if last.parent == post then front + [last.id] else front
  }

  ghost function Staying(list: seq<Comment>, post: Id, kept: set<Id>): set<Id> {
    set i: nat | i < |list| && Stays(ParentsOf(list), post, kept, list[i].id) :: list[i].id
  }

  ghost function TopCut(list: seq<Comment>, post: Id, n: int): seq<Comment> {
    var tops := TopLevel(list, post);
    if n <= 0 || |tops| <= n then list else Filter(list, Staying(list, post, set id | id in tops[..n]))
  }

  /** The direct replies to the post are those, in the order of the list, whose parent
      it is. */
  lemma {:induction false} TopLevelExactly(list: seq<Comment>, post: Id) returns (places: seq<nat>)
    ensures |places| == |TopLevel(list, post)|
    ensures forall i, j :: 0 <= i < j < |places| ==> places[i] < places[j]
    ensures forall i :: 0 <= i < |places| ==> places[i] < |list| && TopLevel(list, post)[i] == list[places[i]].id
    ensures forall k: nat :: k in places <==> k < |list| && list[k].parent == post
  {
    if list == [] {
      places := [];
    } else {
      var n := |list| - 1;
      places := TopLevelExactly(list[..n], post);
      assert forall k :: 0 <= k < n ==> list[..n][k] == list[k];
      if list[n].parent == post {
        places := places + [n];
      }
    }
  }

  /** Counts the direct replies to the post and takes the first n. */
  method TakeTopLevel(list: seq<Comment>, post: Id, n: nat) returns (kept: set<Id>, roots: nat)
    ensures roots == |TopLevel(list, post)|
    ensures kept == set id | id in TopLevel(list, post)[..Min(n, roots)]
  {
    kept, roots := {}, 0;
    for i := 0 to |list|
      invariant roots == |TopLevel(list[..i], post)|
      invariant kept == set id | id in TopLevel(list[..i], post)[..Min(n, roots)]
    {
      assert list[..i + 1][..i] == list[..i];
      ghost var tops := TopLevel(list[..i], post);
      if list[i].parent == post {
        if roots < n {
          kept := kept + {list[i].id};
          assert tops[..roots] == tops && (tops + [list[i].id])[..roots + 1] == tops + [list[i].id];
        } else {
          assert (tops + [list[i].id])[..n] == tops[..n];
        }
        roots := roots + 1;
      }
    }
    assert list[..|list|] == list;
  }

  /** Keeps the first n top-level threads, in place. */
  method CapTopLevel(t: Thread, post: Id, n: int)
    requires t.Valid() && DistinctIds(t.Comments())
    modifies t, t.buffer
    ensures t.Valid() && t.Comments() == TopCut(old(t.Comments()), post, n)
  {
    hide Stays, TopLevel, RootOf;
    if n <= 0 {
      return;
    }
    var comments := t.buffer[..t.count];
    var parent := MapParents(comments);
    var kept, roots := TakeTopLevel(comments, post, n);
    if roots <= n {
      return;
    }
    DropThreads(t, parent, post, kept);
  }

  method DropThreads(t: Thread, parent: Parents, post: Id, kept: set<Id>)
    requires t.Valid() && DistinctIds(t.Comments()) && parent == ParentsOf(t.Comments())
    modifies t, t.buffer
    ensures t.Valid() && t.Comments() == Filter(old(t.Comments()), Staying(old(t.Comments()), post, kept))
  {
    hide RootOf, DistinctIds, Staying, Stays, Filter, Ids, Linked;
    ghost var list := t.Comments();
    ParentsAre(list);
    ParentsCount(list);
    NothingFiltered(Staying(list, post, kept));
    var filled := 0;
    for i := 0 to t.count
      invariant filled <= i <= t.count == |list|
      invariant forall j :: i <= j < t.count ==> t.buffer[j] == list[j]
      invariant t.buffer[..filled] == Filter(list[..i], Staying(list, post, kept))
    {
      var c := t.buffer[i];
      assert c == list[i];
      FilterNext(list, Staying(list, post, kept), i);
      StayingAt(list, post, kept, i);
      var keep := RootKept(parent, post, kept, t.count, c.id);
      if keep {
        t.buffer[filled] := c;
        filled := filled + 1;
      }
    }
    assert list[..t.count] == list;
    t.count := filled;
  }

  lemma StayingAt(list: seq<Comment>, post: Id, kept: set<Id>, i: nat)
    requires i < |list| && DistinctIds(list)
    ensures list[i].id in Staying(list, post, kept) <==> Stays(ParentsOf(list), post, kept, list[i].id)
  {
    hide Stays;
  }

  // ----- what the top-level cap keeps -----

  /** Whole threads stay or go: a reply stays exactly when its parent does. */
  lemma TopCutKeepsWholeThreads(list: seq<Comment>, post: Id, n: int, c: Comment)
    requires DistinctIds(list) && c in list && c.parent != post && c.parent in Ids(list)
    ensures c.id in Ids(TopCut(list, post, n)) <==> c.parent in Ids(TopCut(list, post, n))
  {
    hide DistinctIds, Ids, Stays, Filter, RootOf, Staying;
    var tops := TopLevel(list, post);
    var i, k := PlaceOfParent(list, c);
    IdIn(list, c.id);
    if 0 < n < |tops| {
      var kept := set id | id in tops[..n];
      ParentsAre(list);
      StayingAt(list, post, kept, i);
      StayingAt(list, post, kept, k);
      FilterIds(list, Staying(list, post, kept));
      RootUpStays(list, post, kept, i);
    }
  }

  lemma RootUpStays(list: seq<Comment>, post: Id, kept: set<Id>, i: nat)
    requires i < |list| && Linked(list, ParentsOf(list)) && list[i].parent != post
    ensures Stays(ParentsOf(list), post, kept, list[i].id) <==> Stays(ParentsOf(list), post, kept, list[i].parent)
  {
    hide RootOf;
    RootUp(ParentsOf(list), post, list[i].id);
  }

  /** A direct reply to the post stays exactly when it is among the first n, and a
      comment that leads to no direct reply always does. */
  lemma TopCutKeepsFirst(list: seq<Comment>, post: Id, n: nat, c: Comment)
    requires DistinctIds(list) && c in list && 0 < n < |TopLevel(list, post)|
    ensures c.parent == post ==> (c in TopCut(list, post, n) <==> c.id in TopLevel(list, post)[..n])
    ensures RootOf(ParentsOf(list), post, c.id).None? ==> c in TopCut(list, post, n)
  {
    hide DistinctIds, Ids, Filter, RootOf, Staying;
    var kept := set id | id in TopLevel(list, post)[..n];
    var i :| 0 <= i < |list| && list[i] == c;
    ParentsAre(list);
    StayingAt(list, post, kept, i);
    FilterMembers(list, Staying(list, post, kept), c);
    if c.parent == post {
      RootWhenStopped(ParentsOf(list), post, c.id, 0);
    }
  }

  lemma FilterOfDistinct(list: seq<Comment>, kept: set<Id>)
    requires DistinctIds(list)
    ensures DistinctIds(Filter(list, kept)) && |Filter(list, kept)| <= |list|
  {
    hide Ids;
    FilterDistinct(list, kept);
    FilterSize(list, kept);
    FilterSize(list, Ids(list));
    FilterAll(list, Ids(list));
    SubsetSize(Ids(list) * kept, Ids(list) * Ids(list));
  }

  /** The order of a crawl: threads first, then the ceiling. */
  method Cap(t: Thread, post: Id, maxTopLevel: int, maxComments: int)
    requires t.Valid() && DistinctIds(t.Comments())
    modifies t, t.buffer
    ensures t.Valid() && t.Comments() == FlatCut(TopCut(old(t.Comments()), post, maxTopLevel), maxComments)
  {
    hide TopLevel, Staying, Filter, DistinctIds, First, Whole;
    ghost var list := t.Comments();
    TopCutDistinct(list, post, maxTopLevel);
    if maxTopLevel > 0 {
      CapTopLevel(t, post, maxTopLevel);
    }
    if maxComments > 0 {
      CapComments(t, maxComments);
    }
  }

  lemma TopCutDistinct(list: seq<Comment>, post: Id, n: int)
    requires DistinctIds(list)
    ensures DistinctIds(TopCut(list, post, n))
  {
    hide DistinctIds, Staying, TopLevel;
    if 0 < n < |TopLevel(list, post)| {
      FilterOfDistinct(list, Staying(list, post, set id | id in TopLevel(list, post)[..n]));
    }
  }

  // ----- the two cuts of a crawl -----

  /** What the threads cut leaves is part of the thread, and whole threads of it. */
  lemma TopCutIsPart(list: seq<Comment>, post: Id, n: int, c: Comment)
    requires c in TopCut(list, post, n)
    ensures c in list
  {
    hide Staying, TopLevel;
    if 0 < n < |TopLevel(list, post)| {
      FilterMembers(list, Staying(list, post, set id | id in TopLevel(list, post)[..n]), c);
    }
  }

  /** A link of a part of the thread is a link of the thread. */
  lemma PartLinks(list: seq<Comment>, part: seq<Comment>, id: Id)
    requires DistinctIds(list) && DistinctIds(part) && (forall c :: c in part ==> c in list)
    requires Up(ParentsOf(part), id).Some?
    ensures Up(ParentsOf(list), id) == Up(ParentsOf(part), id)
  {
    hide ParentsOf;
    ParentsAre(list);
    ParentsAre(part);
    var i, k := PlacesUp(part, id);
    assert part[i] in list && part[k] in list;
    IdIn(list, part[i].id);
    var x :| 0 <= x < |list| && list[x] == part[i];
    var y :| 0 <= y < |list| && list[y] == part[k];
  }

  lemma {:induction false} PartWalks(list: seq<Comment>, part: seq<Comment>, id: Id, hops: nat)
    requires DistinctIds(list) && DistinctIds(part) && (forall c :: c in part ==> c in list)
    requires Walk(ParentsOf(part), id, hops).Some?
    ensures Walk(ParentsOf(list), id, hops) == Walk(ParentsOf(part), id, hops)
    decreases hops
  {
    hide DistinctIds, ParentsOf;
    if 0 < hops {
      PartLinks(list, part, id);
      PartWalks(list, part, Up(ParentsOf(part), id).value, hops - 1);
    }
  }

  lemma PartIsAcyclic(list: seq<Comment>, part: seq<Comment>)
    requires DistinctIds(list) && DistinctIds(part) && (forall c :: c in part ==> c in list)
    requires Acyclic(list)
    ensures Acyclic(part)
  {
    hide DistinctIds, ParentsOf, OnCycle;
    forall c | c in part
      ensures OnCycle(ParentsOf(part), c.id) ==> OnCycle(ParentsOf(list), c.id)
    {
      PartCycle(list, part, c.id);
    }
  }

  lemma PartCycle(list: seq<Comment>, part: seq<Comment>, id: Id)
    requires DistinctIds(list) && DistinctIds(part) && (forall c :: c in part ==> c in list)
    ensures OnCycle(ParentsOf(part), id) ==> OnCycle(ParentsOf(list), id)
  {
    hide DistinctIds, ParentsOf;
    if OnCycle(ParentsOf(part), id) {
      var hops: nat :| 0 < hops && Walk(ParentsOf(part), id, hops) == Some(id);
      PartWalks(list, part, id, hops);
    }
  }

  /** On a thread without circles a crawl's two cuts, whatever their sizes, keep a
      comment only with its emitted parent in the whole thread; the ceiling keeps
      exactly so many, or all that the first cut leaves. */
  lemma CrawlNeverOrphans(list: seq<Comment>, post: Id, maxTopLevel: int, maxComments: int)
    requires DistinctIds(list) && Acyclic(list)
    ensures var top := TopCut(list, post, maxTopLevel);
            var left := FlatCut(top, maxComments);
            && (forall c :: c in left ==> c in list)
            && (forall c :: c in left && c.parent in Ids(list) && c.parent != post ==> c.parent in Ids(left))
            && |left| == if maxComments <= 0 then |top| else Min(maxComments, |top|)
  {
    hide DistinctIds, Ids, Acyclic, TopCut, FlatCut;
    var top := TopCut(list, post, maxTopLevel);
    var left := FlatCut(top, maxComments);
    TopCutDistinct(list, post, maxTopLevel);
    forall c | c in top
      ensures c in list
    {
      TopCutIsPart(list, post, maxTopLevel, c);
    }
    PartIsAcyclic(list, top);
    CapClosed(top, maxComments);
    forall c | c in left
      ensures c in top && c in list
      ensures c.parent in Ids(list) && c.parent != post ==> c.parent in Ids(left)
    {
      LeftIsPart(top, maxComments, c);
      IdIn(top, c.id);
      if c.parent in Ids(list) && c.parent != post {
        TopCutKeepsWholeThreads(list, post, maxTopLevel, c);
      }
    }
    CrawlSize(top, maxComments);
  }

  lemma CrawlSize(list: seq<Comment>, n: int)
    requires DistinctIds(list)
    ensures |FlatCut(list, n)| == if n <= 0 then |list| else Min(n, |list|)
  {
    hide DistinctIds, First, Whole, Filter;
    if 0 < n {
      CapKeepsExactly(list, n);
    }
  }

  /** No setting of the two caps ever orphans a reply exactly when the thread makes
      no circle, the post being none of its comments. */
  lemma CrawlNeverOrphansExactly(list: seq<Comment>, post: Id)
    requires DistinctIds(list) && post !in Ids(list)
    ensures (forall t: int, n: int :: ClosedIn(FlatCut(TopCut(list, post, t), n), list)) <==> Acyclic(list)
  {
    hide DistinctIds, Ids, Acyclic, FlatCut;
    if Acyclic(list) {
      forall t: int, n: int
        ensures ClosedIn(FlatCut(TopCut(list, post, t), n), list)
      {
        CrawlNeverOrphans(list, post, t, n);
      }
    }
    if forall t: int, n: int :: ClosedIn(FlatCut(TopCut(list, post, t), n), list) {
      assert TopCut(list, post, 0) == list;
      forall n: int
        ensures ClosedIn(FlatCut(list, n), list)
      {
        assert ClosedIn(FlatCut(TopCut(list, post, 0), n), list);
      }
      CapNeverOrphansExactly(list);
    }
  }
}
