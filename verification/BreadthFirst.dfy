/** Breadth-first selection in a flat comment list: within each group, shallower
    comments come before deeper ones and equally deep ones in list order. The caps
    keep the first n of each group. */
module BreadthFirst {
  import opened Instants
  import opened Threads

  datatype Ranking = Ranking(list: seq<Comment>, group: map<Id, Id>, depth: map<Id, int>) {
    ghost predicate Valid() {
      && DistinctIds(list)
      && forall i :: 0 <= i < |list| ==> list[i].id in group && list[i].id in depth && 0 <= depth[list[i].id]
    }
  }

  ghost predicate InGroup(r: Ranking, i: nat, g: Id) {
    i < |r.list| && r.list[i].id in r.group && r.group[r.list[i].id] == g
  }

  /** The comment at place i comes before place k of depth d. */
  ghost predicate Before(r: Ranking, i: nat, d: int, k: nat) {
    && i < |r.list| && r.list[i].id in r.depth
    && var e := r.depth[r.list[i].id]; e < d || (e == d && i < k)
  }

  /** The group's members that come before place k of depth d. */
  ghost function Visited(r: Ranking, g: Id, d: int, k: nat): set<Id> {
    set i: nat | i < |r.list| && InGroup(r, i, g) && Before(r, i, d, k) :: r.list[i].id
  }

  ghost function Members(r: Ranking, g: Id): set<Id> {
    set i: nat | i < |r.list| && InGroup(r, i, g) :: r.list[i].id
  }

  /** How many of its own group come before the comment at place i. */
  ghost function Rank(r: Ranking, i: nat): nat
    requires r.Valid() && i < |r.list|
  {
    var id := r.list[i].id;
    |Visited(r, r.group[id], r.depth[id], i)|
  }

  ghost predicate Chosen(r: Ranking, n: int, i: nat) {
    r.Valid() && i < |r.list| && Rank(r, i) < n
  }

  /** The first n of each group. */
  ghost function First(r: Ranking, n: int): set<Id> {
    set i: nat | i < |r.list| && Chosen(r, n, i) :: r.list[i].id
  }

  lemma ChosenIsFirst(r: Ranking, n: int, i: nat)
    requires r.Valid() && i < |r.list|
    ensures r.list[i].id in First(r, n) <==> Rank(r, i) < n
  {
    hide Rank;
  }

  // ----- visiting in order -----

  lemma VisitNext(r: Ranking, g: Id, d: int, k: nat)
    requires r.Valid() && k < |r.list|
    ensures var id := r.list[k].id;
            if r.group[id] == g && r.depth[id] == d then
              id !in Visited(r, g, d, k) && Visited(r, g, d, k + 1) == Visited(r, g, d, k) + {id}
            else Visited(r, g, d, k + 1) == Visited(r, g, d, k)
  {
    var id, seen := r.list[k].id, Visited(r, g, d, k);
    forall i: nat | i < |r.list|
      ensures Before(r, i, d, k + 1) <==> Before(r, i, d, k) || (i == k && r.depth[id] == d)
    {
    }
    if r.group[id] == g && r.depth[id] == d {
      assert InGroup(r, k, g) && Before(r, k, d, k + 1);
      assert Visited(r, g, d, k + 1) == seen + {id};
    } else {
      assert Visited(r, g, d, k + 1) == seen;
    }
  }

  lemma VisitDeeper(r: Ranking, g: Id, d: int)
    requires r.Valid()
    ensures Visited(r, g, d + 1, 0) == Visited(r, g, d, |r.list|)
  {
    forall i: nat | i < |r.list|
      ensures Before(r, i, d + 1, 0) <==> Before(r, i, d, |r.list|)
    {
    }
  }

  lemma VisitNone(r: Ranking, g: Id)
    requires r.Valid()
    ensures Visited(r, g, 0, 0) == {}
  {
    assert forall i: nat :: !Before(r, i, 0, 0);
  }

  lemma VisitAll(r: Ranking, g: Id, d: int)
    requires r.Valid() && forall i :: 0 <= i < |r.list| ==> r.depth[r.list[i].id] < d
    ensures Visited(r, g, d, 0) == Members(r, g)
  {
    assert forall i: nat :: i < |r.list| ==> Before(r, i, d, 0);
  }

  lemma RankWhenVisited(r: Ranking, k: nat)
    requires r.Valid() && k < |r.list|
    ensures var id := r.list[k].id; Rank(r, k) == |Visited(r, r.group[id], r.depth[id], k)|
  {
  }

  // ----- how many are chosen -----

  lemma OneMoreChosen(seen: set<Id>, chosen: set<Id>, id: Id, n: nat)
    requires id !in seen && |seen * chosen| == Min(n, |seen|)
    requires id in chosen <==> |seen| < n
    ensures |(seen + {id}) * chosen| == Min(n, |seen + {id}|)
  {
    if id in chosen {
      assert (seen + {id}) * chosen == seen * chosen + {id};
    } else {
      assert (seen + {id}) * chosen == seen * chosen;
    }
  }

  /** Of what has been visited in a group, the first n are chosen. */
  lemma {:induction false} ChosenSoFar(r: Ranking, n: nat, g: Id, d: nat, k: nat)
    requires r.Valid() && k <= |r.list|
    ensures |Visited(r, g, d, k) * First(r, n)| == Min(n, |Visited(r, g, d, k)|)
    decreases d, k
  {
    hide Visited, First, Rank;
    if k == 0 {
      if d == 0 {
        VisitNone(r, g);
        assert {} * First(r, n) == {};
      } else {
        ChosenSoFar(r, n, g, d - 1, |r.list|);
        VisitDeeper(r, g, d - 1);
      }
    } else {
      ChosenSoFar(r, n, g, d, k - 1);
      ChosenNext(r, n, g, d, k - 1);
    }
  }

  lemma ChosenNext(r: Ranking, n: nat, g: Id, d: nat, k: nat)
    requires r.Valid() && k < |r.list|
    requires |Visited(r, g, d, k) * First(r, n)| == Min(n, |Visited(r, g, d, k)|)
    ensures |Visited(r, g, d, k + 1) * First(r, n)| == Min(n, |Visited(r, g, d, k + 1)|)
  {
    hide Visited, First, Rank;
    var id := r.list[k].id;
    VisitNext(r, g, d, k);
    if r.group[id] == g && r.depth[id] == d {
      RankWhenVisited(r, k);
      ChosenIsFirst(r, n, k);
      OneMoreChosen(Visited(r, g, d, k), First(r, n), id, n);
    }
  }

  lemma {:induction false} DeepestDepth(r: Ranking, k: nat) returns (deepest: nat)
    requires r.Valid() && k <= |r.list|
    ensures forall i :: 0 <= i < k ==> r.depth[r.list[i].id] < deepest
  {
    if k == 0 {
      deepest := 0;
    } else {
      deepest := DeepestDepth(r, k - 1);
      deepest := Max(deepest, r.depth[r.list[k - 1].id] + 1);
    }
  }

  /** Exactly n of every group are chosen, or the whole of a smaller one. */
  lemma ChosenPerGroup(r: Ranking, n: nat, g: Id)
    requires r.Valid()
    ensures |Members(r, g) * First(r, n)| == Min(n, |Members(r, g)|)
  {
    hide Visited, First, Members;
    var deepest := DeepestDepth(r, |r.list|);
    VisitAll(r, g, deepest);
    ChosenSoFar(r, n, g, deepest, 0);
  }

  // ----- who is chosen first -----

  lemma VisitedGrows(r: Ranking, g: Id, d: int, k: nat, e: int, m: nat)
    requires d < e || (d == e && k <= m)
    ensures Visited(r, g, d, k) <= Visited(r, g, e, m)
  {
    assert forall i: nat :: Before(r, i, d, k) ==> Before(r, i, e, m);
  }

  lemma SubsetSize(a: set<Id>, b: set<Id>)
    requires a <= b
    ensures |a| <= |b| && (a != b ==> |a| < |b|)
  {
    assert b == a + (b - a);
    if a != b {
      assert b - a != {};
    }
  }

  /** In one group, a shallower comment outranks every deeper one. */
  lemma ShallowerFirst(r: Ranking, i: nat, k: nat)
    requires r.Valid() && i < |r.list| && k < |r.list|
    requires r.group[r.list[i].id] == r.group[r.list[k].id] && r.depth[r.list[i].id] < r.depth[r.list[k].id]
    ensures Rank(r, i) < Rank(r, k)
  {
    var g, d, e := r.group[r.list[i].id], r.depth[r.list[i].id], r.depth[r.list[k].id];
    VisitedGrows(r, g, d, i, e, k);
    assert InGroup(r, i, g) && Before(r, i, e, k);
    assert r.list[i].id in Visited(r, g, e, k);
    assert !Before(r, i, d, i);
    assert r.list[i].id !in Visited(r, g, d, i);
    SubsetSize(Visited(r, g, d, i), Visited(r, g, e, k));
  }

  /** In one group no two comments have the same rank. */
  lemma RanksDiffer(r: Ranking, i: nat, k: nat)
    requires r.Valid() && i < |r.list| && k < |r.list| && i != k
    requires r.group[r.list[i].id] == r.group[r.list[k].id]
    ensures Rank(r, i) != Rank(r, k)
  {
    hide Rank;
    if r.depth[r.list[i].id] < r.depth[r.list[k].id] {
      ShallowerFirst(r, i, k);
    } else if r.depth[r.list[k].id] < r.depth[r.list[i].id] {
      ShallowerFirst(r, k, i);
    } else {
      EarlierFirst(r, if i < k then i else k, if i < k then k else i);
    }
  }

  /** In one group, of two equally deep comments the one listed first does. */
  lemma EarlierFirst(r: Ranking, i: nat, k: nat)
    requires r.Valid() && i < k < |r.list|
    requires r.group[r.list[i].id] == r.group[r.list[k].id] && r.depth[r.list[i].id] == r.depth[r.list[k].id]
    ensures Rank(r, i) < Rank(r, k)
  {
    var g, d := r.group[r.list[i].id], r.depth[r.list[i].id];
    VisitedGrows(r, g, d, i, d, k);
    assert InGroup(r, i, g) && Before(r, i, d, k);
    assert r.list[i].id in Visited(r, g, d, k);
    assert !Before(r, i, d, i);
    assert r.list[i].id !in Visited(r, g, d, i);
    SubsetSize(Visited(r, g, d, i), Visited(r, g, d, k));
  }

  /** A rank is a place among the comments of the list. */
  lemma RankBelowLength(r: Ranking, i: nat)
    requires r.Valid() && i < |r.list|
    ensures Rank(r, i) < |r.list|
  {
    var id := r.list[i].id;
    var before := Visited(r, r.group[id], r.depth[id], i);
    assert !Before(r, i, r.depth[id], i);
    assert id !in before && id in Ids(r.list);
    assert before <= Ids(r.list) - {id};
    SubsetSize(before, Ids(r.list) - {id});
    IdsCount(r.list);
  }

  lemma IdsCount(list: seq<Comment>)
    requires DistinctIds(list)
    ensures |Ids(list)| == |list|
  {
    hide Ids;
    FilterSize(list, Ids(list));
    FilterAll(list, Ids(list));
    assert Ids(list) * Ids(list) == Ids(list);
  }

  /** No chosen comment is deeper than one of its group that is not. */
  lemma ChosenAreShallowest(r: Ranking, n: int, i: nat, k: nat)
    requires r.Valid() && i < |r.list| && k < |r.list|
    requires r.group[r.list[i].id] == r.group[r.list[k].id]
    requires r.list[i].id in First(r, n) && r.list[k].id !in First(r, n)
    ensures r.depth[r.list[i].id] <= r.depth[r.list[k].id]
  {
    hide First, Rank;
    ChosenIsFirst(r, n, i);
    ChosenIsFirst(r, n, k);
    if r.depth[r.list[k].id] < r.depth[r.list[i].id] {
      ShallowerFirst(r, k, i);
    }
  }

  // ----- the selection loops -----

  /** What the loops have kept when they reach place k of depth d. */
  ghost function KeptSoFar(r: Ranking, n: int, d: int, k: nat): set<Id> {
    set i: nat | i < |r.list| && Chosen(r, n, i) && Before(r, i, d, k) :: r.list[i].id
  }

  lemma KeptNext(r: Ranking, n: int, d: int, k: nat)
    requires r.Valid() && k < |r.list|
    ensures KeptSoFar(r, n, d, k + 1) ==
            if r.depth[r.list[k].id] == d && Rank(r, k) < n then KeptSoFar(r, n, d, k) + {r.list[k].id}
            else KeptSoFar(r, n, d, k)
  {
    hide Rank;
    forall i: nat | i < |r.list|
      ensures Before(r, i, d, k + 1) <==> Before(r, i, d, k) || (i == k && r.depth[r.list[k].id] == d)
    {
    }
    assert Chosen(r, n, k) <==> Rank(r, k) < n;
  }

  lemma KeptDeeper(r: Ranking, n: int, d: int)
    requires r.Valid()
    ensures KeptSoFar(r, n, d + 1, 0) == KeptSoFar(r, n, d, |r.list|)
  {
    forall i: nat | i < |r.list|
      ensures Before(r, i, d + 1, 0) <==> Before(r, i, d, |r.list|)
    {
    }
  }

  lemma KeptNone(r: Ranking, n: int)
    requires r.Valid()
    ensures KeptSoFar(r, n, 0, 0) == {}
  {
    assert forall i: nat :: !Before(r, i, 0, 0);
  }

  lemma KeptAll(r: Ranking, n: int, d: int)
    requires r.Valid() && forall i :: 0 <= i < |r.list| ==> r.depth[r.list[i].id] < d
    ensures KeptSoFar(r, n, d, 0) == First(r, n)
  {
    assert forall i: nat :: i < |r.list| ==> Before(r, i, d, 0);
  }

  function CountOf(per: map<Id, int>, g: Id): int {
    if g in per then per[g] else 0
  }

  ghost predicate Counted(r: Ranking, n: nat, d: int, k: nat, per: map<Id, int>) {
    forall g :: CountOf(per, g) == Min(n, |Visited(r, g, d, k)|)
  }

  lemma CountedNone(r: Ranking, n: nat)
    requires r.Valid()
    ensures Counted(r, n, 0, 0, map[])
  {
    forall g
      ensures |Visited(r, g, 0, 0)| == 0
    {
      VisitNone(r, g);
    }
  }

  lemma CountedDeeper(r: Ranking, n: nat, d: int, per: map<Id, int>)
    requires r.Valid() && Counted(r, n, d, |r.list|, per)
    ensures Counted(r, n, d + 1, 0, per)
  {
    hide Visited;
    forall g
      ensures CountOf(per, g) == Min(n, |Visited(r, g, d + 1, 0)|)
    {
      VisitDeeper(r, g, d);
    }
  }

  /** Visiting one more comment counts it when its group still has room. */
  lemma CountedNext(r: Ranking, n: nat, d: int, k: nat, per: map<Id, int>)
    requires r.Valid() && k < |r.list| && Counted(r, n, d, k, per)
    ensures var id := r.list[k].id;
            var g := r.group[id];
            if r.depth[id] == d && CountOf(per, g) < n then
              Rank(r, k) < n && Counted(r, n, d, k + 1, per[g := CountOf(per, g) + 1])
            else (r.depth[id] == d ==> n <= Rank(r, k)) && Counted(r, n, d, k + 1, per)
  {
    hide Visited, Rank;
    var id := r.list[k].id;
    var h := r.group[id];
    RankWhenVisited(r, k);
    var more := if r.depth[id] == d && CountOf(per, h) < n then per[h := CountOf(per, h) + 1] else per;
    forall g
      ensures CountOf(more, g) == Min(n, |Visited(r, g, d, k + 1)|)
    {
      VisitNext(r, g, d, k);
      assert CountOf(per, g) == Min(n, |Visited(r, g, d, k)|);
    }
  }

  /** Takes the first n of each group, depth by depth. */
  method TakePerGroup(r: Ranking, n: nat) returns (kept: set<Id>)
    requires r.Valid()
    ensures kept == First(r, n)
  {
    hide Visited, First, Rank, KeptSoFar, Counted;
    var maxDepth := 0;
    for i := 0 to |r.list|
      invariant 0 <= maxDepth && forall j :: 0 <= j < i ==> r.depth[r.list[j].id] <= maxDepth
    {
      if r.depth[r.list[i].id] > maxDepth {
        maxDepth := r.depth[r.list[i].id];
      }
    }
    kept := {};
    var perGroup: map<Id, int> := map[];
    KeptNone(r, n);
    CountedNone(r, n);
    for d := 0 to maxDepth + 1
      invariant kept == KeptSoFar(r, n, d, 0) && Counted(r, n, d, 0, perGroup)
    {
      for k := 0 to |r.list|
        invariant kept == KeptSoFar(r, n, d, k) && Counted(r, n, d, k, perGroup)
      {
        var id := r.list[k].id;
        var g := r.group[id];
        KeptNext(r, n, d, k);
        CountedNext(r, n, d, k, perGroup);
        if r.depth[id] == d && !(CountOf(perGroup, g) >= n) {
          perGroup := perGroup[g := CountOf(perGroup, g) + 1];
          kept := kept + {id};
        }
      }
      KeptDeeper(r, n, d);
      CountedDeeper(r, n, d, perGroup);
    }
    KeptAll(r, n, maxDepth + 1);
  }

  // ----- the whole list as one group -----

  ghost predicate OneGroup(r: Ranking, g: Id) {
    forall i :: 0 <= i < |r.list| && r.list[i].id in r.group ==> r.group[r.list[i].id] == g
  }

  lemma KeptIsVisited(r: Ranking, n: nat, g: Id, d: nat, k: nat)
    requires r.Valid() && OneGroup(r, g) && k <= |r.list|
    ensures |KeptSoFar(r, n, d, k)| == Min(n, |Visited(r, g, d, k)|)
  {
    assert KeptSoFar(r, n, d, k) == Visited(r, g, d, k) * First(r, n) by {
      KeptAmongVisited(r, n, g, d, k);
    }
    ChosenSoFar(r, n, g, d, k);
  }

  lemma KeptAmongVisited(r: Ranking, n: nat, g: Id, d: nat, k: nat)
    requires r.Valid() && OneGroup(r, g)
    ensures KeptSoFar(r, n, d, k) == Visited(r, g, d, k) * First(r, n)
  {
    forall i: nat | i < |r.list|
      ensures InGroup(r, i, g)
    {
    }
    forall i: nat | i < |r.list|
      ensures r.list[i].id in KeptSoFar(r, n, d, k) <==> Before(r, i, d, k) && Chosen(r, n, i)
      ensures r.list[i].id in Visited(r, g, d, k) <==> Before(r, i, d, k)
      ensures r.list[i].id in First(r, n) <==> Chosen(r, n, i)
    {
      PlaceOf(r, i);
    }
  }

  /** An id names one place. */
  lemma PlaceOf(r: Ranking, i: nat)
    requires r.Valid() && i < |r.list|
    ensures forall j: nat :: j < |r.list| && r.list[j].id == r.list[i].id ==> j == i
  {
  }

  /** The ids at one depth among the first k comments, in list order. */
  ghost function Bucket(r: Ranking, d: int, k: nat): seq<Id>
    requires r.Valid() && k <= |r.list|
  {
    if k == 0 then []
    else
      var id := r.list[k - 1].id;
      if r.depth[id] == d then Bucket(r, d, k - 1) + [id] else Bucket(r, d, k - 1)
  }

  /** Past place k only deeper or shallower comments come before place m. */
  ghost predicate NoneAt(r: Ranking, d: int, k: nat, m: nat) {
    r.Valid() && k <= m <= |r.list| && forall i :: k <= i < m ==> r.depth[r.list[i].id] != d
  }

  lemma {:induction false} SkipsTo(r: Ranking, n: int, d: int, k: nat, m: nat)
    requires NoneAt(r, d, k, m)
    ensures KeptSoFar(r, n, d, m) == KeptSoFar(r, n, d, k) && Bucket(r, d, m) == Bucket(r, d, k)
    decreases m - k
  {
    if k < m {
      KeptNext(r, n, d, k);
      SkipsTo(r, n, d, k + 1, m);
    }
  }

  lemma {:induction false} BucketPrefix(r: Ranking, d: int, k: nat, m: nat)
    requires r.Valid() && k <= m <= |r.list|
    ensures |Bucket(r, d, k)| <= |Bucket(r, d, m)| && Bucket(r, d, m)[..|Bucket(r, d, k)|] == Bucket(r, d, k)
    decreases m
  {
    if k < m {
      BucketPrefix(r, d, k, m - 1);
    }
  }

  /** The place of the next id of a depth, with nothing of that depth in between. */
  lemma {:induction false} NextPlace(r: Ranking, n: int, d: int, k: nat) returns (m: nat)
    requires r.Valid() && k <= |r.list| && |Bucket(r, d, k)| < |Bucket(r, d, |r.list|)|
    ensures k <= m < |r.list| && Bucket(r, d, m) == Bucket(r, d, k)
    ensures r.depth[r.list[m].id] == d && r.list[m].id == Bucket(r, d, |r.list|)[|Bucket(r, d, k)|]
    ensures KeptSoFar(r, n, d, m) == KeptSoFar(r, n, d, k)
    decreases |r.list| - k
  {
    hide KeptSoFar;
    if r.depth[r.list[k].id] == d {
      m := k;
      BucketPrefix(r, d, k + 1, |r.list|);
      assert Bucket(r, d, k + 1)[|Bucket(r, d, k)|] == r.list[k].id;
    } else {
      SkipsTo(r, n, d, k, k + 1);
      m := NextPlace(r, n, d, k + 1);
    }
  }

  lemma {:induction false} NoMoreOf(r: Ranking, n: int, d: int, k: nat)
    requires r.Valid() && k <= |r.list| && Bucket(r, d, k) == Bucket(r, d, |r.list|)
    ensures KeptSoFar(r, n, d, k) == KeptSoFar(r, n, d, |r.list|)
    decreases |r.list| - k
  {
    hide KeptSoFar;
    if k < |r.list| {
      BucketPrefix(r, d, k + 1, |r.list|);
      SkipsTo(r, n, d, k, k + 1);
      NoMoreOf(r, n, d, k + 1);
    }
  }

  /** Once n are kept, the rest of the visit keeps nothing more. */
  lemma NoneAfterFull(r: Ranking, n: nat, g: Id, d: nat, k: nat)
    requires r.Valid() && OneGroup(r, g) && k <= |r.list| && n <= |KeptSoFar(r, n, d, k)|
    ensures KeptSoFar(r, n, d, k) == KeptSoFar(r, n, d + 1, 0)
  {
    hide First, Visited, Chosen;
    KeptIsVisited(r, n, g, d, k);
    KeptIsVisited(r, n, g, d + 1, 0);
    KeptGrows(r, n, d, k);
    SubsetSize(KeptSoFar(r, n, d, k), KeptSoFar(r, n, d + 1, 0));
  }

  lemma KeptGrows(r: Ranking, n: int, d: int, k: nat)
    requires r.Valid() && k <= |r.list|
    ensures KeptSoFar(r, n, d, k) <= KeptSoFar(r, n, d + 1, 0)
  {
    assert forall i: nat :: Before(r, i, d, k) ==> Before(r, i, d + 1, 0);
  }

  ghost predicate Bucketed(r: Ranking, byDepth: seq<seq<Id>>, k: nat) {
    && r.Valid() && k <= |r.list|
    && (forall i :: 0 <= i < k ==> r.depth[r.list[i].id] < |byDepth|)
    && (forall d :: 0 <= d < |byDepth| ==> byDepth[d] == Bucket(r, d, k))
  }

  lemma {:induction false} EmptyBucket(r: Ranking, d: int, k: nat)
    requires r.Valid() && k <= |r.list| && forall i :: 0 <= i < k ==> r.depth[r.list[i].id] < d
    ensures Bucket(r, d, k) == []
  {
    if 0 < k {
      EmptyBucket(r, d, k - 1);
    }
  }

  /** Sorts the ids into buckets by depth. */
  method SortByDepth(r: Ranking) returns (byDepth: seq<seq<Id>>)
    requires r.Valid()
    ensures Bucketed(r, byDepth, |r.list|)
  {
    byDepth := [];
    for k := 0 to |r.list|
      invariant Bucketed(r, byDepth, k)
    {
      var id := r.list[k].id;
      var d := r.depth[id];
      while |byDepth| <= d
        invariant Bucketed(r, byDepth, k)
        decreases d - |byDepth|
      {
        EmptyBucket(r, |byDepth|, k);
        byDepth := byDepth + [[]];
      }
      byDepth := byDepth[d := byDepth[d] + [id]];
    }
  }

  /** Takes the first n of the whole list, depth by depth. */
  method TakeByDepth(r: Ranking, n: nat, ghost g: Id) returns (kept: set<Id>)
    requires r.Valid() && OneGroup(r, g)
    ensures kept == First(r, n)
  {
    hide Visited, First, Rank, KeptSoFar, Bucket, OneGroup, Chosen;
    var byDepth := SortByDepth(r);
    kept := {};
    KeptNone(r, n);
    for d := 0 to |byDepth|
      invariant kept == KeptSoFar(r, n, d, 0)
    {
      kept := TakeBucket(r, n, byDepth[d], d, kept, g);
    }
    KeptAll(r, n, |byDepth|);
  }

  method TakeBucket(r: Ranking, n: nat, ids: seq<Id>, ghost d: nat, before: set<Id>, ghost g: Id)
    returns (kept: set<Id>)
    requires r.Valid() && OneGroup(r, g) && ids == Bucket(r, d, |r.list|)
    requires before == KeptSoFar(r, n, d, 0)
    ensures kept == KeptSoFar(r, n, d + 1, 0)
  {
    hide Visited, First, Rank, KeptSoFar, OneGroup, Chosen;
    kept := before;
    ghost var k: nat := 0;
    for m := 0 to |ids|
      invariant k <= |r.list| && Bucket(r, d, k) == ids[..m] && kept == KeptSoFar(r, n, d, k)
    {
      if |kept| >= n {
        NoneAfterFull(r, n, g, d, k);
        return;
      }
      k := NextPlace(r, n, d, k);
      KeptIsVisited(r, n, g, d, k);
      KeptNext(r, n, d, k);
      VisitedAt(r, g, k);
      kept := kept + {ids[m]};
      k := k + 1;
    }
    NoMoreOf(r, n, d, k);
    KeptDeeper(r, n, d);
  }

  lemma VisitedAt(r: Ranking, g: Id, k: nat)
    requires r.Valid() && OneGroup(r, g) && k < |r.list|
    ensures Rank(r, k) == |Visited(r, g, r.depth[r.list[k].id], k)|
  {
  }
}
