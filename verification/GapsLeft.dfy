/** Which gaps and which comments a merge leaves, place by place. */
module GapsLeft {
  import opened Instants
  import opened Threads
  import opened GapExpansion

  // ----- the ids that stay in a gap -----

  ghost predicate Ascending(places: seq<nat>) {
    forall i, j :: 0 <= i < j < |places| ==> places[i] < places[j]
  }

  lemma PlacePushed(places: seq<nat>, n: nat)
    requires Ascending(places) && forall i :: 0 <= i < |places| ==> places[i] < n
    ensures Ascending(places + [n])
    ensures forall k: nat :: k in places + [n] <==> k in places || k == n
  {
  }

  /** What stays are the ids that were not asked for, each where it was. */
  lemma {:induction false} RestPlaces(ids: seq<Id>, fulfilled: set<Id>) returns (places: seq<nat>)
    ensures |places| == |Rest(ids, fulfilled)| && Ascending(places)
    ensures forall i :: 0 <= i < |places| ==> places[i] < |ids| && Rest(ids, fulfilled)[i] == ids[places[i]]
    ensures forall k: nat :: k in places <==> k < |ids| && ids[k] !in fulfilled
  {
    if ids == [] {
      places := [];
    } else {
      var n := |ids| - 1;
      hide Ascending;
      places := RestPlaces(ids[..n], fulfilled);
      assert forall k :: 0 <= k < n ==> ids[..n][k] == ids[k];
      if ids[n] !in fulfilled {
        PlacePushed(places, n);
        places := places + [n];
      }
    }
  }

  // ----- the gaps that stay -----

  /** Some of the gap's ids will not have been asked for, or it only links on. */
  ghost predicate Stays(gaps: seq<Gap>, used: set<nat>, ids: set<Id>, i: nat)
    requires i < |gaps|
  {
    gaps[i].more ==> exists k :: 0 <= k < |gaps[i].children| && !(i in used && gaps[i].children[k] in ids)
  }

  /** What a gap that stays has become: as it was, but for the ids asked for through
      it and the count of those it still has. */
  ghost predicate Became(before: Gap, after: Gap, used: bool, ids: set<Id>) {
    && after.more == before.more && after.parent == before.parent && after.depth == before.depth
    && if used then after.children == Rest(before.children, ids) && after.count == |after.children|
       else after == before
  }

  lemma {:induction false} OpenPlaces(gaps: seq<Gap>) returns (places: seq<nat>)
    ensures |places| == |Open(gaps)| && Ascending(places)
    ensures forall i :: 0 <= i < |places| ==> places[i] < |gaps| && Open(gaps)[i] == gaps[places[i]]
    ensures forall k: nat :: k in places <==> k < |gaps| && !(gaps[k].more && gaps[k].children == [])
  {
    if gaps == [] {
      places := [];
    } else {
      var n := |gaps| - 1;
      hide Ascending;
      places := OpenPlaces(gaps[..n]);
      assert forall k :: 0 <= k < n ==> gaps[..n][k] == gaps[k];
      if !(gaps[n].more && gaps[n].children == []) {
        PlacePushed(places, n);
        places := places + [n];
      }
    }
  }

  lemma StaysWithIds(gaps: seq<Gap>, used: set<nat>, ids: set<Id>, k: nat)
    requires k < |gaps|
    ensures Stays(gaps, used, ids, k) <==>
            !(gaps[k].more && Fulfilled(gaps, used, ids)[k].children == [])
  {
    var g := gaps[k];
    var left := RestPlaces(g.children, ids);
    if left != [] {
      assert left[0] in left;
      assert g.children[left[0]] !in ids;
    }
  }

  /** A merge keeps, in order, the gaps that only link on and those with an id not
      yet asked for through them, each as it was but for the ids asked for and its
      count, and appends the new ones. */
  lemma GapsAreLeft(gaps: seq<Gap>, used: set<nat>, ids: seq<Id>, more: seq<Gap>) returns (places: seq<nat>)
    ensures var after := GapsAfter(gaps, used, ids, more);
            && |after| == |places| + |more| && after[|places|..] == more && Ascending(places)
            && (forall i :: 0 <= i < |places| ==>
                  places[i] < |gaps| && Became(gaps[places[i]], after[i], places[i] in used, IdSet(ids)))
            && (forall k: nat :: k in places <==> k < |gaps| && Stays(gaps, used, IdSet(ids), k))
  {
    hide Rest, Open, Stays;
    var left := Fulfilled(gaps, used, IdSet(ids));
    places := OpenPlaces(left);
    forall k: nat | k < |gaps|
      ensures Stays(gaps, used, IdSet(ids), k) <==> !(left[k].more && left[k].children == [])
    {
      StaysWithIds(gaps, used, IdSet(ids), k);
    }
  }

  /** The gaps that only link on. */
  ghost function Links(gaps: seq<Gap>): seq<Gap> {
    if gaps == [] then []
    else
      var front, last := Links(gaps[..|gaps| - 1]), gaps[|gaps| - 1];
      if last.more then front else front + [last]
  }

  lemma {:induction false} LinksConcat(a: seq<Gap>, b: seq<Gap>)
    ensures Links(a + b) == Links(a) + Links(b)
  {
    if b == [] {
      assert a + b == a;
    } else {
      assert (a + b)[..|a + b| - 1] == a + b[..|b| - 1];
      LinksConcat(a, b[..|b| - 1]);
    }
  }

  lemma {:induction false} LinksOpen(gaps: seq<Gap>)
    ensures Links(Open(gaps)) == Links(gaps)
  {
    if gaps != [] {
      var front, last := gaps[..|gaps| - 1], gaps[|gaps| - 1];
      LinksOpen(front);
      assert (Open(front) + [last])[..|Open(front)|] == Open(front);
    }
  }

  lemma {:induction false} LinksFulfilled(gaps: seq<Gap>, used: set<nat>, ids: set<Id>)
    requires forall i :: 0 <= i < |gaps| && i in used ==> gaps[i].more
    ensures Links(Fulfilled(gaps, used, ids)) == Links(gaps)
  {
    hide Rest;
    if gaps != [] {
      var k := |gaps| - 1;
      LinksFulfilled(gaps[..k], used, ids);
      assert Fulfilled(gaps, used, ids)[..k] == Fulfilled(gaps[..k], used, ids);
    }
  }

  /** The gaps that only link on are, in order and unchanged, the old ones and then
      the new ones. */
  lemma LinksStay(gaps: seq<Gap>, used: set<nat>, ids: seq<Id>, more: seq<Gap>)
    requires forall i :: 0 <= i < |gaps| && i in used ==> gaps[i].more
    ensures Links(GapsAfter(gaps, used, ids, more)) == Links(gaps) + Links(more)
  {
    hide Links, Open, Fulfilled;
    LinksConcat(Open(Fulfilled(gaps, used, IdSet(ids))), more);
    LinksOpen(Fulfilled(gaps, used, IdSet(ids)));
    LinksFulfilled(gaps, used, IdSet(ids));
  }

  // ----- the comments that are added -----

  /** The comments added are the first of each id that was not known, in order. */
  lemma {:induction false} CommentsAreAdded(comments: seq<Comment>, more: seq<Comment>) returns (places: seq<nat>)
    ensures |Merged(comments, more)| == |comments| + |places| && comments <= Merged(comments, more)
    ensures Ascending(places)
    ensures forall i :: 0 <= i < |places| ==>
              places[i] < |more| && Merged(comments, more)[|comments| + i] == more[places[i]]
    ensures forall k: nat :: k in places <==>
              k < |more| && more[k].id !in Ids(comments) && more[k].id !in Ids(more[..k])
  {
    hide Ids;
    if more == [] {
      places := [];
    } else {
      var n := |more| - 1;
      var before := more[..n];
      places := CommentsAreAdded(comments, before);
      assert forall k: nat :: k < n ==> before[..k] == more[..k];
      MergedIds(comments, before);
      if more[n].id !in Ids(Merged(comments, before)) {
        PlacePushed(places, n);
        places := places + [n];
      }
    }
  }

  lemma {:induction false} MergedIds(comments: seq<Comment>, more: seq<Comment>)
    ensures Ids(Merged(comments, more)) == Ids(comments) + Ids(more)
  {
    if more == [] {
      assert Ids(more) == {};
    } else {
      hide Ids;
      var front, last := Merged(comments, more[..|more| - 1]), more[|more| - 1];
      MergedIds(comments, more[..|more| - 1]);
      IdsSplit(more);
      IdsSplit(front + [last]);
      assert (front + [last])[..|front|] == front;
    }
  }
}
