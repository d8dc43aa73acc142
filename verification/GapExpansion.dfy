/** Reddit's "load more" gaps: each round asks for a batch of the pending comment
    ids, and what comes back is merged into the thread. */
module GapExpansion {
  import opened Instants
  import opened Threads

  /** more tells a gap with child ids from one that only links on. */
  datatype Gap = Gap(more: bool, parent: Id, depth: int, count: int, children: seq<Id>)

  const MAX_BATCH := 100

  /** The ids still to be fetched, in the order the gaps list them. */
  function Pending(gaps: seq<Gap>): seq<Id> {
    if gaps == [] then []
    else
      var g := gaps[|gaps| - 1];
      Pending(gaps[..|gaps| - 1]) + if g.more then g.children else []
  }

  /** The ids not among those fulfilled, in order. */
  function Rest(ids: seq<Id>, fulfilled: set<Id>): seq<Id> {
    if ids == [] then []
    else
      var front, last := Rest(ids[..|ids| - 1], fulfilled), ids[|ids| - 1];
      if last in fulfilled then front else front + [last]
  }

  /** The gap takes part in a batch: the ones in front of it left room. */
  ghost predicate Used(gaps: seq<Gap>, i: nat) {
    i < |gaps| && gaps[i].more && gaps[i].children != [] && |Pending(gaps[..i])| < MAX_BATCH
  }

  ghost function Shrunk(g: Gap, fulfilled: set<Id>): Gap {
    g.(children := Rest(g.children, fulfilled), count := |Rest(g.children, fulfilled)|)
  }

  /** The gaps once a batch has been answered: those used lose the ids requested. */
  ghost function Fulfilled(gaps: seq<Gap>, used: set<nat>, ids: set<Id>): seq<Gap> {
    seq(|gaps|, i requires 0 <= i < |gaps| => if i in used then Shrunk(gaps[i], ids) else gaps[i])
  }

  /** Gaps with nothing left to load are dropped. */
  ghost function Open(gaps: seq<Gap>): seq<Gap> {
    if gaps == [] then []
    else
      var front, last := Open(gaps[..|gaps| - 1]), gaps[|gaps| - 1];
      if last.more && last.children == [] then front else front + [last]
  }

  /** The comments with the new ones that were not known yet. */
  ghost function Merged(comments: seq<Comment>, more: seq<Comment>): seq<Comment> {
    if more == [] then comments
    else
      var front, last := Merged(comments, more[..|more| - 1]), more[|more| - 1];
      if last.id in Ids(front) then front else front + [last]
  }

  ghost function GapsAfter(gaps: seq<Gap>, used: set<nat>, ids: seq<Id>, more: seq<Gap>): seq<Gap> {
    Open(Fulfilled(gaps, used, IdSet(ids))) + more
  }

  // ----- one round's batch -----

  /** Adds a gap's ids to the batch while it has room. */
  method FillFrom(batch: seq<Id>, children: seq<Id>) returns (fuller: seq<Id>)
    requires |batch| < MAX_BATCH
    ensures fuller == (batch + children)[..Min(MAX_BATCH, |batch + children|)]
  {
    fuller := batch;
    for k := 0 to |children|
      invariant fuller == batch + children[..k] && |fuller| <= MAX_BATCH
    {
      if |fuller| >= MAX_BATCH {
        break;
      }
      fuller := fuller + [children[k]];
    }
  }

  /** Collects up to a batch of ids from the gaps in front. */
  method NextBatch(gaps: seq<Gap>) returns (batch: seq<Id>, used: set<nat>)
    ensures batch == Pending(gaps)[..Min(MAX_BATCH, |Pending(gaps)|)]
    ensures used == set i: nat | i < |gaps| && Used(gaps, i)
  {
    hide Pending;
    batch, used := [], {};
    NothingPending();
    var i := 0;
    while i < |gaps|
      invariant i <= |gaps|
      invariant batch == Pending(gaps[..i]) && |batch| < MAX_BATCH
      invariant used == set j: nat | j < i && Used(gaps, j)
    {
      var g := gaps[i];
      PendingNext(gaps, i);
      if !g.more || |g.children| == 0 {
        i := i + 1;
        continue;
      }
      batch := FillFrom(batch, g.children);
      used := used + {i};
      PendingPrefix(gaps, i + 1);
      if |batch| >= MAX_BATCH {
        assert batch == Pending(gaps[..i + 1])[..MAX_BATCH];
        NoneUsedAfter(gaps, i + 1);
        return;
      }
      i := i + 1;
    }
    assert gaps[..|gaps|] == gaps;
  }

  lemma NothingPending()
    ensures Pending([]) == []
  {
  }

  lemma PendingNext(gaps: seq<Gap>, i: nat)
    requires i < |gaps|
    ensures Pending(gaps[..i + 1]) == Pending(gaps[..i]) + if gaps[i].more then gaps[i].children else []
  {
    assert gaps[..i + 1][..i] == gaps[..i];
  }

  lemma {:induction false} PendingPrefix(gaps: seq<Gap>, i: nat)
    requires i <= |gaps|
    ensures |Pending(gaps[..i])| <= |Pending(gaps)|
    ensures Pending(gaps)[..|Pending(gaps[..i])|] == Pending(gaps[..i])
  {
    if i < |gaps| {
      PendingPrefix(gaps[..|gaps| - 1], i);
      assert gaps[..|gaps| - 1][..i] == gaps[..i];
    } else {
      assert gaps[..i] == gaps;
    }
  }

  lemma NoneUsedAfter(gaps: seq<Gap>, i: nat)
    requires i <= |gaps| && MAX_BATCH <= |Pending(gaps[..i])|
    ensures forall j: nat :: i <= j < |gaps| ==> !Used(gaps, j)
  {
    forall j: nat | i <= j < |gaps|
      ensures MAX_BATCH <= |Pending(gaps[..j])|
    {
      PendingPrefix(gaps[..j], i);
      assert gaps[..j][..i] == gaps[..i];
    }
  }

  // ----- merging -----

  class RedditThread {
    var comments: seq<Comment>
    var gaps: seq<Gap>

    constructor (comments: seq<Comment>, gaps: seq<Gap>)
      ensures this.comments == comments && this.gaps == gaps
    {
      this.comments, this.gaps := comments, gaps;
    }

    /** Folds what a round brought into the thread. */
    method MergeExpanded(more: seq<Comment>, moreGaps: seq<Gap>, requested: seq<Id>, used: set<nat>)
      modifies this
      ensures comments == Merged(old(comments), more)
      ensures gaps == GapsAfter(old(gaps), used, requested, moreGaps)
    {
      AppendNew(more);
      Shrink(requested, used);
      DropEmpty();
      gaps := gaps + moreGaps;
    }

    method AppendNew(more: seq<Comment>)
      modifies this`comments
      ensures comments == Merged(old(comments), more)
    {
      var seen := Ids(comments);
      for i := 0 to |more|
        invariant comments == Merged(old(comments), more[..i]) && seen == Ids(comments)
      {
        assert more[..i + 1][..i] == more[..i];
        if more[i].id !in seen {
          seen := seen + {more[i].id};
          comments := comments + [more[i]];
          IdsSplit(comments);
        }
      }
      assert more[..|more|] == more;
    }

    /** Takes the requested ids out of the gaps that were used. */
    method Shrink(requested: seq<Id>, used: set<nat>)
      modifies this`gaps
      ensures gaps == Fulfilled(old(gaps), used, IdSet(requested))
    {
      hide Rest;
      var fulfilled := IdSet(requested);
      for i := 0 to |gaps|
        invariant |gaps| == |old(gaps)|
        invariant forall j :: 0 <= j < i ==>
          gaps[j] == if j in used then Shrunk(old(gaps)[j], fulfilled) else old(gaps)[j]
        invariant forall j :: i <= j < |gaps| ==> gaps[j] == old(gaps)[j]
      {
        if i in used {
          var remaining := Remaining(gaps[i].children, fulfilled);
          gaps := gaps[i := gaps[i].(children := remaining, count := |remaining|)];
        }
      }
    }

    method Remaining(children: seq<Id>, fulfilled: set<Id>) returns (remaining: seq<Id>)
      ensures remaining == Rest(children, fulfilled)
    {
      remaining := [];
      for k := 0 to |children|
        invariant remaining == Rest(children[..k], fulfilled)
      {
        assert children[..k + 1][..k] == children[..k];
        if children[k] !in fulfilled {
          remaining := remaining + [children[k]];
        }
      }
      assert children[..|children|] == children;
    }

    method DropEmpty()
      modifies this`gaps
      ensures gaps == Open(old(gaps))
    {
      var keep := [];
      for i := 0 to |gaps|
        invariant gaps == old(gaps) && keep == Open(gaps[..i])
      {
        assert gaps[..i + 1][..i] == gaps[..i];
        if !(gaps[i].more && |gaps[i].children| == 0) {
          keep := keep + [gaps[i]];
        }
      }
      assert gaps[..|gaps|] == gaps;
      gaps := keep;
    }
  }

  // ----- what a round does to the pending ids -----

  lemma {:induction false} PendingConcat(a: seq<Gap>, b: seq<Gap>)
    ensures Pending(a + b) == Pending(a) + Pending(b)
  {
    if b == [] {
      assert a + b == a;
    } else {
      assert (a + b)[..|a + b| - 1] == a + b[..|b| - 1];
      PendingConcat(a, b[..|b| - 1]);
    }
  }

  lemma {:induction false} PendingOpen(gaps: seq<Gap>)
    ensures Pending(Open(gaps)) == Pending(gaps)
  {
    if gaps != [] {
      var front, last := gaps[..|gaps| - 1], gaps[|gaps| - 1];
      PendingOpen(front);
      assert (Open(front) + [last])[..|Open(front)|] == Open(front);
    }
  }

  lemma {:induction false} RestConcat(a: seq<Id>, b: seq<Id>, fulfilled: set<Id>)
    ensures Rest(a + b, fulfilled) == Rest(a, fulfilled) + Rest(b, fulfilled)
  {
    if b == [] {
      assert a + b == a;
    } else {
      assert (a + b)[..|a + b| - 1] == a + b[..|b| - 1];
      RestConcat(a, b[..|b| - 1], fulfilled);
    }
  }

  lemma {:induction false} RestNone(ids: seq<Id>, fulfilled: set<Id>)
    requires forall i :: 0 <= i < |ids| ==> ids[i] in fulfilled
    ensures Rest(ids, fulfilled) == []
  {
    if ids != [] {
      RestNone(ids[..|ids| - 1], fulfilled);
    }
  }

  lemma {:induction false} RestAll(ids: seq<Id>, fulfilled: set<Id>)
    requires forall i :: 0 <= i < |ids| ==> ids[i] !in fulfilled
    ensures Rest(ids, fulfilled) == ids
  {
    if ids != [] {
      RestAll(ids[..|ids| - 1], fulfilled);
    }
  }

  /** Without duplicates, taking a prefix out leaves the rest in order. */
  lemma RestOfPrefix(ids: seq<Id>, k: nat)
    requires NoDuplicates(ids) && k <= |ids|
    ensures Rest(ids, IdSet(ids[..k])) == ids[k..]
  {
    hide Rest;
    var fulfilled := IdSet(ids[..k]);
    assert ids == ids[..k] + ids[k..];
    RestConcat(ids[..k], ids[k..], fulfilled);
    RestNone(ids[..k], fulfilled);
    RestAll(ids[k..], fulfilled);
  }

  /** The ids a gap waits for are not in a batch that the gap takes no part in. */
  ghost predicate Untouched(gaps: seq<Gap>, used: set<nat>, fulfilled: set<Id>, i: nat) {
    i < |gaps| && gaps[i].more && i !in used ==>
      forall k :: 0 <= k < |gaps[i].children| ==> gaps[i].children[k] !in fulfilled
  }

  lemma {:induction false} PendingFulfilled(gaps: seq<Gap>, used: set<nat>, fulfilled: set<Id>)
    requires forall i: nat :: Untouched(gaps, used, fulfilled, i)
    ensures Pending(Fulfilled(gaps, used, fulfilled)) == Rest(Pending(gaps), fulfilled)
  {
    if gaps != [] {
      var k := |gaps| - 1;
      var front, last, after := gaps[..k], gaps[k], Fulfilled(gaps, used, fulfilled);
      forall i: nat
        ensures Untouched(front, used, fulfilled, i)
      {
        assert Untouched(gaps, used, fulfilled, i);
      }
      PendingFulfilled(front, used, fulfilled);
      assert after[..k] == Fulfilled(front, used, fulfilled);
      RestConcat(Pending(front), if last.more then last.children else [], fulfilled);
      assert Untouched(gaps, used, fulfilled, k);
      if last.more && k !in used {
        RestAll(last.children, fulfilled);
      }
    }
  }

  lemma PendingAt(gaps: seq<Gap>, i: nat, k: nat)
    requires i < |gaps| && gaps[i].more && k < |gaps[i].children|
    ensures |Pending(gaps[..i])| + k < |Pending(gaps)|
    ensures Pending(gaps)[|Pending(gaps[..i])| + k] == gaps[i].children[k]
  {
    var before, upTo := Pending(gaps[..i]), Pending(gaps[..i + 1]);
    assert gaps[..i + 1][..i] == gaps[..i];
    PendingPrefix(gaps, i + 1);
    assert upTo == before + gaps[i].children;
    assert upTo[|before| + k] == gaps[i].children[k];
    assert Pending(gaps)[..|upTo|][|before| + k] == Pending(gaps)[|before| + k];
  }

  lemma BatchUntouched(gaps: seq<Gap>, batch: seq<Id>, used: set<nat>, i: nat)
    requires NoDuplicates(Pending(gaps)) && batch == Pending(gaps)[..Min(MAX_BATCH, |Pending(gaps)|)]
    requires used == set j: nat | j < |gaps| && Used(gaps, j)
    ensures Untouched(gaps, used, IdSet(batch), i)
  {
    hide Pending;
    if i < |gaps| && gaps[i].more && i !in used {
      forall k | 0 <= k < |gaps[i].children|
        ensures gaps[i].children[k] !in batch
      {
        PendingAt(gaps, i, k);
      }
    }
  }

  /** With ids distinct across gaps, the pending ids after a round are exactly
      those before it less the batch, and then those of the new gaps. */
  lemma RoundConservesIds(gaps: seq<Gap>, batch: seq<Id>, used: set<nat>, more: seq<Gap>)
    requires NoDuplicates(Pending(gaps)) && batch == Pending(gaps)[..Min(MAX_BATCH, |Pending(gaps)|)]
    requires used == set i: nat | i < |gaps| && Used(gaps, i)
    ensures Pending(GapsAfter(gaps, used, batch, more)) == Pending(gaps)[|batch|..] + Pending(more)
  {
    hide NoDuplicates, Used, Untouched;
    var fulfilled := IdSet(batch);
    forall i: nat
      ensures Untouched(gaps, used, fulfilled, i)
    {
      BatchUntouched(gaps, batch, used, i);
    }
    PendingFulfilled(gaps, used, fulfilled);
    RestOfPrefix(Pending(gaps), |batch|);
    PendingOpen(Fulfilled(gaps, used, fulfilled));
    PendingConcat(Open(Fulfilled(gaps, used, fulfilled)), more);
  }

  lemma {:induction false} RestMembers(ids: seq<Id>, fulfilled: set<Id>, id: Id)
    ensures id in Rest(ids, fulfilled) <==> id in ids && id !in fulfilled
  {
    if ids != [] {
      RestMembers(ids[..|ids| - 1], fulfilled, id);
      assert ids == ids[..|ids| - 1] + [ids[|ids| - 1]];
    }
  }

  /** Whatever the gaps hold, no id is lost: one that was pending has been asked
      for or still is pending, and nothing becomes pending from nowhere. */
  lemma {:induction false} NoIdLost(gaps: seq<Gap>, used: set<nat>, ids: seq<Id>, more: seq<Gap>, id: Id)
    ensures id in Pending(gaps) ==> id in ids || id in Pending(GapsAfter(gaps, used, ids, more))
    ensures id in Pending(more) ==> id in Pending(GapsAfter(gaps, used, ids, more))
    ensures id in Pending(GapsAfter(gaps, used, ids, more)) ==> id in Pending(gaps) || id in Pending(more)
  {
    var fulfilled := IdSet(ids);
    FulfilledMembers(gaps, used, fulfilled, id);
    PendingOpen(Fulfilled(gaps, used, fulfilled));
    PendingConcat(Open(Fulfilled(gaps, used, fulfilled)), more);
  }

  lemma {:induction false} FulfilledMembers(gaps: seq<Gap>, used: set<nat>, fulfilled: set<Id>, id: Id)
    ensures id in Pending(gaps) ==> id in fulfilled || id in Pending(Fulfilled(gaps, used, fulfilled))
    ensures id in Pending(Fulfilled(gaps, used, fulfilled)) ==> id in Pending(gaps)
  {
    if gaps != [] {
      var k := |gaps| - 1;
      FulfilledMembers(gaps[..k], used, fulfilled, id);
      assert Fulfilled(gaps, used, fulfilled)[..k] == Fulfilled(gaps[..k], used, fulfilled);
      RestMembers(gaps[k].children, fulfilled, id);
    }
  }

  /** Merging never duplicates a comment and never drops one. */
  lemma {:induction false} MergedDistinct(comments: seq<Comment>, more: seq<Comment>)
    requires DistinctIds(comments)
    ensures DistinctIds(Merged(comments, more)) && comments <= Merged(comments, more)
    ensures Ids(Merged(comments, more)) == Ids(comments) + Ids(more)
  {
    if more == [] {
      assert Ids(more) == {};
    } else {
      hide Ids, DistinctIds;
      var front, last := Merged(comments, more[..|more| - 1]), more[|more| - 1];
      MergedDistinct(comments, more[..|more| - 1]);
      IdsSplit(more);
      if last.id !in Ids(front) {
        DistinctIdsPushed(front, last);
        IdsSplit(front + [last]);
        assert (front + [last])[..|front|] == front;
      }
    }
  }

  // ----- a whole expansion -----

  /** What one request comes to. */
  datatype Answer = FetchFailed(reason: string) | BadReply | Loaded(comments: seq<Comment>, gaps: seq<Gap>)

  /** The ids that answers add to the pending ones, in order. */
  ghost function Arriving(answers: seq<Answer>): seq<Id> {
    if answers == [] then []
    else
      var last := answers[|answers| - 1];
      Arriving(answers[..|answers| - 1]) + if last.Loaded? then Pending(last.gaps) else []
  }

  ghost function Joined(requests: seq<seq<Id>>): seq<Id> {
    if requests == [] then [] else Joined(requests[..|requests| - 1]) + requests[|requests| - 1]
  }

  lemma {:induction false} ArrivingPrefix(answers: seq<Answer>, k: nat)
    requires k <= |answers|
    ensures Arriving(answers[..k]) <= Arriving(answers)
  {
    if k < |answers| {
      ArrivingPrefix(answers[..|answers| - 1], k);
      assert answers[..|answers| - 1][..k] == answers[..k];
    } else {
      assert answers[..k] == answers;
    }
  }

  /** The ids asked for so far and those pending are, in order, the ids pending at
      the start and those that have arrived since. */
  ghost predicate InOrder(asked: seq<Id>, pending: seq<Id>, start: seq<Id>, arrived: seq<Id>) {
    asked + pending == start + arrived
  }

  lemma PartsDistinct(asked: seq<Id>, pending: seq<Id>, start: seq<Id>, arrived: seq<Id>, arriving: seq<Id>)
    requires NoDuplicates(start + arriving) && arrived <= arriving && InOrder(asked, pending, start, arrived)
    ensures NoDuplicates(pending) && NoDuplicates(asked)
  {
    var all := start + arriving;
    assert all[..|asked| + |pending|] == asked + pending;
    assert forall i :: 0 <= i < |pending| ==> all[|asked| + i] == pending[i];
    assert forall i :: 0 <= i < |asked| ==> all[i] == asked[i];
  }

  lemma OneMoreRound(asked: seq<Id>, pending: seq<Id>, start: seq<Id>, arrived: seq<Id>, k: nat, more: seq<Id>)
    requires InOrder(asked, pending, start, arrived) && k <= |pending|
    ensures InOrder(asked + pending[..k], pending[k..] + more, start, arrived + more)
  {
    assert pending == pending[..k] + pending[k..];
    assert asked + pending[..k] + (pending[k..] + more) == (asked + pending) + more;
    assert start + (arrived + more) == (start + arrived) + more;
  }

  ghost predicate Batches(requests: seq<seq<Id>>) {
    forall i :: 0 <= i < |requests| ==> 1 <= |requests[i]| <= MAX_BATCH
  }

  /** Nothing is lost on the way: what was pending at the start or has arrived has
      been asked for or is pending, and nothing else is pending. */
  ghost predicate NoneLost(asked: seq<Id>, pending: seq<Id>, start: seq<Id>, arrived: seq<Id>) {
    && (forall id :: id in start || id in arrived ==> id in asked || id in pending)
    && (forall id :: id in pending ==> id in start || id in arrived)
  }

  /** Without duplicates the account is exact: in order, and no id asked for twice. */
  ghost predicate Exact(asked: seq<Id>, pending: seq<Id>, start: seq<Id>, arrived: seq<Id>) {
    InOrder(asked, pending, start, arrived) && NoDuplicates(asked) && NoDuplicates(pending)
  }

  /** One merged round keeps both accounts. */
  lemma RoundAccounted(gaps: seq<Gap>, batch: seq<Id>, used: set<nat>, script: seq<Answer>, k: nat,
                       asked: seq<Id>, start: seq<Id>)
    requires batch == Pending(gaps)[..Min(MAX_BATCH, |Pending(gaps)|)]
    requires used == set i: nat | i < |gaps| && Used(gaps, i)
    requires k < |script| && script[k].Loaded?
    requires NoneLost(asked, Pending(gaps), start, Arriving(script[..k]))
    requires NoDuplicates(start + Arriving(script)) ==> Exact(asked, Pending(gaps), start, Arriving(script[..k]))
    ensures var after := Pending(GapsAfter(gaps, used, batch, script[k].gaps));
            && NoneLost(asked + batch, after, start, Arriving(script[..k + 1]))
            && (NoDuplicates(start + Arriving(script)) ==>
                  Exact(asked + batch, after, start, Arriving(script[..k + 1])))
  {
    hide Pending, GapsAfter, Used, Arriving, NoDuplicates, InOrder;
    var more, arrived := script[k].gaps, Arriving(script[..k]);
    var after := Pending(GapsAfter(gaps, used, batch, more));
    ArrivingNext(script, k);
    LostNone(gaps, batch, used, more, asked, start, arrived);
    if NoDuplicates(start + Arriving(script)) {
      RoundConservesIds(gaps, batch, used, more);
      OneMoreRound(asked, Pending(gaps), start, arrived, |batch|, Pending(more));
      ArrivingPrefix(script, k + 1);
      PartsDistinct(asked + batch, after, start, Arriving(script[..k + 1]), Arriving(script));
    }
  }

  lemma LostNone(gaps: seq<Gap>, batch: seq<Id>, used: set<nat>, more: seq<Gap>,
                 asked: seq<Id>, start: seq<Id>, arrived: seq<Id>)
    requires NoneLost(asked, Pending(gaps), start, arrived)
    ensures NoneLost(asked + batch, Pending(GapsAfter(gaps, used, batch, more)), start, arrived + Pending(more))
  {
    hide Pending, GapsAfter;
    var after := Pending(GapsAfter(gaps, used, batch, more));
    forall id
      ensures id in Pending(gaps) ==> id in batch || id in after
      ensures id in Pending(more) ==> id in after
      ensures id in after ==> id in Pending(gaps) || id in Pending(more)
    {
      NoIdLost(gaps, used, batch, more, id);
    }
  }

  ghost function BatchOf(gaps: seq<Gap>): seq<Id> {
    Pending(gaps)[..Min(MAX_BATCH, |Pending(gaps)|)]
  }

  ghost function UsedIn(gaps: seq<Gap>): set<nat> {
    set i: nat | i < |gaps| && Used(gaps, i)
  }

  /** The thread once the answers to a batch each have been merged. */
  ghost function GapsThrough(gaps: seq<Gap>, answers: seq<Answer>): seq<Gap> {
    if answers == [] then gaps
    else
      var before, last := GapsThrough(gaps, answers[..|answers| - 1]), answers[|answers| - 1];
      if last.Loaded? then GapsAfter(before, UsedIn(before), BatchOf(before), last.gaps) else before
  }

  ghost function CommentsThrough(comments: seq<Comment>, answers: seq<Answer>): seq<Comment> {
    if answers == [] then comments
    else
      var before, last := CommentsThrough(comments, answers[..|answers| - 1]), answers[|answers| - 1];
      if last.Loaded? then Merged(before, last.comments) else before
  }

  lemma BatchIs(gaps: seq<Gap>)
    ensures BatchOf(gaps) == Pending(gaps)[..Min(MAX_BATCH, |Pending(gaps)|)]
    ensures UsedIn(gaps) == set i: nat | i < |gaps| && Used(gaps, i)
  {
  }

  lemma ThroughNothing(gaps: seq<Gap>, comments: seq<Comment>)
    ensures GapsThrough(gaps, []) == gaps && CommentsThrough(comments, []) == comments
  {
  }

  lemma ThroughNext(gaps: seq<Gap>, comments: seq<Comment>, script: seq<Answer>, k: nat)
    requires k < |script| && script[k].Loaded?
    ensures var before := GapsThrough(gaps, script[..k]);
            GapsThrough(gaps, script[..k + 1]) == GapsAfter(before, UsedIn(before), BatchOf(before), script[k].gaps)
    ensures CommentsThrough(comments, script[..k + 1])
         == Merged(CommentsThrough(comments, script[..k]), script[k].comments)
  {
    assert script[..k + 1][..k] == script[..k];
  }

  /** Asks for batches until the round budget or the gaps run out, a round brings
      nothing, or one fails. rounds counts the rounds whose answer was merged. */
  method ExpandGaps(thread: RedditThread, maxRounds: int, script: seq<Answer>)
    returns (rounds: nat, reason: Option<string>, requests: seq<seq<Id>>)
    requires maxRounds <= |script|
    modifies thread
    ensures |requests| <= Max(0, maxRounds) && |requests| == rounds + if reason.Some? then 1 else 0
    ensures Batches(requests) && rounds <= |script|
    ensures thread.gaps == GapsThrough(old(thread.gaps), script[..rounds])
    ensures thread.comments == CommentsThrough(old(thread.comments), script[..rounds])
    ensures forall i :: 0 <= i < |requests| ==>
              i <= |script| && requests[i] == BatchOf(GapsThrough(old(thread.gaps), script[..i]))
    ensures forall i :: 0 <= i < rounds ==> script[i].Loaded?
    ensures forall i :: 0 <= i < |requests| - 1 ==> script[i] != Loaded([], [])
    ensures reason.Some? ==>
              && rounds < maxRounds
              && (script[rounds] == FetchFailed(reason.value)
                  || (script[rounds] == BadReply && reason.value == "parse_error"))
    ensures var asked, arrived := Joined(requests[..rounds]), Arriving(script[..rounds]);
            && NoneLost(asked, Pending(thread.gaps), Pending(old(thread.gaps)), arrived)
            && (NoDuplicates(Pending(old(thread.gaps)) + Arriving(script)) ==>
                  Exact(asked, Pending(thread.gaps), Pending(old(thread.gaps)), arrived))
    ensures old(thread.comments) <= thread.comments
    ensures DistinctIds(old(thread.comments)) ==> DistinctIds(thread.comments)
    ensures reason.Some? ==> requests[rounds] <= Pending(thread.gaps)
    ensures reason.None? && rounds < maxRounds ==>
              Pending(thread.gaps) == [] || (0 < rounds && script[rounds - 1] == Loaded([], []))
  {
    hide Pending, GapsAfter, Merged, DistinctIds, NoDuplicates, Used, NoneLost, Exact, Arriving, Joined;
    hide GapsThrough, CommentsThrough, BatchOf, UsedIn;
    ThroughNothing(thread.gaps, thread.comments);
    ghost var start := Pending(thread.gaps);
    rounds, requests := 0, [];
    NothingYet(start, Arriving(script));
    while rounds < maxRounds
      invariant rounds == |requests| <= Max(0, maxRounds) && Batches(requests) && rounds <= |script|
      invariant thread.gaps == GapsThrough(old(thread.gaps), script[..rounds])
      invariant thread.comments == CommentsThrough(old(thread.comments), script[..rounds])
      invariant forall i :: 0 <= i < |requests| ==>
                  && requests[i] == BatchOf(GapsThrough(old(thread.gaps), script[..i]))
                  && script[i].Loaded? && script[i] != Loaded([], [])
      invariant NoneLost(Joined(requests), Pending(thread.gaps), start, Arriving(script[..rounds]))
      invariant NoDuplicates(start + Arriving(script)) ==>
                  Exact(Joined(requests), Pending(thread.gaps), start, Arriving(script[..rounds]))
      invariant old(thread.comments) <= thread.comments
      invariant DistinctIds(old(thread.comments)) ==> DistinctIds(thread.comments)
      decreases maxRounds - rounds
    {
      assert requests[..rounds] == requests;
      var batch, used := NextBatch(thread.gaps);
      BatchIs(thread.gaps);
      if |batch| == 0 {
        return rounds, None, requests;
      }
      ghost var earlier := requests;
      requests := requests + [batch];
      assert requests[..rounds] == earlier;
      var answer := script[rounds];
      if answer.FetchFailed? {
        return rounds, Some(answer.reason), requests;
      }
      if answer.BadReply? {
        return rounds, Some("parse_error"), requests;
      }
      ThroughNext(old(thread.gaps), old(thread.comments), script, rounds);
      MergedExtends(thread.comments, answer.comments);
      RoundAccounted(thread.gaps, batch, used, script, rounds, Joined(earlier), start);
      JoinedNext(earlier, batch);
      thread.MergeExpanded(answer.comments, answer.gaps, batch, used);
      rounds := rounds + 1;
      assert requests[..rounds] == requests;
      if |answer.comments| == 0 && |answer.gaps| == 0 {
        return rounds, None, requests;
      }
    }
    assert requests[..rounds] == requests;
    reason := None;
  }

  lemma {:induction false} MergedExtends(comments: seq<Comment>, more: seq<Comment>)
    ensures comments <= Merged(comments, more)
    ensures DistinctIds(comments) ==> DistinctIds(Merged(comments, more))
  {
    hide DistinctIds;
    MergedPrefix(comments, more);
    if DistinctIds(comments) {
      MergedDistinct(comments, more);
    }
  }

  lemma {:induction false} MergedPrefix(comments: seq<Comment>, more: seq<Comment>)
    ensures comments <= Merged(comments, more)
  {
    if more != [] {
      MergedPrefix(comments, more[..|more| - 1]);
    }
  }

  lemma NothingYet(start: seq<Id>, arriving: seq<Id>)
    ensures NoneLost(Joined([]), start, start, Arriving([]))
    ensures NoDuplicates(start + arriving) ==> Exact(Joined([]), start, start, Arriving([]))
  {
    assert forall i :: 0 <= i < |start| ==> (start + arriving)[i] == start[i];
  }

  lemma JoinedNext(requests: seq<seq<Id>>, batch: seq<Id>)
    ensures Joined(requests + [batch]) == Joined(requests) + batch
  {
    assert (requests + [batch])[..|requests|] == requests;
  }

  lemma ArrivingNext(script: seq<Answer>, k: nat)
    requires k < |script| && script[k].Loaded?
    ensures Arriving(script[..k + 1]) == Arriving(script[..k]) + Pending(script[k].gaps)
  {
    assert script[..k + 1][..k] == script[..k];
  }
}
