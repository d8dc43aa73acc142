/** Instants are integers on one clock. This module holds what the pacing
    components share: an optional instant, counting instants in a half-open
    interval, and removing one booking from a list of them. */
module Instants {

  datatype Option<+T> = None | Some(value: T)

  function Max(a: int, b: int): int {
    if a < b then b else a
  }

  function Min(a: int, b: int): int {
    if b < a then b else a
  }

  ghost predicate Sorted(s: seq<int>) {
    forall i, j :: 0 <= i < j < |s| ==> s[i] <= s[j]
  }

  /** How many of the instants lie in [from, from + width). */
  ghost function CountIn(s: seq<int>, from: int, width: int): nat {
    if s == [] then 0
    else (if from <= s[0] < from + width then 1 else 0) + CountIn(s[1..], from, width)
  }

  /** The rolling-window quota: no half-open interval of the given width holds
      more than limit instants. */
  ghost predicate QuotaHolds(s: seq<int>, limit: nat, width: int) {
    forall from :: CountIn(s, from, width) <= limit
  }

  /** Two instants that are limit or more places apart are width or more apart. */
  ghost predicate Spread(s: seq<int>, limit: nat, width: int) {
    forall i, j :: 0 <= i && i + limit <= j < |s| ==> s[i] + width <= s[j]
  }

  lemma {:induction false} CountInConcat(a: seq<int>, b: seq<int>, from: int, width: int)
    ensures CountIn(a + b, from, width) == CountIn(a, from, width) + CountIn(b, from, width)
  {
    if a == [] {
      assert a + b == b;
    } else {
      assert (a + b)[1..] == a[1..] + b;
      CountInConcat(a[1..], b, from, width);
    }
  }

  lemma {:induction false} CountInAtMostLength(s: seq<int>, from: int, width: int)
    ensures CountIn(s, from, width) <= |s|
  {
    if s != [] {
      CountInAtMostLength(s[1..], from, width);
    }
  }

  lemma {:induction false} CountInOutside(s: seq<int>, from: int, width: int)
    requires forall i :: 0 <= i < |s| ==> s[i] < from || from + width <= s[i]
    ensures CountIn(s, from, width) == 0
  {
    if s != [] {
      CountInOutside(s[1..], from, width);
    }
  }

  lemma {:induction false} CountInAll(s: seq<int>, from: int, width: int)
    requires forall i :: 0 <= i < |s| ==> from <= s[i] < from + width
    ensures CountIn(s, from, width) == |s|
  {
    if s != [] {
      CountInAll(s[1..], from, width);
    }
  }

  /** Spreading is enough for the quota, whatever order the instants are in. */
  lemma {:induction false} SpreadImpliesQuota(s: seq<int>, limit: nat, width: int)
    requires Spread(s, limit, width)
    ensures QuotaHolds(s, limit, width)
  {
    forall from
      ensures CountIn(s, from, width) <= limit
    {
      SpreadBoundsCount(s, limit, width, from);
    }
  }

  lemma {:induction false} SpreadBoundsCount(s: seq<int>, limit: nat, width: int, from: int)
    requires Spread(s, limit, width)
    ensures CountIn(s, from, width) <= limit
  {
    if s == [] || |s| <= limit {
      CountInAtMostLength(s, from, width);
    } else if from <= s[0] < from + width {
      FirstInWindow(s, limit, width, from);
    } else {
      SpreadBoundsCount(s[1..], limit, width, from);
    }
  }

  lemma FirstInWindow(s: seq<int>, limit: nat, width: int, from: int)
    requires Spread(s, limit, width) && limit < |s| && from <= s[0]
    ensures CountIn(s, from, width) <= limit
  {
    hide CountIn;
    assert s == s[..limit] + s[limit..];
    CountInConcat(s[..limit], s[limit..], from, width);
    CountInAtMostLength(s[..limit], from, width);
    CountInOutside(s[limit..], from, width);
  }

  // ----- lists that are tails of a history -----

  /** tail ends the history, and all that was dropped in front is at or before bound. */
  ghost predicate IsTail(all: seq<int>, tail: seq<int>, bound: int) {
    && |tail| <= |all|
    && tail == all[|all| - |tail|..]
    && forall i :: 0 <= i < |all| - |tail| ==> all[i] <= bound
  }

  lemma TailAppended(all: seq<int>, tail: seq<int>, bound: int, at: int)
    requires IsTail(all, tail, bound)
    ensures IsTail(all + [at], tail + [at], bound)
  {
  }

  /** An ordered history stays spread when what is appended waits for the instant
      `limit` places back. */
  lemma AppendSpread(s: seq<int>, limit: nat, width: int, at: int)
    requires Sorted(s) && Spread(s, limit, width) && 0 < limit
    requires s != [] ==> s[|s| - 1] <= at
    requires limit <= |s| ==> s[|s| - limit] + width <= at
    ensures Sorted(s + [at]) && Spread(s + [at], limit, width)
  {
  }

  // ----- withdrawing one booking -----

  /** The list without the first occurrence of v; the list itself when v is absent. */
  function RemoveFirst(s: seq<int>, v: int): seq<int> {
    if s == [] then []
    else if s[0] == v then s[1..]
    else [s[0]] + RemoveFirst(s[1..], v)
  }

  /** Where the first occurrence of v is, or the length when there is none. */
  function FirstIndex(s: seq<int>, v: int): nat {
    if s == [] || s[0] == v then 0 else 1 + FirstIndex(s[1..], v)
  }

  lemma {:induction false} RemoveFirstAbsent(s: seq<int>, v: int)
    requires v !in s
    ensures RemoveFirst(s, v) == s
  {
    if s != [] {
      RemoveFirstAbsent(s[1..], v);
    }
  }

  lemma {:induction false} RemoveFirstCuts(s: seq<int>, v: int)
    requires v in s
    ensures FirstIndex(s, v) < |s|
    ensures RemoveFirst(s, v) == s[..FirstIndex(s, v)] + s[FirstIndex(s, v) + 1..]
  {
    if s[0] != v {
      var t := s[1..];
      assert s == [s[0]] + t;
      RemoveFirstCuts(t, v);
      var k := FirstIndex(t, v);
      assert [s[0]] + t[..k] == s[..k + 1];
      assert t[k + 1..] == s[k + 2..];
    }
  }

  /** r is s without its element at place k. */
  ghost predicate WithoutPlace(s: seq<int>, r: seq<int>, k: nat) {
    && k < |s| && |r| == |s| - 1
    && (forall i {:trigger r[i]} :: 0 <= i < |r| ==> r[i] == if i < k then s[i] else s[i + 1])
  }

  lemma RemoveFirstPlace(s: seq<int>, v: int)
    requires v in s
    ensures WithoutPlace(s, RemoveFirst(s, v), FirstIndex(s, v))
  {
    RemoveFirstCuts(s, v);
  }

  lemma WithoutPlaceSorted(s: seq<int>, r: seq<int>, k: nat)
    requires Sorted(s) && WithoutPlace(s, r, k)
    ensures Sorted(r)
  {
  }

  lemma WithoutPlaceSpread(s: seq<int>, r: seq<int>, k: nat, limit: nat, width: int)
    requires Spread(s, limit, width) && WithoutPlace(s, r, k)
    ensures Spread(r, limit, width)
  {
    forall i, j | 0 <= i && i + limit <= j < |r|
      ensures r[i] + width <= r[j]
    {
      assert r[i] == s[if i < k then i else i + 1];
      assert r[j] == s[if j < k then j else j + 1];
    }
  }

  /** Withdrawing keeps a list sorted. */
  lemma RemoveFirstSorted(s: seq<int>, v: int)
    requires Sorted(s)
    ensures Sorted(RemoveFirst(s, v))
  {
    if v in s {
      RemoveFirstPlace(s, v);
      WithoutPlaceSorted(s, RemoveFirst(s, v), FirstIndex(s, v));
    } else {
      RemoveFirstAbsent(s, v);
    }
  }

  /** Withdrawing can only spread a list further. */
  lemma RemoveFirstSpread(s: seq<int>, v: int, limit: nat, width: int)
    requires Spread(s, limit, width)
    ensures Spread(RemoveFirst(s, v), limit, width)
  {
    hide Spread;
    if v in s {
      RemoveFirstPlace(s, v);
      WithoutPlaceSpread(s, RemoveFirst(s, v), FirstIndex(s, v), limit, width);
    } else {
      RemoveFirstAbsent(s, v);
    }
  }

  lemma {:induction false} RemoveFirstMultiset(s: seq<int>, v: int)
    ensures multiset(RemoveFirst(s, v)) == multiset(s) - multiset{v}
  {
    if s != [] {
      assert s == [s[0]] + s[1..];
      if s[0] != v {
        RemoveFirstMultiset(s[1..], v);
      }
    }
  }

  /** Withdrawing from a suffix and from the whole agree when the part in front
      of the suffix does not hold the withdrawn value. */
  lemma {:induction false} RemoveFirstSkips(front: seq<int>, s: seq<int>, v: int)
    requires v !in front
    ensures RemoveFirst(front + s, v) == front + RemoveFirst(s, v)
  {
    if front == [] {
      assert front + s == s && front + RemoveFirst(s, v) == RemoveFirst(s, v);
    } else {
      assert (front + s)[1..] == front[1..] + s;
      RemoveFirstSkips(front[1..], s, v);
    }
  }

  lemma {:induction false} RemoveFirstInFront(front: seq<int>, s: seq<int>, v: int)
    requires v in front
    ensures RemoveFirst(front + s, v) == RemoveFirst(front, v) + s
  {
    assert (front + s)[0] == front[0] && (front + s)[1..] == front[1..] + s;
    if front[0] != v {
      RemoveFirstInFront(front[1..], s, v);
      assert [front[0]] + (RemoveFirst(front[1..], v) + s) == RemoveFirst(front, v) + s;
    }
  }
}
