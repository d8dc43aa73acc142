/** Flat comment lists, as both comment engines emit them: each comment names its
    parent, and the caps drop comments in place. */
module Threads {

  /** Ids are only compared. Hacker News numbers its comments; Reddit spells its
      numbers in base 36. */
  type Id = int

  /** body stands for the fields no cap reads. */
  datatype Comment = Comment(id: Id, parent: Id, body: string)

  function Ids(list: seq<Comment>): set<Id> {
    set i | 0 <= i < |list| :: list[i].id
  }

  ghost predicate DistinctIds(list: seq<Comment>) {
    forall i, j :: 0 <= i < j < |list| ==> list[i].id != list[j].id
  }

  ghost predicate NoDuplicates(ids: seq<Id>) {
    forall i, j :: 0 <= i < j < |ids| ==> ids[i] != ids[j]
  }

  function IdSet(ids: seq<Id>): set<Id> {
    set id | id in ids
  }

  /** The comments whose id is kept, in their order. */
  function Filter(list: seq<Comment>, kept: set<Id>): seq<Comment> {
    if list == [] then []
    else
      var front, last := Filter(list[..|list| - 1], kept), list[|list| - 1];
      if last.id in kept then front + [last] else front
  }

  /** Every emitted parent of a comment in sub is in sub. */
  ghost predicate ClosedIn(sub: seq<Comment>, list: seq<Comment>) {
    forall c :: c in sub && c.parent in Ids(list) ==> c.parent in Ids(sub)
  }

  lemma {:induction false} FilterMembers(list: seq<Comment>, kept: set<Id>, c: Comment)
    ensures c in Filter(list, kept) <==> c in list && c.id in kept
  {
    if list != [] {
      FilterMembers(list[..|list| - 1], kept, c);
      assert list == list[..|list| - 1] + [list[|list| - 1]];
    }
  }

  lemma IdIn(list: seq<Comment>, id: Id)
    ensures id in Ids(list) <==> exists c :: c in list && c.id == id
  {
  }

  lemma FilterIds(list: seq<Comment>, kept: set<Id>)
    ensures Ids(Filter(list, kept)) == Ids(list) * kept
  {
    hide Ids, Filter;
    forall id
      ensures id in Ids(Filter(list, kept)) <==> id in Ids(list) * kept
    {
      IdIn(list, id);
      IdIn(Filter(list, kept), id);
      forall c: Comment
        ensures c in Filter(list, kept) <==> c in list && c.id in kept
      {
        FilterMembers(list, kept, c);
      }
    }
  }

  lemma IdsSplit(list: seq<Comment>)
    requires list != []
    ensures Ids(list) == Ids(list[..|list| - 1]) + {list[|list| - 1].id}
  {
    assert list == list[..|list| - 1] + [list[|list| - 1]];
    assert forall i :: 0 <= i < |list| - 1 ==> list[..|list| - 1][i] == list[i];
  }

  lemma LastIdIsNew(list: seq<Comment>)
    requires list != [] && DistinctIds(list)
    ensures DistinctIds(list[..|list| - 1]) && list[|list| - 1].id !in Ids(list[..|list| - 1])
  {
  }

  lemma OneMoreKept(ids: set<Id>, id: Id, kept: set<Id>)
    requires id !in ids
    ensures |(ids + {id}) * kept| == |ids * kept| + if id in kept then 1 else 0
  {
    if id in kept {
      assert (ids + {id}) * kept == ids * kept + {id};
    } else {
      assert (ids + {id}) * kept == ids * kept;
    }
  }

  /** With distinct ids, a filtered list has one comment per id kept. */
  lemma {:induction false} FilterSize(list: seq<Comment>, kept: set<Id>)
    requires DistinctIds(list)
    ensures |Filter(list, kept)| == |Ids(list) * kept|
  {
    if list != [] {
      hide Ids, DistinctIds;
      var front, last := list[..|list| - 1], list[|list| - 1];
      LastIdIsNew(list);
      IdsSplit(list);
      FilterSize(front, kept);
      OneMoreKept(Ids(front), last.id, kept);
    } else {
      assert Ids(list) == {};
    }
  }

  lemma DistinctIdsPushed(list: seq<Comment>, c: Comment)
    requires DistinctIds(list) && c.id !in Ids(list)
    ensures DistinctIds(list + [c])
  {
  }

  lemma {:induction false} FilterDistinct(list: seq<Comment>, kept: set<Id>)
    requires DistinctIds(list)
    ensures DistinctIds(Filter(list, kept))
  {
    if list != [] {
      hide Ids, DistinctIds;
      LastIdIsNew(list);
      var front := list[..|list| - 1];
      FilterDistinct(front, kept);
      FilterIds(front, kept);
      if list[|list| - 1].id in kept {
        DistinctIdsPushed(Filter(front, kept), list[|list| - 1]);
      }
    } else {
      assert Filter(list, kept) == [];
    }
  }

  lemma {:induction false} FilterTwice(list: seq<Comment>, a: set<Id>, b: set<Id>)
    ensures Filter(Filter(list, a), b) == Filter(list, a * b)
  {
    if list != [] {
      var front, last := list[..|list| - 1], list[|list| - 1];
      FilterTwice(front, a, b);
      assert (Filter(front, a) + [last])[..|Filter(front, a)|] == Filter(front, a);
    }
  }

  lemma {:induction false} FilterAll(list: seq<Comment>, kept: set<Id>)
    requires Ids(list) <= kept
    ensures Filter(list, kept) == list
  {
    if list != [] {
      IdsSplit(list);
      FilterAll(list[..|list| - 1], kept);
      assert list == list[..|list| - 1] + [list[|list| - 1]];
    }
  }

  lemma NothingFiltered(kept: set<Id>)
    ensures Filter([], kept) == []
  {
  }

  lemma FilterNext(list: seq<Comment>, kept: set<Id>, i: nat)
    requires i < |list|
    ensures Filter(list[..i + 1], kept) ==
            if list[i].id in kept then Filter(list[..i], kept) + [list[i]] else Filter(list[..i], kept)
  {
    assert list[..i + 1][..i] == list[..i];
  }

  /** A slice of comments over a buffer it owns. */
  class Thread {
    const buffer: array<Comment>
    var count: nat

    constructor (comments: seq<Comment>)
      ensures Valid() && fresh(buffer) && Comments() == comments
    {
      buffer := new Comment[|comments|](i requires 0 <= i < |comments| => comments[i]);
      count := |comments|;
    }

    ghost predicate Valid()
      reads this
    {
      count <= buffer.Length
    }

    ghost function Comments(): seq<Comment>
      requires Valid()
      reads this, buffer
    {
      buffer[..count]
    }

    /** Compacts the slice in place to the comments that are kept. */
    method KeepOnly(kept: set<Id>)
      requires Valid()
      modifies this, buffer
      ensures Valid() && Comments() == Filter(old(Comments()), kept)
    {
      hide Filter;
      var filled := 0;
      NothingFiltered(kept);
      for i := 0 to count
        invariant filled <= i <= count == old(count)
        invariant forall j :: i <= j < count ==> buffer[j] == old(buffer[j])
        invariant buffer[..filled] == Filter(old(Comments())[..i], kept)
      {
        var c := buffer[i];
        assert c == old(Comments())[i];
        FilterNext(old(Comments()), kept, i);
        if c.id in kept {
          buffer[filled] := c;
          filled := filled + 1;
        }
      }
      assert old(Comments())[..count] == old(Comments());
      count := filled;
    }
  }
}
