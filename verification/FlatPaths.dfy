/** The flattened Hacker News thread, told by the places of its comments in the tree:
    which nodes are in it, in what order, and what each comment says. */
module FlatPaths {
  import opened Threads
  import opened HackerNews

  /** The way to a node: which child to take at every level. */
  type Path = seq<nat>

  ghost predicate Leads(children: seq<Item>, path: Path) {
    path != [] && path[0] < |children| && (|path| == 1 || Leads(children[path[0]].children, path[1..]))
  }

  ghost function NodeAt(children: seq<Item>, path: Path): Item
    requires Leads(children, path)
  {
    if |path| == 1 then children[path[0]] else NodeAt(children[path[0]].children, path[1..])
  }

  /** The id of the node right above, live or deleted. */
  ghost function AboveAt(children: seq<Item>, parent: Id, path: Path): Id
    requires Leads(children, path)
  {
    if |path| == 1 then parent else AboveAt(children[path[0]].children, children[path[0]].id, path[1..])
  }

  /** A node comes before what hangs under it, and that before its later siblings. */
  ghost predicate Comes(a: Path, b: Path) {
    b != [] && (a == [] || a[0] < b[0] || (a[0] == b[0] && Comes(a[1..], b[1..])))
  }

  ghost predicate InPreOrder(paths: seq<Path>) {
    forall i, j :: 0 <= i < j < |paths| ==> Comes(paths[i], paths[j])
  }

  /** The node the path leads to is not deleted, and the comment is its own. */
  ghost predicate Tells(children: seq<Item>, parent: Id, path: Path, c: Comment) {
    && Leads(children, path)
    && var node := NodeAt(children, path);
       (node.author != "" || node.text != "") && c == Comment(node.id, AboveAt(children, parent, path), node.text)
  }

  ghost predicate LeadsToLive(children: seq<Item>, path: Path) {
    Leads(children, path) && (NodeAt(children, path).author != "" || NodeAt(children, path).text != "")
  }

  ghost predicate Listed(children: seq<Item>, parent: Id, list: seq<Comment>, paths: seq<Path>) {
    && |paths| == |list| && InPreOrder(paths)
    && (forall i :: 0 <= i < |paths| ==> Tells(children, parent, paths[i], list[i]))
    && (forall path :: LeadsToLive(children, path) ==> path in paths)
  }

  ghost function Down(paths: seq<Path>): seq<Path> {
    seq(|paths|, i requires 0 <= i < |paths| => [0] + paths[i])
  }

  ghost function Along(paths: seq<Path>): seq<Path>
    requires forall i :: 0 <= i < |paths| ==> paths[i] != []
  {
    seq(|paths|, i requires 0 <= i < |paths| => [paths[i][0] + 1] + paths[i][1..])
  }

  // ----- the three parts of a list -----

  lemma DownTells(children: seq<Item>, parent: Id, path: Path, c: Comment)
    requires children != [] && Tells(children[0].children, children[0].id, path, c)
    ensures Tells(children, parent, [0] + path, c)
  {
    assert ([0] + path)[1..] == path;
  }

  lemma AlongTells(children: seq<Item>, parent: Id, path: Path, c: Comment)
    requires children != [] && Tells(children[1..], parent, path, c)
    ensures Tells(children, parent, [path[0] + 1] + path[1..], c)
  {
    var longer := [path[0] + 1] + path[1..];
    assert longer[1..] == path[1..] && children[1..][path[0]] == children[longer[0]];
  }

  /** A path to a live node is that of the first one, leads below it, or along. */
  lemma LiveParts(children: seq<Item>, path: Path)
    requires LeadsToLive(children, path)
    ensures path[0] == 0 && |path| == 1 ==> path == [0] && Live(children[0])
    ensures path[0] == 0 && 1 < |path| ==> LeadsToLive(children[0].children, path[1..]) && path == [0] + path[1..]
    ensures 0 < path[0] ==> var less := [path[0] - 1] + path[1..];
                            LeadsToLive(children[1..], less) && path == [less[0] + 1] + less[1..]
  {
    if 0 < path[0] {
      var less := [path[0] - 1] + path[1..];
      assert less[1..] == path[1..] && children[1..][less[0]] == children[path[0]];
    }
  }

  lemma OrderJoins(own: seq<Path>, below: seq<Path>, later: seq<Path>)
    requires own == [] || own == [[0]]
    requires InPreOrder(below) && InPreOrder(later)
    requires (forall i :: 0 <= i < |below| ==> below[i] != []) && (forall i :: 0 <= i < |later| ==> later[i] != [])
    ensures InPreOrder(own + Down(below) + Along(later))
  {
    var all := own + Down(below) + Along(later);
    var m, n := |own|, |own| + |below|;
    forall i, j | 0 <= i < j < |all|
      ensures Comes(all[i], all[j])
    {
      if n <= i {
        var a, b := later[i - n], later[j - n];
        assert all[i][1..] == a[1..] && all[j][1..] == b[1..];
        assert Comes(a, b);
      } else if m <= i && j < n {
        assert all[i][1..] == below[i - m] && all[j][1..] == below[j - m];
        assert Comes(below[i - m], below[j - m]);
      } else if i < m && j < n {
        assert all[i][1..] == [] && all[j][1..] == below[j - m];
      }
    }
  }

  lemma PartsAreListed(children: seq<Item>, parent: Id, own: seq<Path>, below: seq<Path>, later: seq<Path>)
    requires children != []
    requires own == (if Live(children[0]) then [[0]] else [])
    requires Listed(children[0].children, children[0].id, Flat(children[0].children, children[0].id), below)
    requires Listed(children[1..], parent, Flat(children[1..], parent), later)
    ensures forall i :: 0 <= i < |later| ==> later[i] != []
    ensures Listed(children, parent, Flat(children, parent), own + Down(below) + Along(later))
  {
    hide Flat, NodeAt, AboveAt, Comes, InPreOrder;
    var c, all := children[0], own + Down(below) + Along(later);
    var list := HeadComment(c, parent) + Flat(c.children, c.id) + Flat(children[1..], parent);
    FlatNext(children, parent);
    OrderJoins(own, below, later);
    PartsTell(children, parent, own, below, later, list);
    forall path | LeadsToLive(children, path)
      ensures path in all
    {
      PathIsIn(children, own, below, later, path);
    }
  }

  lemma PartsTell(children: seq<Item>, parent: Id, own: seq<Path>, below: seq<Path>, later: seq<Path>,
                  list: seq<Comment>)
    requires children != []
    requires own == (if Live(children[0]) then [[0]] else [])
    requires var c := children[0];
             && |below| == |Flat(c.children, c.id)| && |later| == |Flat(children[1..], parent)|
             && (forall i :: 0 <= i < |below| ==> Tells(c.children, c.id, below[i], Flat(c.children, c.id)[i]))
             && (forall i :: 0 <= i < |later| ==>
                   Tells(children[1..], parent, later[i], Flat(children[1..], parent)[i]))
             && list == HeadComment(c, parent) + Flat(c.children, c.id) + Flat(children[1..], parent)
    ensures forall i :: 0 <= i < |later| ==> later[i] != []
    ensures |own + Down(below) + Along(later)| == |list|
    ensures forall i :: 0 <= i < |list| ==> Tells(children, parent, (own + Down(below) + Along(later))[i], list[i])
  {
    hide Flat, Tells;
    var c, m := children[0], |own|;
    assert forall i :: 0 <= i < |later| ==> later[i] != [] by {
      forall i | 0 <= i < |later|
        ensures later[i] != []
      {
        TellsLeads(children[1..], parent, later[i], Flat(children[1..], parent)[i]);
      }
    }
    forall i | 0 <= i < |list|
      ensures Tells(children, parent, (own + Down(below) + Along(later))[i], list[i])
    {
      if i < m {
        OwnTells(children, parent);
      } else if i < m + |below| {
        DownTells(children, parent, below[i - m], Flat(c.children, c.id)[i - m]);
      } else {
        var k := i - m - |below|;
        AlongTells(children, parent, later[k], Flat(children[1..], parent)[k]);
      }
    }
  }

  lemma TellsLeads(children: seq<Item>, parent: Id, path: Path, c: Comment)
    requires Tells(children, parent, path, c)
    ensures path != []
  {
  }

  lemma OwnTells(children: seq<Item>, parent: Id)
    requires children != [] && Live(children[0])
    ensures |HeadComment(children[0], parent)| == 1
    ensures Tells(children, parent, [0], HeadComment(children[0], parent)[0])
  {
  }

  lemma PathIsIn(children: seq<Item>, own: seq<Path>, below: seq<Path>, later: seq<Path>, path: Path)
    requires children != [] && own == (if Live(children[0]) then [[0]] else [])
    requires forall p :: LeadsToLive(children[0].children, p) ==> p in below
    requires forall p :: LeadsToLive(children[1..], p) ==> p in later
    requires (forall i :: 0 <= i < |later| ==> later[i] != []) && LeadsToLive(children, path)
    ensures path in own + Down(below) + Along(later)
  {
    LiveParts(children, path);
    hide LeadsToLive;
    if path[0] == 0 && 1 < |path| {
      var k :| 0 <= k < |below| && below[k] == path[1..];
      assert Down(below)[k] == path;
    } else if 0 < path[0] {
      var less := [path[0] - 1] + path[1..];
      var k :| 0 <= k < |later| && later[k] == less;
      assert Along(later)[k] == path;
    }
  }

  /** The list is that of the live nodes, each once, in pre-order, every comment with
      its node's id and text and the id of the node right above. */
  lemma {:induction false} FlatInPreOrder(children: seq<Item>, parent: Id) returns (paths: seq<Path>)
    ensures Listed(children, parent, Flat(children, parent), paths)
    decreases children
  {
    if children == [] {
      paths := [];
    } else {
      hide Listed, Flat;
      var c := children[0];
      var own: seq<Path> := if Live(c) then [[0]] else [];
      var below := FlatInPreOrder(c.children, c.id);
      var later := FlatInPreOrder(children[1..], parent);
      PartsAreListed(children, parent, own, below, later);
      paths := own + Down(below) + Along(later);
    }
  }
}
