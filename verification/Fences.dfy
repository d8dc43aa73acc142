/** Fenced code in markdown: the scanner that keeps rewrites out of code blocks,
    the printer that puts content into one, and the heading rewrite built on the
    scanner. */
module Fences {
  import opened Instants

  // ----- lines -----

  /** The place of the first line end, or the length when there is none. */
  function LineEnd(s: string): (i: nat)
    ensures i <= |s| && (i < |s| ==> s[i] == '\n')
    ensures forall j :: 0 <= j < i ==> s[j] != '\n'
  {
    if s == "" || s[0] == '\n' then 0 else 1 + LineEnd(s[1..])
  }

  /** The lines of a text, each with its line end; the last one has none. */
  function Lines(s: string): seq<string>
    decreases |s|
  {
    var i := LineEnd(s);
    if i == |s| then [s] else [s[..i + 1]] + Lines(s[i + 1..])
  }

  function Joined(lines: seq<string>): string {
    if lines == [] then "" else lines[0] + Joined(lines[1..])
  }

  lemma {:induction false} JoinedLines(s: string)
    ensures Joined(Lines(s)) == s
    decreases |s|
  {
    var i := LineEnd(s);
    if i < |s| {
      JoinedLines(s[i + 1..]);
      assert s == s[..i + 1] + s[i + 1..];
    } else {
      assert [s][1..] == [];
    }
  }

  lemma {:induction false} JoinedConcat(a: seq<string>, b: seq<string>)
    ensures Joined(a + b) == Joined(a) + Joined(b)
  {
    if a == [] {
      assert a + b == b;
    } else {
      assert (a + b)[1..] == a[1..] + b;
      JoinedConcat(a[1..], b);
    }
  }

  predicate OneLine(s: string) {
    s != "" && s[|s| - 1] == '\n' && '\n' !in s[..|s| - 1]
  }

  lemma LinesOfLine(line: string, rest: string)
    requires OneLine(line)
    ensures Lines(line + rest) == [line] + Lines(rest)
  {
    var s, k := line + rest, |line| - 1;
    assert s[k] == '\n' && forall j :: 0 <= j < k ==> s[j] == line[..k][j];
    assert LineEnd(s) == k;
    assert s[..k + 1] == line && s[k + 1..] == rest;
  }

  /** Complete lines in front of a text are lines of the whole. */
  lemma {:induction false} LinesOfJoined(lines: seq<string>, rest: string)
    requires forall i :: 0 <= i < |lines| ==> OneLine(lines[i])
    ensures Lines(Joined(lines) + rest) == lines + Lines(rest)
  {
    if lines == [] {
      assert Joined(lines) + rest == rest;
    } else {
      hide Lines, OneLine;
      LinesOfJoined(lines[1..], rest);
      LinesOfLine(lines[0], Joined(lines[1..]) + rest);
      assert Joined(lines) + rest == lines[0] + (Joined(lines[1..]) + rest);
    }
  }

  // ----- fence lines -----

  /** A fence marker: its character and how many of it. */
  datatype Fence = Fence(mark: char, length: nat)

  /** How many leading characters of s are c. */
  function Run(s: string, c: char): (n: nat)
    ensures n <= |s| && (forall i :: 0 <= i < n ==> s[i] == c) && (n < |s| ==> s[n] != c)
  {
    if s == "" || s[0] != c then 0 else 1 + Run(s[1..], c)
  }

  /** The marker of a line indented by at most three spaces that starts with three
      or more backticks or tildes. */
  function FenceOf(line: string): Option<Fence> {
    var indent := Run(line, ' ');
    if 3 < indent then None
    else
      var rest := line[indent..];
      if 3 <= Run(rest, '`') then Some(Fence('`', Run(rest, '`')))
      else if 3 <= Run(rest, '~') then Some(Fence('~', Run(rest, '~')))
      else None
  }

  /** White space as the standard library trims it. */
  predicate IsSpace(c: char) {
    var n := c as int;
    || 9 <= n <= 13 || n == 0x20 || n == 0x85 || n == 0xA0 || n == 0x1680 || 0x2000 <= n <= 0x200A
    || n == 0x2028 || n == 0x2029 || n == 0x202F || n == 0x205F || n == 0x3000
  }

  function TrimStart(s: string): string {
    if s != "" && IsSpace(s[0]) then TrimStart(s[1..]) else s
  }

  function TrimEnd(s: string): string {
    if s != "" && IsSpace(s[|s| - 1]) then TrimEnd(s[..|s| - 1]) else s
  }

  function TrimSpace(s: string): string {
    TrimEnd(TrimStart(s))
  }

  /** The line ends the block: the same character at least as often, and nothing
      but white space around it. */
  predicate Closes(line: string, open: Fence) {
    && FenceOf(line).Some? && FenceOf(line).value.mark == open.mark && open.length <= FenceOf(line).value.length
    && var trimmed := TrimSpace(line);
       TrimSpace(trimmed[Run(trimmed, open.mark)..]) == ""
  }

  function Marks(mark: char, n: nat): string {
    seq(n, _ => mark)
  }

  lemma {:induction false} RunOf(n: nat, c: char, tail: string)
    requires tail == "" || tail[0] != c
    ensures Run(Marks(c, n) + tail, c) == n
  {
    hide Run;
    var s := Marks(c, n) + tail;
    assert forall i :: 0 <= i < n ==> s[i] == c;
    assert tail != "" ==> s[n] == tail[0];
  }

  /** A fence line is up to three spaces, three or more of one mark, a backtick or a
      tilde, and anything that does not go on with it. */
  lemma FenceFrom(line: string, indent: nat, mark: char, n: nat, tail: string)
    requires line == Marks(' ', indent) + (Marks(mark, n) + tail)
    requires indent <= 3 <= n && (mark == '`' || mark == '~') && (tail == "" || tail[0] != mark)
    ensures FenceOf(line) == Some(Fence(mark, n))
  {
    hide Run;
    var rest := Marks(mark, n) + tail;
    assert rest[0] == mark;
    RunOf(indent, ' ', rest);
    assert line[indent..] == rest;
    RunOf(n, mark, tail);
    if mark == '~' {
      assert Run(rest, '`') == 0;
    }
  }

  /** Nothing else is one. */
  lemma FenceIsOnly(line: string) returns (indent: nat, tail: string)
    requires FenceOf(line).Some?
    ensures var f := FenceOf(line).value;
            && indent <= 3 <= f.length && (f.mark == '`' || f.mark == '~') && (tail == "" || tail[0] != f.mark)
            && line == Marks(' ', indent) + (Marks(f.mark, f.length) + tail)
  {
    hide Run;
    var f := FenceOf(line).value;
    indent := Run(line, ' ');
    var rest := line[indent..];
    tail := rest[f.length..];
    assert line[..indent] == Marks(' ', indent) && rest[..f.length] == Marks(f.mark, f.length);
    assert line == line[..indent] + rest && rest == rest[..f.length] + tail;
  }

  /** The white space of the standard library, one by one. */
  lemma WhiteSpaceIs(c: char)
    ensures IsSpace(c) <==> c as int in {
              9, 10, 11, 12, 13, 32, 133, 160, 5760, 8192, 8193, 8194, 8195, 8196, 8197, 8198, 8199, 8200, 8201, 8202,
              8232, 8233, 8239, 8287, 12288}
  {
  }

  ghost predicate AllWhite(s: string) {
    forall i :: 0 <= i < |s| ==> IsSpace(s[i])
  }

  lemma {:induction false} TrimStartSkips(lead: string, s: string)
    requires AllWhite(lead) && (s == "" || !IsSpace(s[0]))
    ensures TrimStart(lead + s) == s
  {
    hide IsSpace;
    if lead == "" {
      assert lead + s == s;
    } else {
      assert (lead + s)[0] == lead[0] && (lead + s)[1..] == lead[1..] + s;
      TrimStartSkips(lead[1..], s);
    }
  }

  lemma {:induction false} TrimEndSkips(s: string, tail: string)
    requires AllWhite(tail) && (s == "" || !IsSpace(s[|s| - 1]))
    ensures TrimEnd(s + tail) == s
  {
    hide IsSpace;
    if tail == "" {
      assert s + tail == s;
    } else {
      var k := |tail| - 1;
      assert (s + tail)[|s + tail| - 1] == tail[k] && (s + tail)[..|s + tail| - 1] == s + tail[..k];
      TrimEndSkips(s, tail[..k]);
    }
  }

  /** Trimming leaves nothing exactly of white space. */
  lemma {:induction false} TrimsToNothing(s: string)
    ensures TrimSpace(s) == "" <==> AllWhite(s)
  {
    hide IsSpace;
    if AllWhite(s) {
      assert s + "" == s;
      TrimStartSkips(s, "");
    } else {
      LeavesSomething(s);
    }
  }

  lemma {:induction false} LeavesSomething(s: string)
    requires !AllWhite(s)
    ensures TrimStart(s) != "" && !IsSpace(TrimStart(s)[0]) && TrimSpace(s) != ""
  {
    hide IsSpace;
    if IsSpace(s[0]) {
      assert s == [s[0]] + s[1..];
      LeavesSomething(s[1..]);
    } else {
      KeepsFirst(s);
    }
  }

  lemma {:induction false} KeepsFirst(s: string)
    requires s != "" && !IsSpace(s[0])
    ensures TrimEnd(s) != "" && TrimEnd(s)[0] == s[0]
  {
    hide IsSpace;
    if IsSpace(s[|s| - 1]) {
      KeepsFirst(s[..|s| - 1]);
    }
  }

  /** A line closes a block exactly when it is a fence line of the block's mark, at
      least as long, with nothing but white space after the mark. */
  lemma ClosesExactly(line: string, open: Fence, indent: nat, mark: char, n: nat, tail: string)
    requires line == Marks(' ', indent) + (Marks(mark, n) + tail)
    requires indent <= 3 <= n && (mark == '`' || mark == '~') && (tail == "" || tail[0] != mark)
    ensures Closes(line, open) <==> mark == open.mark && open.length <= n && AllWhite(tail)
  {
    hide Run, FenceOf, IsSpace, TrimStart, TrimEnd;
    FenceFrom(line, indent, mark, n, tail);
    MarksAreNoSpace(mark);
    var body := Marks(mark, n) + tail;
    assert body[0] == mark;
    assert AllWhite(Marks(' ', indent)) by {
      WhiteSpaceIs(' ');
    }
    TrimStartSkips(Marks(' ', indent), body);
    TrimmedBody(mark, n, tail);
    TrimsToNothing(tail);
  }

  lemma MarksAreNoSpace(mark: char)
    requires mark == '`' || mark == '~'
    ensures !IsSpace(mark)
  {
  }

  /** What trimming takes from the end it takes from behind the mark. */
  lemma TrimmedBody(mark: char, n: nat, tail: string)
    requires 0 < n && !IsSpace(mark) && (tail == "" || tail[0] != mark)
    ensures var trimmed := TrimEnd(Marks(mark, n) + tail);
            TrimSpace(trimmed[Run(trimmed, mark)..]) == "" <==> AllWhite(tail)
  {
    hide Run, IsSpace;
    var kept := EndOf(tail);
    var body := Marks(mark, n) + tail[..kept];
    assert Marks(mark, n) + tail == body + tail[kept..];
    assert Marks(mark, n)[n - 1] == mark;
    TrimEndSkips(body, tail[kept..]);
    RunOf(n, mark, tail[..kept]);
    assert body[n..] == tail[..kept];
    TrimsToNothing(tail[..kept]);
    assert tail == tail[..kept] + tail[kept..];
  }

  /** Where the white space a text ends with begins. */
  lemma {:induction false} EndOf(s: string) returns (k: nat)
    ensures k <= |s| && AllWhite(s[k..]) && (k == 0 || !IsSpace(s[k - 1]))
  {
    hide IsSpace;
    if s == "" || !IsSpace(s[|s| - 1]) {
      k := |s|;
    } else {
      k := EndOf(s[..|s| - 1]);
      assert s[k..] == s[..|s| - 1][k..] + [s[|s| - 1]];
    }
  }

  // ----- the scanner -----

  /** Prose is rewritten a stretch at a time, and not at all when there is none. */
  function Flushed(prose: string, fn: string -> string): string {
    if prose == "" then "" else fn(prose)
  }

  function MapLines(lines: seq<string>, open: Option<Fence>, prose: string, fn: string -> string): string {
    if lines == [] then Flushed(prose, fn)
    else
      var line, rest := lines[0], lines[1..];
      if open.None? then
        if FenceOf(line).Some? then Flushed(prose, fn) + line + MapLines(rest, FenceOf(line), "", fn)
        else MapLines(rest, None, prose + line, fn)
      else line + MapLines(rest, if Closes(line, open.value) then None else open, prose, fn)
  }

  function Mapped(md: string, fn: string -> string): string {
    MapLines(Lines(md), None, "", fn)
  }

  lemma AtTheEnd(open: Option<Fence>, prose: string, fn: string -> string)
    ensures MapLines([], open, prose, fn) == Flushed(prose, fn)
  {
  }

  lemma AtOpening(lines: seq<string>, prose: string, fn: string -> string)
    requires lines != [] && FenceOf(lines[0]).Some?
    ensures MapLines(lines, None, prose, fn)
         == Flushed(prose, fn) + lines[0] + MapLines(lines[1..], FenceOf(lines[0]), "", fn)
  {
  }

  lemma AtProse(lines: seq<string>, prose: string, fn: string -> string)
    requires lines != [] && FenceOf(lines[0]).None?
    ensures MapLines(lines, None, prose, fn) == MapLines(lines[1..], None, prose + lines[0], fn)
  {
  }

  lemma AtCode(lines: seq<string>, open: Fence, prose: string, fn: string -> string)
    requires lines != []
    ensures MapLines(lines, Some(open), prose, fn)
         == lines[0] + MapLines(lines[1..], if Closes(lines[0], open) then None else Some(open), prose, fn)
  {
  }

  /** Applies fn to every stretch outside fenced code, keeping fence lines and code
      as they are. */
  method MapProse(md: string, fn: string -> string) returns (out: string)
    ensures out == Mapped(md, fn)
  {
    hide FenceOf, Closes, Lines, MapLines, Flushed;
    out := "";
    var prose := "";
    var fence: Option<Fence> := None;
    var lines := Lines(md);
    for i := 0 to |lines|
      invariant out + MapLines(lines[i..], fence, prose, fn) == Mapped(md, fn)
    {
      var line := lines[i];
      ghost var rest := lines[i..];
      assert rest[0] == line && rest[1..] == lines[i + 1..];
      var m := FenceOf(line);
      if fence.None? && m.Some? {
        AtOpening(rest, prose, fn);
        Appended(out, Flushed(prose, fn), line, MapLines(rest[1..], m, "", fn));
        out := out + Flushed(prose, fn);
        prose := "";
        fence := m;
        out := out + line;
      } else if fence.Some? {
        AtCode(rest, fence.value, prose, fn);
        var next := if Closes(line, fence.value) then None else fence;
        Appended(out, "", line, MapLines(rest[1..], next, prose, fn));
        out := out + line;
        fence := next;
      } else {
        AtProse(rest, prose, fn);
        prose := prose + line;
      }
    }
    AtTheEnd(fence, prose, fn);
    out := out + Flushed(prose, fn);
  }

  lemma Appended(out: string, flushed: string, line: string, rest: string)
    ensures out + flushed + line + rest == out + (flushed + line + rest)
  {
  }

  lemma {:induction false} IdentityOnLines(lines: seq<string>, open: Option<Fence>, prose: string, fn: string -> string)
    requires (forall s :: fn(s) == s) && (open.Some? ==> prose == "")
    ensures MapLines(lines, open, prose, fn) == prose + Joined(lines)
  {
    hide FenceOf, Closes, MapLines, Joined;
    if lines == [] {
      AtTheEnd(open, prose, fn);
      JoinedNothing();
    } else {
      var line, rest := lines[0], lines[1..];
      JoinedNext(lines);
      if open.None? && FenceOf(line).None? {
        AtProse(lines, prose, fn);
        IdentityOnLines(rest, None, prose + line, fn);
      } else if open.None? {
        AtOpening(lines, prose, fn);
        IdentityOnLines(rest, FenceOf(line), "", fn);
      } else {
        AtCode(lines, open.value, prose, fn);
        IdentityOnLines(rest, if Closes(line, open.value) then None else open, prose, fn);
      }
    }
  }

  lemma JoinedNothing()
    ensures Joined([]) == ""
  {
  }

  lemma JoinedNext(lines: seq<string>)
    requires lines != []
    ensures Joined(lines) == lines[0] + Joined(lines[1..])
  {
  }

  /** A rewrite that changes nothing changes nothing anywhere: every line of the
      document comes out once, in its place. */
  lemma IdentityMapsToItself(md: string, fn: string -> string)
    requires forall s :: fn(s) == s
    ensures Mapped(md, fn) == md
  {
    IdentityOnLines(Lines(md), None, "", fn);
    JoinedLines(md);
  }

  /** Lines that do not close an open block pass as they are. */
  lemma {:induction false} CodePasses(code: seq<string>, rest: seq<string>, open: Fence, fn: string -> string)
    requires forall i :: 0 <= i < |code| ==> !Closes(code[i], open)
    ensures MapLines(code + rest, Some(open), "", fn) == Joined(code) + MapLines(rest, Some(open), "", fn)
  {
    hide FenceOf, Closes, MapLines, Joined;
    if code == [] {
      assert code + rest == rest;
      JoinedNothing();
    } else {
      assert (code + rest)[0] == code[0] && (code + rest)[1..] == code[1..] + rest;
      AtCode(code + rest, open, "", fn);
      CodePasses(code[1..], rest, open, fn);
      JoinedNext(code);
    }
  }

  /** Lines that open no block gather as one stretch of prose. */
  lemma {:induction false} ProseGathers(lines: seq<string>, rest: seq<string>, prose: string, fn: string -> string)
    requires forall i :: 0 <= i < |lines| ==> FenceOf(lines[i]).None?
    ensures MapLines(lines + rest, None, prose, fn) == MapLines(rest, None, prose + Joined(lines), fn)
  {
    hide FenceOf, Closes, MapLines, Joined;
    if lines == [] {
      assert lines + rest == rest;
      JoinedNothing();
      assert prose + "" == prose;
    } else {
      assert (lines + rest)[0] == lines[0] && (lines + rest)[1..] == lines[1..] + rest;
      AtProse(lines + rest, prose, fn);
      ProseGathers(lines[1..], rest, prose + lines[0], fn);
      JoinedNext(lines);
      assert prose + lines[0] + Joined(lines[1..]) == prose + Joined(lines);
    }
  }

  // ----- the printer -----

  function Ticks(n: nat): string {
    seq(n, _ => '`')
  }

  /** The backticks a text ends with. */
  function TicksAtEnd(s: string): (n: nat)
    ensures n <= |s| && forall i :: |s| - n <= i < |s| ==> s[i] == '`'
  {
    if s == "" || s[|s| - 1] != '`' then 0 else 1 + TicksAtEnd(s[..|s| - 1])
  }

  function LongestTicks(s: string): nat {
    if s == "" then 0 else Max(LongestTicks(s[..|s| - 1]), TicksAtEnd(s))
  }

  function TrimNewlines(s: string): string {
    if s != "" && s[|s| - 1] == '\n' then TrimNewlines(s[..|s| - 1]) else s
  }

  function FenceFor(content: string): nat {
    Max(3, LongestTicks(content) + 1)
  }

  function Fenced(content: string, lang: string): string {
    Ticks(FenceFor(content)) + lang + "\n" + TrimNewlines(content) + "\n" + Ticks(FenceFor(content))
  }

  ghost predicate AllTicks(s: string, i: nat, j: nat) {
    i <= j <= |s| && forall k :: i <= k < j ==> s[k] == '`'
  }

  /** No run of backticks is longer than n. */
  ghost predicate RunsWithin(s: string, n: nat) {
    forall i: nat, j: nat :: AllTicks(s, i, j) ==> j - i <= n
  }

  lemma {:induction false} EndRun(s: string, i: nat)
    requires AllTicks(s, i, |s|)
    ensures |s| - i <= TicksAtEnd(s)
  {
    if i < |s| {
      EndRun(s[..|s| - 1], i);
    }
  }

  lemma {:induction false} LongestIsLongest(s: string, i: nat, j: nat)
    requires AllTicks(s, i, j)
    ensures j - i <= LongestTicks(s)
  {
    if s != "" {
      if j == |s| {
        EndRun(s, i);
      } else {
        assert AllTicks(s[..|s| - 1], i, j);
        LongestIsLongest(s[..|s| - 1], i, j);
      }
    }
  }

  lemma {:induction false} LongestIsReached(s: string) returns (i: nat, j: nat)
    ensures AllTicks(s, i, j) && j - i == LongestTicks(s)
  {
    if s == "" {
      i, j := 0, 0;
    } else if LongestTicks(s) == TicksAtEnd(s) {
      i, j := |s| - TicksAtEnd(s), |s|;
    } else {
      i, j := LongestIsReached(s[..|s| - 1]);
    }
  }

  lemma FenceIsLongEnough(content: string)
    ensures RunsWithin(content, FenceFor(content) - 1)
    ensures 3 < FenceFor(content) ==> !RunsWithin(content, FenceFor(content) - 2)
  {
    forall i: nat, j: nat | AllTicks(content, i, j)
      ensures j - i <= FenceFor(content) - 1
    {
      LongestIsLongest(content, i, j);
    }
    var i, j := LongestIsReached(content);
  }

  /** Wraps content in a fence longer than any run of backticks in it, and no longer
      than that takes beyond the three every fence has. */
  method PrintFenced(content: string, lang: string) returns (block: string)
    ensures block == Fenced(content, lang)
    ensures Ticks(FenceFor(content)) <= block
    ensures 3 <= FenceFor(content) && RunsWithin(content, FenceFor(content) - 1)
    ensures 3 < FenceFor(content) ==> !RunsWithin(content, FenceFor(content) - 2)
  {
    var longest, run := 0, 0;
    for i := 0 to |content|
      invariant longest == LongestTicks(content[..i]) && run == TicksAtEnd(content[..i])
    {
      assert content[..i + 1][..i] == content[..i];
      if content[i] == '`' {
        run := run + 1;
        longest := Max(longest, run);
      } else {
        run := 0;
      }
    }
    assert content[..|content|] == content;
    var fence := Ticks(Max(3, longest + 1));
    block := fence + lang + "\n" + TrimNewlines(content) + "\n" + fence;
    FenceIsLongEnough(content);
  }

  /** Between its fences a block holds the tag's line and the content, short of the
      line ends the content closes with. */
  lemma BlockHoldsContent(content: string, lang: string) returns (body: string, k: nat)
    ensures content == body + Marks('\n', k) && (body == "" || body[|body| - 1] != '\n')
    ensures Fenced(content, lang)
         == Ticks(FenceFor(content)) + (lang + "\n" + body + "\n") + Ticks(FenceFor(content))
  {
    body := TrimNewlines(content);
    k := TrimmedNewlines(content);
    var fence := Ticks(FenceFor(content));
    assert fence + (lang + "\n" + body + "\n") == fence + lang + "\n" + body + "\n";
  }

  lemma {:induction false} TrimmedNewlines(s: string) returns (k: nat)
    ensures s == TrimNewlines(s) + Marks('\n', k)
    ensures TrimNewlines(s) == "" || TrimNewlines(s)[|TrimNewlines(s)| - 1] != '\n'
  {
    if s != "" && s[|s| - 1] == '\n' {
      var front := s[..|s| - 1];
      k := TrimmedNewlines(front);
      assert s == front + "\n" && Marks('\n', k) + "\n" == Marks('\n', k + 1);
      k := k + 1;
    } else {
      k := 0;
    }
  }

  lemma SlicesWithin(s: string, n: nat, a: nat, b: nat)
    requires RunsWithin(s, n) && a <= b <= |s|
    ensures RunsWithin(s[a..b], n)
  {
    forall i: nat, j: nat | AllTicks(s[a..b], i, j)
      ensures j - i <= n
    {
      forall k | a + i <= k < a + j
        ensures s[k] == '`'
      {
        assert s[k] == s[a..b][k - a];
      }
      assert AllTicks(s, a + i, a + j);
    }
  }

  lemma LineEndBreaksRuns(s: string, n: nat)
    requires RunsWithin(s, n)
    ensures RunsWithin(s + "\n", n)
  {
    forall i: nat, j: nat | AllTicks(s + "\n", i, j)
      ensures j - i <= n
    {
      if i < j {
        assert (s + "\n")[j - 1] == '`';
        assert j <= |s|;
        assert forall k :: i <= k < j ==> (s + "\n")[k] == s[k];
        assert AllTicks(s, i, j);
      }
    }
  }

  /** A backtick marker is a run of its line. */
  lemma MarkerWithin(line: string, n: nat)
    requires RunsWithin(line, n)
    ensures FenceOf(line).Some? && FenceOf(line).value.mark == '`' ==> FenceOf(line).value.length <= n
  {
    if FenceOf(line).Some? && FenceOf(line).value.mark == '`' {
      var indent := Run(line, ' ');
      var length := Run(line[indent..], '`');
      forall k | indent <= k < indent + length
        ensures line[k] == '`'
      {
        assert line[k] == line[indent..][k - indent];
      }
      assert AllTicks(line, indent, indent + length);
    }
  }

  lemma {:induction false} TrimmedIsPrefix(s: string) returns (k: nat)
    ensures k <= |s| && TrimNewlines(s) == s[..k]
  {
    if s != "" && s[|s| - 1] == '\n' {
      k := TrimmedIsPrefix(s[..|s| - 1]);
      assert s[..|s| - 1][..k] == s[..k];
    } else {
      k := |s|;
      assert s[..k] == s;
    }
  }

  /** A text that ends its last line is a sequence of complete lines. */
  ghost predicate LinesFor(s: string, lines: seq<string>, n: nat) {
    && Joined(lines) == s
    && forall i :: 0 <= i < |lines| ==> OneLine(lines[i]) && RunsWithin(lines[i], n)
  }

  lemma {:induction false} CompleteLines(s: string, n: nat) returns (lines: seq<string>)
    requires (s == "" || s[|s| - 1] == '\n') && RunsWithin(s, n)
    ensures LinesFor(s, lines, n)
    decreases |s|
  {
    if s == "" {
      lines := [];
    } else {
      hide RunsWithin;
      var i := LineEnd(s);
      SlicesWithin(s, n, 0, i + 1);
      SlicesWithin(s, n, i + 1, |s|);
      assert s[i + 1..|s|] == s[i + 1..] && s[0..i + 1] == s[..i + 1];
      var rest := CompleteLines(s[i + 1..], n);
      lines := [s[..i + 1]] + rest;
      assert lines[1..] == rest && s == s[..i + 1] + s[i + 1..];
    }
  }

  lemma RunOfTicks(n: nat, tail: string)
    requires tail == "" || tail[0] != '`'
    ensures Run(Ticks(n) + tail, '`') == n
    ensures 0 < n ==> Run(Ticks(n) + tail, ' ') == 0
  {
    hide Run;
    var s := Ticks(n) + tail;
    assert forall i :: 0 <= i < n ==> s[i] == '`';
    assert n < |s| ==> s[n] == tail[0];
    assert 0 < n ==> s[0] == '`';
  }

  lemma OpensWithTicks(n: nat, tail: string)
    requires 3 <= n && (tail == "" || tail[0] != '`')
    ensures FenceOf(Ticks(n) + tail) == Some(Fence('`', n))
  {
    RunOfTicks(n, tail);
    assert (Ticks(n) + tail)[0..] == Ticks(n) + tail;
  }

  lemma TrimTicks(n: nat)
    requires 3 <= n
    ensures TrimSpace(Ticks(n)) == Ticks(n) == TrimSpace(Ticks(n) + "\n")
  {
    assert Ticks(n)[0] == '`' && Ticks(n)[n - 1] == '`' && (Ticks(n) + "\n")[0] == '`';
    assert (Ticks(n) + "\n")[..n] == Ticks(n);
  }

  lemma ClosesWithTicks(n: nat, tail: string)
    requires 3 <= n && (tail == "" || tail == "\n")
    ensures Closes(Ticks(n) + tail, Fence('`', n))
  {
    OpensWithTicks(n, tail);
    TrimTicks(n);
    RunOfTicks(n, "");
    assert Ticks(n) + "" == Ticks(n);
    assert Ticks(n)[n..] == "";
  }

  function OpeningLine(content: string, lang: string): string {
    Ticks(FenceFor(content)) + lang + "\n"
  }

  lemma FencedSplits(content: string, lang: string, rest: string)
    ensures Fenced(content, lang) + rest
         == OpeningLine(content, lang) + (TrimNewlines(content) + "\n") + (Ticks(FenceFor(content)) + rest)
  {
    hide TrimNewlines, FenceFor, Ticks;
  }

  lemma OpeningIsLine(content: string, lang: string)
    requires '`' !in lang && '\n' !in lang
    ensures OneLine(OpeningLine(content, lang))
    ensures FenceOf(OpeningLine(content, lang)) == Some(Fence('`', FenceFor(content)))
  {
    hide LongestTicks;
    var n := FenceFor(content);
    assert OpeningLine(content, lang) == Ticks(n) + (lang + "\n");
    OpensWithTicks(n, lang + "\n");
  }

  /** The lines of a printed block and what follows its last fence. */
  lemma FencedLines(content: string, lang: string, code: seq<string>, rest: string)
    requires '`' !in lang && '\n' !in lang
    requires Joined(code) == TrimNewlines(content) + "\n"
    requires forall i :: 0 <= i < |code| ==> OneLine(code[i])
    ensures Lines(Fenced(content, lang) + rest)
         == [OpeningLine(content, lang)] + code + Lines(Ticks(FenceFor(content)) + rest)
  {
    hide Lines, Fenced, Joined, OneLine, TrimNewlines, FenceFor, Ticks, OpeningLine, FenceOf;
    var first := OpeningLine(content, lang);
    OpeningIsLine(content, lang);
    LinesOfJoined([first] + code, Ticks(FenceFor(content)) + rest);
    JoinedNext([first] + code);
    FencedSplits(content, lang, rest);
  }

  lemma CodeLines(content: string) returns (code: seq<string>)
    ensures Joined(code) == TrimNewlines(content) + "\n"
    ensures forall i :: 0 <= i < |code| ==> OneLine(code[i]) && !Closes(code[i], Fence('`', FenceFor(content)))
  {
    hide RunsWithin, LongestTicks, OneLine;
    var longest := LongestTicks(content);
    LongestWithin(content);
    var k := TrimmedIsPrefix(content);
    SlicesWithin(content, longest, 0, k);
    assert content[0..k] == content[..k];
    LineEndBreaksRuns(TrimNewlines(content), longest);
    code := CompleteLines(TrimNewlines(content) + "\n", longest);
    forall i | 0 <= i < |code|
      ensures !Closes(code[i], Fence('`', FenceFor(content)))
    {
      MarkerWithin(code[i], longest);
    }
  }

  lemma LongestWithin(s: string)
    ensures RunsWithin(s, LongestTicks(s))
  {
    forall i: nat, j: nat | AllTicks(s, i, j)
      ensures j - i <= LongestTicks(s)
    {
      LongestIsLongest(s, i, j);
    }
  }

  /** From its opening line on, a printed block passes the scanner as it is and
      leaves it outside code. */
  lemma BlockPasses(content: string, lang: string, code: seq<string>, tail: string, after: seq<string>,
                    prose: string, fn: string -> string)
    requires '`' !in lang && '\n' !in lang && (tail == "" || tail == "\n")
    requires Joined(code) == TrimNewlines(content) + "\n"
    requires forall i :: 0 <= i < |code| ==> !Closes(code[i], Fence('`', FenceFor(content)))
    ensures MapLines([OpeningLine(content, lang)] + code + ([Ticks(FenceFor(content)) + tail] + after), None, prose, fn)
         == Flushed(prose, fn) + (Fenced(content, lang) + tail) + MapLines(after, None, "", fn)
  {
    hide FenceOf, Closes, MapLines, Joined, Fenced, TrimNewlines, Ticks, OpeningLine, Flushed, LongestTicks;
    var n, first := FenceFor(content), OpeningLine(content, lang);
    var last := [Ticks(n) + tail] + after;
    var all := [first] + code + last;
    assert all[0] == first && all[1..] == code + last;
    assert last[0] == Ticks(n) + tail && last[1..] == after;
    OpeningIsLine(content, lang);
    ClosesWithTicks(n, tail);
    AtOpening(all, prose, fn);
    CodePasses(code, last, Fence('`', n), fn);
    AtCode(last, Fence('`', n), "", fn);
    FencedSplits(content, lang, tail);
    Regrouped(Flushed(prose, fn), first, Joined(code), Ticks(n) + tail, MapLines(after, None, "", fn));
  }

  lemma Regrouped(a: string, b: string, c: string, d: string, e: string)
    ensures a + b + (c + (d + e)) == a + (b + c + d) + e
  {
  }

  lemma LineAlone(s: string)
    requires '\n' !in s
    ensures Lines(s) == [s]
  {
  }

  /** A printed block passes the scanner unchanged, for every rewrite, content and
      language tag without a backtick or a line end. */
  lemma FencedPassesUnchanged(content: string, lang: string, fn: string -> string)
    requires '`' !in lang && '\n' !in lang
    ensures Mapped(Fenced(content, lang), fn) == Fenced(content, lang)
  {
    hide MapLines, Lines, Fenced, Closes, Joined, OpeningLine, TrimNewlines, OneLine, LongestTicks;
    var code := CodeLines(content);
    var close := Ticks(FenceFor(content));
    FencedLines(content, lang, code, "");
    BlockPasses(content, lang, code, "", [], "", fn);
    LineAlone(close);
    AtTheEnd(None, "", fn);
    assert close + "" == close && [close] + [] == [close];
    assert Fenced(content, lang) + "" == Fenced(content, lang);
    assert Flushed("", fn) == "";
  }

  /** Complete lines, none of which opens a block. */
  ghost predicate Prose(p: string, lines: seq<string>) {
    && Joined(lines) == p
    && forall i :: 0 <= i < |lines| ==> OneLine(lines[i]) && FenceOf(lines[i]).None?
  }

  /** The scanner works piece by piece: prose, then a printed block, then anything. */
  lemma MapsPieceByPiece(p: string, lines: seq<string>, content: string, lang: string, rest: string,
                         fn: string -> string)
    requires Prose(p, lines) && '`' !in lang && '\n' !in lang
    ensures Mapped(p + (Fenced(content, lang) + ("\n" + rest)), fn)
         == Flushed(p, fn) + (Fenced(content, lang) + "\n") + Mapped(rest, fn)
  {
    hide MapLines, Lines, Fenced, Closes, Joined, OpeningLine, TrimNewlines, OneLine, LongestTicks, FenceOf;
    var code := CodeLines(content);
    var close := Ticks(FenceFor(content));
    var block := [OpeningLine(content, lang)] + code + ([close + "\n"] + Lines(rest));
    FencedLines(content, lang, code, "\n" + rest);
    ClosingLine(close, rest);
    LinesOfJoined(lines, Fenced(content, lang) + ("\n" + rest));
    assert Lines(p + (Fenced(content, lang) + ("\n" + rest))) == lines + block;
    ProseGathers(lines, block, "", fn);
    assert "" + p == p;
    BlockPasses(content, lang, code, "\n", Lines(rest), p, fn);
  }

  lemma ClosingLine(close: string, rest: string)
    requires '\n' !in close
    ensures Lines(close + ("\n" + rest)) == [close + "\n"] + Lines(rest)
  {
    hide Lines;
    assert close + ("\n" + rest) == (close + "\n") + rest;
    assert (close + "\n")[..|close|] == close;
    LinesOfLine(close + "\n", rest);
  }

  // ----- demoting headings -----

  /** The white space the heading pattern accepts, short of a line end. */
  predicate IsBlank(c: char) {
    c == ' ' || c == '\t' || c == '\r' || c as int == 12
  }

  /** The level of a heading line without its line end, or 0. */
  function HeadingLevel(l: string): (level: nat)
    ensures level <= 6 && level <= |l|
  {
    var n := Run(l, '#');
    if 1 <= n <= 6 && n < |l| && IsBlank(l[n]) then n else 0
  }

  function Hashes(n: nat): string {
    seq(n, _ => '#')
  }

  function DemoteText(l: string, levels: nat): string {
    var n := HeadingLevel(l);
    if n == 0 then l else Hashes(Min(n + levels, 6)) + l[n..]
  }

  /** One line with its line end, if it has one. */
  function DemoteLine(line: string, levels: nat): string {
    if line != "" && line[|line| - 1] == '\n' then DemoteText(line[..|line| - 1], levels) + "\n"
    else DemoteText(line, levels)
  }

  function DemoteLines(lines: seq<string>, levels: nat): seq<string> {
    if lines == [] then [] else [DemoteLine(lines[0], levels)] + DemoteLines(lines[1..], levels)
  }

  /** The rewrite of one stretch of prose: every line on its own. */
  function DemoteProse(prose: string, levels: nat): string {
    Joined(DemoteLines(Lines(prose), levels))
  }

  function Demoted(md: string, levels: nat): string {
    Mapped(md, s => DemoteProse(s, levels))
  }

  lemma RunOfHashes(n: nat, tail: string)
    requires tail != "" && tail[0] != '#'
    ensures Run(Hashes(n) + tail, '#') == n
  {
    hide Run;
    var s := Hashes(n) + tail;
    assert forall i :: 0 <= i < n ==> s[i] == '#';
    assert s[n] == tail[0];
  }

  lemma HeadingOf(n: nat, tail: string)
    requires 1 <= n <= 6 && tail != "" && IsBlank(tail[0])
    ensures HeadingLevel(Hashes(n) + tail) == n && (Hashes(n) + tail)[n..] == tail
  {
    RunOfHashes(n, tail);
    assert (Hashes(n) + tail)[n] == tail[0];
  }

  /** A heading is one to six hashes and then white space, and nothing else is. */
  lemma HeadingExactly(l: string, n: nat)
    ensures HeadingLevel(l) == n && 0 < n <==>
            1 <= n <= 6 && n < |l| && l[..n] == Hashes(n)
            && (l[n] == ' ' || l[n] == '\t' || l[n] == '\r' || l[n] as int == 12)
  {
    if 1 <= n < |l| && l[..n] == Hashes(n) && l[n] != '#' {
      assert l == Hashes(n) + l[n..];
      RunOfHashes(n, l[n..]);
    }
    if 0 < n <= |l| && Run(l, '#') == n {
      assert l[..n] == Hashes(n);
    }
  }

  /** Demoting pushes a heading down by the levels asked for, to the sixth at most,
      and keeps its text; it leaves any other line alone. */
  lemma DemotesExactly(l: string, levels: nat)
    ensures var m, n := HeadingLevel(l), HeadingLevel(DemoteText(l, levels));
            && (m == 0 ==> DemoteText(l, levels) == l)
            && (0 < m ==>
                  n == Min(m + levels, 6) && n <= |DemoteText(l, levels)| && DemoteText(l, levels)[n..] == l[m..])
  {
    hide Run;
    var m := HeadingLevel(l);
    if 0 < m {
      HeadingOf(Min(m + levels, 6), l[m..]);
    }
  }

  /** Demoting a heading by a and then by b is demoting it by a + b. */
  lemma DemoteTextTwice(l: string, a: nat, b: nat)
    ensures DemoteText(DemoteText(l, a), b) == DemoteText(l, a + b)
  {
    hide Run, Hashes;
    var n := HeadingLevel(l);
    if n != 0 {
      assert l[n..][0] == l[n];
      HeadingOf(Min(n + a, 6), l[n..]);
    }
  }

  /** A demoted line is empty, or ends, where it was or did before. */
  lemma DemoteTextEnds(l: string, a: nat)
    ensures l != "" ==> DemoteText(l, a) != "" && DemoteText(l, a)[|DemoteText(l, a)| - 1] == l[|l| - 1]
    ensures '\n' !in l ==> '\n' !in DemoteText(l, a)
  {
    hide Run;
  }

  lemma DemoteLineTwice(line: string, a: nat, b: nat)
    ensures DemoteLine(DemoteLine(line, a), b) == DemoteLine(line, a + b)
    ensures OneLine(line) ==> OneLine(DemoteLine(line, a))
    ensures '\n' !in line ==> '\n' !in DemoteLine(line, a)
  {
    hide DemoteText;
    if line != "" && line[|line| - 1] == '\n' {
      var l := line[..|line| - 1];
      DemoteTextTwice(l, a, b);
      DemoteTextEnds(l, a);
      assert (DemoteText(l, a) + "\n")[..|DemoteText(l, a)|] == DemoteText(l, a);
    } else {
      DemoteTextTwice(line, a, b);
      DemoteTextEnds(line, a);
    }
  }

  /** A heading is never a fence, before or after. */
  lemma DemoteKeepsFences(line: string, a: nat)
    requires FenceOf(line).None?
    ensures FenceOf(DemoteLine(line, a)).None?
  {
    var ended := line != "" && line[|line| - 1] == '\n';
    var l := if ended then line[..|line| - 1] else line;
    if HeadingLevel(l) != 0 {
      var t := DemoteLine(line, a);
      assert t[0] == '#';
      assert Run(t, ' ') == 0;
      assert t[0..] == t;
    } else if ended {
      assert l + "\n" == line;
    }
  }

  /** The whole document line by line: lines outside code are demoted. */
  function DemoteAll(lines: seq<string>, open: Option<Fence>, levels: nat): seq<string> {
    if lines == [] then []
    else
      var line, rest := lines[0], lines[1..];
      if open.None? && FenceOf(line).None? then [DemoteLine(line, levels)] + DemoteAll(rest, None, levels)
      else if open.None? then [line] + DemoteAll(rest, FenceOf(line), levels)
      else [line] + DemoteAll(rest, if Closes(line, open.value) then None else open, levels)
  }

  /** Complete lines and a last one without a line end. */
  ghost predicate Shaped(lines: seq<string>) {
    && lines != [] && '\n' !in lines[|lines| - 1]
    && forall i :: 0 <= i < |lines| - 1 ==> OneLine(lines[i])
  }

  lemma {:induction false} LinesAreShaped(s: string)
    ensures Shaped(Lines(s))
    decreases |s|
  {
    var i := LineEnd(s);
    if i < |s| {
      LinesAreShaped(s[i + 1..]);
      assert OneLine(s[..i + 1]);
    }
  }

  lemma LinesOfShaped(lines: seq<string>)
    requires Shaped(lines)
    ensures Lines(Joined(lines)) == lines
  {
    hide Lines, OneLine, Joined;
    var k := |lines| - 1;
    LinesOfJoined(lines[..k], lines[k]);
    LineAlone(lines[k]);
    JoinedConcat(lines[..k], [lines[k]]);
    JoinedOne(lines[k]);
    assert lines == lines[..k] + [lines[k]];
  }

  lemma JoinedOne(line: string)
    ensures Joined([line]) == line
  {
    assert [line][1..] == [];
  }

  lemma {:induction false} DemoteLinesConcat(a: seq<string>, b: seq<string>, levels: nat)
    ensures DemoteLines(a + b, levels) == DemoteLines(a, levels) + DemoteLines(b, levels)
  {
    if a == [] {
      assert a + b == b;
    } else {
      assert (a + b)[1..] == a[1..] + b;
      DemoteLinesConcat(a[1..], b, levels);
    }
  }

  lemma DemoteLinesOne(line: string, levels: nat)
    ensures DemoteLines([line], levels) == [DemoteLine(line, levels)]
  {
    assert [line][1..] == [];
  }

  ghost predicate Complete(lines: seq<string>) {
    forall i :: 0 <= i < |lines| ==> OneLine(lines[i])
  }

  /** A stretch of prose is demoted line by line, wherever it stops. */
  lemma StretchDemoted(lines: seq<string>, last: string, levels: nat)
    requires Complete(lines) && '\n' !in last
    ensures DemoteProse(Joined(lines) + last, levels) == Joined(DemoteLines(lines, levels)) + DemoteLine(last, levels)
  {
    hide Lines, Joined, OneLine, DemoteLine, DemoteLines;
    LinesOfJoined(lines, last);
    LineAlone(last);
    DemoteLinesConcat(lines, [last], levels);
    DemoteLinesOne(last, levels);
    JoinedConcat(DemoteLines(lines, levels), [DemoteLine(last, levels)]);
    JoinedOne(DemoteLine(last, levels));
  }

  lemma FlushDemoted(lines: seq<string>, last: string, levels: nat)
    requires Complete(lines) && '\n' !in last
    ensures Flushed(Joined(lines) + last, s => DemoteProse(s, levels))
         == Joined(DemoteLines(lines, levels)) + DemoteLine(last, levels)
  {
    hide DemoteProse;
    StretchDemoted(lines, last, levels);
    if lines != [] {
      SomeLines(lines);
    }
  }

  lemma SomeLines(lines: seq<string>)
    requires Complete(lines) && lines != []
    ensures Joined(lines) != ""
  {
    JoinedNext(lines);
  }

  lemma FlushComplete(lines: seq<string>, levels: nat)
    requires Complete(lines)
    ensures Flushed(Joined(lines), s => DemoteProse(s, levels)) == Joined(DemoteLines(lines, levels))
  {
    hide DemoteProse, Joined, DemoteLines, OneLine, Flushed;
    FlushDemoted(lines, "", levels);
    assert Joined(lines) + "" == Joined(lines);
    assert Joined(DemoteLines(lines, levels)) + "" == Joined(DemoteLines(lines, levels));
  }

  lemma OneMoreLine(lines: seq<string>, line: string, levels: nat)
    requires Complete(lines) && OneLine(line)
    ensures Complete(lines + [line]) && Joined(lines + [line]) == Joined(lines) + line
    ensures Joined(DemoteLines(lines + [line], levels)) == Joined(DemoteLines(lines, levels)) + DemoteLine(line, levels)
  {
    hide OneLine, DemoteLine, DemoteLines, Joined;
    JoinedConcat(lines, [line]);
    JoinedOne(line);
    DemoteLinesConcat(lines, [line], levels);
    DemoteLinesOne(line, levels);
    JoinedConcat(DemoteLines(lines, levels), [DemoteLine(line, levels)]);
    JoinedOne(DemoteLine(line, levels));
  }

  lemma DemoteAllNext(lines: seq<string>, open: Option<Fence>, levels: nat)
    requires lines != []
    ensures var line, rest := lines[0], lines[1..];
            Joined(DemoteAll(lines, open, levels)) ==
              if open.None? && FenceOf(line).None? then
                DemoteLine(line, levels) + Joined(DemoteAll(rest, None, levels))
              else if open.None? then line + Joined(DemoteAll(rest, FenceOf(line), levels))
              else line + Joined(DemoteAll(rest, if Closes(line, open.value) then None else open, levels))
  {
    hide FenceOf, Closes, DemoteLine;
  }

  lemma DemoteAllNothing(open: Option<Fence>, levels: nat)
    ensures Joined(DemoteAll([], open, levels)) == ""
  {
  }

  /** Scanning with the heading rewrite demotes line by line outside code. */
  lemma {:induction false} ScanDemotes(lines: seq<string>, open: Option<Fence>, gathered: seq<string>, levels: nat)
    requires Shaped(lines) && Complete(gathered) && (open.Some? ==> gathered == [])
    ensures MapLines(lines, open, Joined(gathered), s => DemoteProse(s, levels))
         == Joined(DemoteLines(gathered, levels)) + Joined(DemoteAll(lines, open, levels))
    decreases |lines|
  {
    hide FenceOf, Closes, Flushed, DemoteLine, DemoteLines, DemoteAll, Joined, MapLines, DemoteProse, OneLine;
    var fn := s => DemoteProse(s, levels);
    var line, rest := lines[0], lines[1..];
    DemoteAllNext(lines, open, levels);
    NothingGathered(levels);
    if rest == [] {
      ScanLast(line, open, gathered, levels);
      assert lines == [line];
    } else {
      assert Shaped(rest);
      if open.None? && FenceOf(line).None? {
        AtProse(lines, Joined(gathered), fn);
        OneMoreLine(gathered, line, levels);
        ScanDemotes(rest, None, gathered + [line], levels);
      } else if open.None? {
        AtOpening(lines, Joined(gathered), fn);
        FlushComplete(gathered, levels);
        ScanDemotes(rest, FenceOf(line), [], levels);
      } else {
        AtCode(lines, open.value, Joined(gathered), fn);
        ScanDemotes(rest, if Closes(line, open.value) then None else open, [], levels);
      }
    }
  }

  lemma NothingGathered(levels: nat)
    ensures Joined([]) == "" && Joined(DemoteLines([], levels)) == ""
    ensures Flushed("", s => DemoteProse(s, levels)) == ""
  {
  }

  lemma ScanLast(line: string, open: Option<Fence>, gathered: seq<string>, levels: nat)
    requires '\n' !in line && Complete(gathered) && (open.Some? ==> gathered == [])
    ensures MapLines([line], open, Joined(gathered), s => DemoteProse(s, levels))
         == Joined(DemoteLines(gathered, levels)) + Joined(DemoteAll([line], open, levels))
  {
    hide FenceOf, Closes, Flushed, DemoteLine, DemoteLines, DemoteAll, Joined, MapLines, DemoteProse, OneLine;
    var fn := s => DemoteProse(s, levels);
    assert [line][1..] == [];
    DemoteAllNext([line], open, levels);
    NothingGathered(levels);
    if open.None? && FenceOf(line).None? {
      AtProse([line], Joined(gathered), fn);
      AtTheEnd(None, Joined(gathered) + line, fn);
      FlushDemoted(gathered, line, levels);
      DemoteAllNothing(None, levels);
    } else if open.None? {
      AtOpening([line], Joined(gathered), fn);
      FlushComplete(gathered, levels);
      AtTheEnd(FenceOf(line), "", fn);
      DemoteAllNothing(FenceOf(line), levels);
    } else {
      var after := if Closes(line, open.value) then None else open;
      AtCode([line], open.value, Joined(gathered), fn);
      AtTheEnd(after, "", fn);
      DemoteAllNothing(after, levels);
    }
  }

  lemma DemotedIs(md: string, levels: nat)
    ensures Demoted(md, levels) == Joined(DemoteAll(Lines(md), None, levels))
  {
    hide DemoteProse, DemoteAll, MapLines, Lines, Joined, DemoteLines;
    LinesAreShaped(md);
    ScanDemotes(Lines(md), None, [], levels);
    NothingGathered(levels);
  }

  lemma {:induction false} DemoteAllShaped(lines: seq<string>, open: Option<Fence>, levels: nat)
    requires Shaped(lines)
    ensures Shaped(DemoteAll(lines, open, levels)) && |DemoteAll(lines, open, levels)| == |lines|
  {
    hide FenceOf, Closes, DemoteLine, OneLine;
    var line, rest := lines[0], lines[1..];
    DemoteLineTwice(line, levels, 0);
    if rest != [] {
      assert Shaped(rest);
      var next := if open.None? then FenceOf(line) else if Closes(line, open.value) then None else open;
      DemoteAllShaped(rest, next, levels);
    }
  }

  lemma {:induction false} DemoteAllTwice(lines: seq<string>, open: Option<Fence>, a: nat, b: nat)
    ensures DemoteAll(DemoteAll(lines, open, a), open, b) == DemoteAll(lines, open, a + b)
  {
    hide FenceOf, Closes, DemoteLine;
    if lines != [] {
      var line, rest := lines[0], lines[1..];
      DemoteLineTwice(line, a, b);
      if open.None? && FenceOf(line).None? {
        DemoteKeepsFences(line, a);
        DemoteAllTwice(rest, None, a, b);
      } else {
        var next := if open.None? then FenceOf(line) else if Closes(line, open.value) then None else open;
        DemoteAllTwice(rest, next, a, b);
      }
    }
  }

  /** Demoting headings by a and then by b is demoting them by a + b, in every
      document: the first pass moves no fence and touches no code. */
  lemma DemotingAddsUp(md: string, a: nat, b: nat)
    ensures Demoted(Demoted(md, a), b) == Demoted(md, a + b)
  {
    hide DemoteAll, Lines, Joined, Demoted;
    DemotedIs(md, a);
    DemotedIs(md, a + b);
    DemotedIs(Demoted(md, a), b);
    LinesAreShaped(md);
    DemoteAllShaped(Lines(md), None, a);
    LinesOfShaped(DemoteAll(Lines(md), None, a));
    DemoteAllTwice(Lines(md), None, a, b);
  }
}
