/** Paging a long document by character window. Content is counted in characters,
    never in bytes. */
module Truncate {
  import opened Decimals

  datatype Truncation = Truncation(text: string, total: nat, next: nat) {
    predicate Truncated() {
      next < total
    }
  }

  function Marker(next: nat, total: nat): string {
    "\n\n[omnifeed: content truncated at " + Decimal(next) + " of " + Decimal(total)
    + " characters. Call fetch_url again with start_char=" + Decimal(next) + " to continue.]"
  }

  function OutOfRange(start: nat, total: nat): string {
    "[omnifeed: no content at offset " + Decimal(start) + " — total " + Decimal(total) + " characters]"
  }

  /** How many characters of the window to keep, leaving room for the marker when
      the budget has any. */
  function Keep(maxChars: nat, start: nat, total: nat): (keep: nat)
    requires 0 < maxChars
    ensures 0 < keep <= maxChars
  {
    var keep := maxChars - |Marker(start + maxChars, total)|;
    if keep < 1 then maxChars else keep
  }

  function TruncateContent(content: string, maxChars: int, startChar: int): Truncation {
    var total := |content|;
    var start: nat := if startChar < 0 then 0 else startChar;
    if 0 < start && total <= start then Truncation(OutOfRange(start, total), total, total)
    else if 0 < maxChars < total - start then
      var next := start + Keep(maxChars, start, total);
      Truncation(content[start..next] + Marker(next, total), total, next)
    else Truncation(content[start..], total, total)
  }

  // ----- what a reader is told -----

  /** A cut text goes on with where it was cut, of how much, and the offset to go on
      from. */
  lemma CutTells(content: string, maxChars: int, start: nat)
    requires start < |content| || start == 0
    requires TruncateContent(content, maxChars, start).Truncated()
    ensures var t := TruncateContent(content, maxChars, start);
            && start < t.next < |content|
            && t.text == content[start..t.next]
               + ("\n\n[omnifeed: content truncated at " + Decimal(t.next) + " of " + Decimal(|content|)
                  + " characters. Call fetch_url again with start_char=" + Decimal(t.next) + " to continue.]")
  {
    hide TruncateContent, Marker, Keep, Decimal;
    var t := TruncateContent(content, maxChars, start);
    CutIs(content, maxChars, start);
    MarkerTells(t.next, |content|);
  }

  lemma CutIs(content: string, maxChars: int, start: nat)
    requires start < |content| || start == 0
    requires TruncateContent(content, maxChars, start).Truncated()
    ensures var t := TruncateContent(content, maxChars, start);
            start < t.next < |content| && t.text == content[start..t.next] + Marker(t.next, |content|)
  {
    hide Marker;
  }

  lemma MarkerTells(next: nat, total: nat)
    ensures Marker(next, total)
         == "\n\n[omnifeed: content truncated at " + Decimal(next) + " of " + Decimal(total)
            + " characters. Call fetch_url again with start_char=" + Decimal(next) + " to continue.]"
  {
    hide Decimal;
  }

  /** An offset from the end on is told back, with how much there is. */
  lemma OffsetIsTold(content: string, maxChars: int, start: nat)
    requires 0 < start && |content| <= start
    ensures TruncateContent(content, maxChars, start).text
         == "[omnifeed: no content at offset " + Decimal(start) + " — total " + Decimal(|content|) + " characters]"
  {
    hide Decimal;
  }

  // ----- the budget -----

  /** A later offset never makes the marker shorter. */
  lemma LaterMarkerIsNoShorter(next: nat, later: nat, total: nat)
    requires next <= later
    ensures |Marker(next, total)| <= |Marker(later, total)|
  {
    LargerIsNoShorter(next, later);
  }

  /** The text is within the budget exactly when nothing is cut or the budget
      exceeds the marker written against the whole window; an offset past the end
      answers with its message whatever the budget. */
  lemma WithinBudgetExactly(content: string, maxChars: nat, startChar: nat)
    requires 0 < maxChars
    ensures var t := TruncateContent(content, maxChars, startChar);
            |t.text| <= maxChars <==>
              if 0 < startChar && |content| <= startChar then |OutOfRange(startChar, |content|)| <= maxChars
              else |content| <= startChar + maxChars || |Marker(startChar + maxChars, |content|)| < maxChars
  {
    hide Marker, OutOfRange;
    if startChar < |content| && startChar + maxChars < |content| {
      var next := startChar + Keep(maxChars, startChar, |content|);
      LaterMarkerIsNoShorter(next, startChar + maxChars, |content|);
      MarkerIsNotEmpty(next, |content|);
    }
  }

  /** A cut window wastes nothing: where the marker leaves room the text falls short
      of the budget by no more than the digits its offset has fewer than the budget's
      end, and where it does not the window is as long as the budget. */
  lemma CutWindowIsFull(content: string, maxChars: nat, start: nat)
    requires start < |content| || start == 0
    requires TruncateContent(content, maxChars, start).Truncated()
    ensures var t, room := TruncateContent(content, maxChars, start), |Marker(start + maxChars, |content|)| < maxChars;
            && (room ==> |t.text| + 2 * (|Decimal(start + maxChars)| - |Decimal(t.next)|) == maxChars)
            && (!room ==> t.next == start + maxChars)
  {
    hide Marker, Decimal;
    MarkerIsItsDigits(TruncateContent(content, maxChars, start).next, |content|);
    MarkerIsItsDigits(start + maxChars, |content|);
  }

  lemma MarkerIsItsDigits(next: nat, total: nat)
    ensures |Marker(next, total)| == 2 * |Decimal(next)| + |Decimal(total)| + |Marker(0, 0)| - 3
  {
    assert |Decimal(0)| == 1;
  }

  /** The budget of one character: its one-character window comes with a marker. */
  lemma SmallBudgetOvershoots()
    ensures var t := TruncateContent("abc", 1, 0);
            t.Truncated() && 1 < |t.text|
  {
    hide Marker;
    MarkerIsNotEmpty(1, 3);
  }

  /** An offset past the end overshoots any budget shorter than its message. */
  lemma PastTheEndOvershoots()
    ensures var t := TruncateContent("abc", 1, 3);
            !t.Truncated() && 1 < |t.text|
  {
  }

  lemma MarkerIsNotEmpty(next: nat, total: nat)
    ensures 0 < |Marker(next, total)|
  {
  }

  /** An offset before the beginning is the beginning, and what is asked for from
      the end of a document on is told to be nothing. */
  lemma OffsetsOutside(content: string, maxChars: int, startChar: int)
    ensures startChar < 0 ==> TruncateContent(content, maxChars, startChar) == TruncateContent(content, maxChars, 0)
    ensures 0 < startChar && |content| <= startChar ==>
            var t := TruncateContent(content, maxChars, startChar);
            !t.Truncated() && t.total == t.next == |content| && t.text == OutOfRange(startChar, |content|)
  {
    hide Marker, OutOfRange;
  }

  // ----- paging -----

  /** What a window carries of the document: its text without the marker. */
  function Payload(t: Truncation): string
    requires t.Truncated() ==> |Marker(t.next, t.total)| <= |t.text|
  {
    if t.Truncated() then t.text[..|t.text| - |Marker(t.next, t.total)|] else t.text
  }

  /** A window starts where it was asked to and goes on at least one character,
      or to the end. */
  lemma WindowIs(content: string, maxChars: int, start: nat)
    requires start < |content| || start == 0
    ensures var t := TruncateContent(content, maxChars, start);
            && start <= t.next <= |content| == t.total
            && (t.Truncated() ==> start < t.next)
            && (t.Truncated() ==> |Marker(t.next, t.total)| <= |t.text|)
            && Payload(t) == content[start..t.next]
  {
    hide Marker;
  }

  /** The payloads met by following NextStartChar from an offset to the end. */
  function Pages(content: string, maxChars: int, start: nat): seq<string>
    requires start < |content| || start == 0
    decreases |content| - start
  {
    WindowIs(content, maxChars, start);
    var t := TruncateContent(content, maxChars, start);
    [Payload(t)] + if t.Truncated() then Pages(content, maxChars, t.next) else []
  }

  function Concat(pages: seq<string>): string {
    if pages == [] then "" else pages[0] + Concat(pages[1..])
  }

  /** Paging is lossless: from any offset on, for any budget, the payloads make up
      exactly the rest of the document, and no page is empty unless the document
      is. */
  lemma {:induction false} PagesAreContent(content: string, maxChars: int, start: nat)
    requires start < |content| || start == 0
    ensures Concat(Pages(content, maxChars, start)) == content[start..]
    ensures var pages := Pages(content, maxChars, start);
            content != [] ==> forall i :: 0 <= i < |pages| ==> pages[i] != []
    decreases |content| - start
  {
    hide TruncateContent, Payload, Marker;
    WindowIs(content, maxChars, start);
    var t := TruncateContent(content, maxChars, start);
    if t.Truncated() {
      PagesAreContent(content, maxChars, t.next);
      assert content[start..] == content[start..t.next] + content[t.next..];
    } else {
      assert Concat([Payload(t)]) == Payload(t) by {
        assert [Payload(t)][1..] == [];
      }
    }
  }

  /** A document that fits its budget is one page, whole; one that does not is
      never passed off as complete. */
  lemma TruncatedExactly(content: string, maxChars: int, start: nat)
    requires start < |content| || start == 0
    ensures TruncateContent(content, maxChars, start).Truncated() <==> 0 < maxChars < |content| - start
  {
    hide Marker;
  }
}
