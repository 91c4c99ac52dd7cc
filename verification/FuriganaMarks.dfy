/** Tags in furigana markup (src/bunsho/services/furigana.py: `parse_furigana`). */
module FuriganaMarks {
  import opened Furigana

  const OPEN_MARK := "<mark>"
  const CLOSE_MARK := "</mark>"

  function FirstOf(s: string, c: char, p: nat): (q: nat)
    requires p <= |s|
    ensures p <= q <= |s| && c !in s[p..q] && (q < |s| ==> s[q] == c)
    decreases |s| - p
  {
    if p == |s| || s[p] == c then p
    else
      var q := FirstOf(s, c, p + 1);
      assert s[p..q] == [s[p]] + s[p + 1..q];
      q
  }

  /** `<[^>]*>` matching a whole string. */
  predicate IsTag(part: string) {
    |part| >= 2 && part[0] == '<' && part[|part| - 1] == '>' && '>' !in part[..|part| - 1]
  }

  /** An opening bracket, anything but a closing one, and a closing one. */
  lemma TagsAre(part: string)
    ensures IsTag(part) <==> exists inner :: '>' !in inner && part == "<" + inner + ">"
  {
    if IsTag(part) {
      var inner := part[1..|part| - 1];
      assert forall c :: c in inner ==> c in part[..|part| - 1];
      assert part == "<" + inner + ">";
    }
    if inner :| '>' !in inner && part == "<" + inner + ">" {
      assert part[..|part| - 1] == "<" + inner;
    }
  }

  /** `re.split` on the captured tag pattern: text, tag, text, tag, ..., text. */
  function SplitTags(s: string): seq<string>
    decreases |s|
  {
    var open := FirstOf(s, '<', 0);
    var close := FirstOf(s, '>', open);
    if close == |s| then [s] else [s[..open], s[open..close + 1]] + SplitTags(s[close + 1..])
  }

  /** Text in which the tag pattern has no match: no opening bracket comes before a closing one. */
  ghost predicate TagFree(s: string) {
    exists k :: 0 <= k <= |s| && '<' !in s[..k] && '>' !in s[k..]
  }

  lemma {:induction false} SplitLosesNothing(s: string)
    ensures Concat(SplitTags(s)) == s
    decreases |s|
  {
    var open := FirstOf(s, '<', 0);
    var close := FirstOf(s, '>', open);
    if close == |s| {
      assert Concat([s]) == s + Concat([]);
    } else {
      var tail := s[close + 1..];
      SplitLosesNothing(tail);
      ConcatAppend([s[..open], s[open..close + 1]], SplitTags(tail));
      ConcatTwo(s[..open], s[open..close + 1]);
      Cut(s, 0, open, close + 1);
    }
  }

  lemma ConcatTwo(a: string, b: string)
    ensures Concat([a, b]) == a + b
  {
    assert [a, b][1..] == [b] && [b][1..] == [];
    assert Concat([b]) == b + Concat([]);
  }

  lemma TagCut(s: string, open: nat, close: nat)
    requires open <= close < |s| && s[open] == '<' && s[close] == '>' && '>' !in s[open..close]
    ensures IsTag(s[open..close + 1])
  {
    var tag := s[open..close + 1];
    assert tag[..|tag| - 1] == s[open..close];
  }

  /** Text, tag, text, tag, ..., text, and no tag in the text. */
  ghost predicate Alternating(parts: seq<string>) {
    && parts != [] && TagFree(parts[0])
    && (|parts| > 1 ==> |parts| > 2 && IsTag(parts[1]) && Alternating(parts[2..]))
  }

  lemma {:induction false} SplitAlternates(s: string)
    ensures Alternating(SplitTags(s))
    decreases |s|
  {
    var open := FirstOf(s, '<', 0);
    var close := FirstOf(s, '>', open);
    assert s[0..open] == s[..open];
    if close == |s| {
      assert s[open..|s|] == s[open..];
    } else {
      var tail := s[close + 1..];
      SplitAlternates(tail);
      TagCut(s, open, close);
      assert TagFree(s[..open]) by { assert s[..open][..open] == s[..open] && s[..open][open..] == ""; }
      assert SplitTags(s)[2..] == SplitTags(tail);
    }
  }

  // ---- Highlighting ----

  function MarkAfter(highlighted: bool, part: string): bool {
    if part == OPEN_MARK then true else if part == CLOSE_MARK then false else highlighted
  }

  /** The flag after the first `n` parts. */
  function Marked(parts: seq<string>, n: nat): bool
    requires n <= |parts|
  {
    n > 0 && MarkAfter(Marked(parts, n - 1), parts[n - 1])
  }

  function PartSegments(part: string, highlighted: bool): seq<Segment> {
    if part == OPEN_MARK || part == CLOSE_MARK || part == "" || IsTag(part) then []
        else ChunkSegments(part, highlighted)
  }

  function Gathered(parts: seq<string>, n: nat): seq<Segment>
    requires n <= |parts|
  {
    if n == 0 then [] else Gathered(parts, n - 1) + PartSegments(parts[n - 1], Marked(parts, n - 1))
  }

  function Parsed(text: string): seq<Segment> {
    Gathered(SplitTags(text), |SplitTags(text)|)
  }

  method ParseFurigana(text: string) returns (segments: seq<Segment>)
    ensures segments == Parsed(text)
  {
    segments := [];
    var highlighted := false;
    var parts := SplitTags(text);
    for i := 0 to |parts|
      invariant highlighted == Marked(parts, i) && segments == Gathered(parts, i)
    {
      var part := parts[i];
      if part == OPEN_MARK {
        highlighted := true;
      } else if part == CLOSE_MARK {
        highlighted := false;
      } else if part == "" || IsTag(part) {
        continue;
      } else {
        var chunk := ParseChunk(part, highlighted);
        segments := segments + chunk;
      }
    }
  }

  /** The flag is up exactly when the last mark tag so far is an opening one. */
  lemma {:induction false} MarkedByLastTag(parts: seq<string>, n: nat)
    requires n <= |parts|
    ensures Marked(parts, n) <==>
      exists k :: 0 <= k < n && parts[k] == OPEN_MARK && forall j :: k < j < n ==> parts[j] != CLOSE_MARK
  {
    if n > 0 {
      MarkedByLastTag(parts, n - 1);
      if parts[n - 1] != OPEN_MARK && parts[n - 1] != CLOSE_MARK && Marked(parts, n) {
        var k :| 0 <= k < n - 1 && parts[k] == OPEN_MARK && forall j :: k < j < n - 1 ==> parts[j] != CLOSE_MARK;
        assert forall j :: k < j < n ==> parts[j] != CLOSE_MARK;
      }
      if parts[n - 1] == CLOSE_MARK {
        assert OPEN_MARK != CLOSE_MARK by { assert |OPEN_MARK| != |CLOSE_MARK|; }
      }
    }
  }

  ghost predicate AllOf(segments: seq<Segment>, highlighted: bool) {
    forall seg :: seg in segments ==> seg.highlighted == highlighted
  }

  lemma {:induction false} AllHighlighted(s: string, find: Finder, p: nat, highlighted: bool)
    requires Finds(s, find) && p <= |s|
    ensures AllOf(SegmentsFrom(s, find, p, highlighted), highlighted)
    decreases |s| - p
  {
    assert FoundAt(s, find, p);
    if find(p).Some? {
      var m := find(p).value;
      ReadingOn(s, find, highlighted, p);
      AllHighlighted(s, find, m.close + 1, highlighted);
      OneMore(Plain(s, p, m.start, highlighted), Ruby(s, m, highlighted),
          SegmentsFrom(s, find, m.close + 1, highlighted), highlighted);
    }
  }

  lemma OneMore(plain: seq<Segment>, ruby: Segment, rest: seq<Segment>, highlighted: bool)
    requires AllOf(plain, highlighted) && ruby.highlighted == highlighted && AllOf(rest, highlighted)
    ensures AllOf(plain + [ruby] + rest, highlighted)
  {
  }

  /** A segment is highlighted exactly when the last mark tag before its part is an opening one. */
  lemma {:induction false} HighlightedByLastTag(text: string, n: nat, seg: Segment)
    requires n < |SplitTags(text)|
    requires seg in PartSegments(SplitTags(text)[n], Marked(SplitTags(text), n))
    ensures var parts := SplitTags(text);
            seg.highlighted <==>
              exists k :: 0 <= k < n && parts[k] == OPEN_MARK && forall j :: k < j < n ==> parts[j] != CLOSE_MARK
  {
    var parts := SplitTags(text);
    MarkedByLastTag(parts, n);
    PatternFinds(parts[n]);
    AllHighlighted(parts[n], Pattern(parts[n]), 0, Marked(parts, n));
  }

  // ---- No text is lost ----

  /** The text without its tags. */
  function Untagged(parts: seq<string>, n: nat): string
    requires n <= |parts|
  {
    if n == 0 then "" else Untagged(parts, n - 1) + if IsTag(parts[n - 1]) then "" else parts[n - 1]
  }

  lemma MarksAreTags()
    ensures IsTag(OPEN_MARK) && IsTag(CLOSE_MARK)
  {
  }

  lemma PartSpelled(part: string, mark: bool)
    ensures Spells(PartSegments(part, mark), if IsTag(part) then "" else part)
  {
    MarksAreTags();
    if part == "" || IsTag(part) {
      SpellsNothing();
    } else {
      ChunkSpelled(part, mark);
    }
  }

  lemma {:induction false} GatheredSpells(parts: seq<string>, n: nat)
    requires n <= |parts|
    ensures Spells(Gathered(parts, n), Untagged(parts, n))
  {
    if n == 0 {
      SpellsNothing();
    } else {
      GatheredSpells(parts, n - 1);
      var part, mark := parts[n - 1], Marked(parts, n - 1);
      var untagged := if IsTag(part) then "" else part;
      PartSpelled(part, mark);
      SpellsAppend(Gathered(parts, n - 1), Untagged(parts, n - 1), PartSegments(part, mark), untagged);
      assert Gathered(parts, n) == Gathered(parts, n - 1) + PartSegments(part, mark);
      assert Untagged(parts, n) == Untagged(parts, n - 1) + untagged;
    }
  }

  /** The segments spell the text without its tags. */
  lemma {:induction false} ParsedSpells(text: string)
    ensures Spells(Parsed(text), Untagged(SplitTags(text), |SplitTags(text)|))
  {
    GatheredSpells(SplitTags(text), |SplitTags(text)|);
  }

  // ---- Printing and parsing back ----

  /** Canonical segments of one highlighting. */
  datatype Run = Run(highlighted: bool, segments: seq<Segment>)

  predicate Expressible(seg: Segment) {
    '<' !in seg.base && (seg.reading.Some? ==> '<' !in seg.reading.value)
  }

  predicate CanonicalRun(run: Run) {
    run.segments != [] && Canonical(run.segments, run.highlighted) && forall seg :: seg in run.segments ==>
        Expressible(seg)
  }

  /** No two runs without highlighting next to each other: they would be one. */
  predicate CanonicalRuns(runs: seq<Run>) {
    runs != [] ==>
      && CanonicalRun(runs[0]) && CanonicalRuns(runs[1..])
      && (|runs| > 1 && !runs[0].highlighted ==> runs[1].highlighted)
  }

  /** Runs of either highlighting can follow a highlighted one. */
  lemma {:induction false} RunsFollow(a: Run, b: Run, c: Run)
    requires CanonicalRun(a) && CanonicalRun(b) && CanonicalRun(c)
    requires a.highlighted && !b.highlighted && c.highlighted
    ensures CanonicalRuns([a, b, c]) && CanonicalRuns([a, c]) && CanonicalRuns([b, c])
  {
    assert [a, b, c][1..] == [b, c] && [a, c][1..] == [c] && [b, c][1..] == [c] && [c][1..] == [];
    assert CanonicalRuns([]) && CanonicalRuns([c]) && CanonicalRuns([b, c]);
  }

  function Markup(runs: seq<Run>): string {
    if runs == [] then ""
    else
      var text := Print(runs[0].segments, true);
      if runs[0].highlighted then OPEN_MARK + (text + (CLOSE_MARK + Markup(runs[1..]))) else text + Markup(runs[1..])
  }

  function AllSegments(runs: seq<Run>): seq<Segment> {
    if runs == [] then [] else runs[0].segments + AllSegments(runs[1..])
  }

  /** The segments of the parts in turn, the flag being `highlighted` at the first. */
  function GatheredFrom(parts: seq<string>, highlighted: bool): seq<Segment> {
    if parts == [] then []
    else PartSegments(parts[0], highlighted) + GatheredFrom(parts[1..], MarkAfter(highlighted, parts[0]))
  }

  lemma Regroup<T>(a: seq<T>, b: seq<T>, c: seq<T>)
    ensures a + (b + c) == a + b + c
  {
  }

  lemma {:induction false} GatheredForward(parts: seq<string>, n: nat)
    requires n <= |parts|
    ensures Gathered(parts, n) + GatheredFrom(parts[n..], Marked(parts, n)) == GatheredFrom(parts, false)
  {
    if n == 0 {
      assert parts[0..] == parts;
    } else {
      var part, tail, mark := parts[n - 1], parts[n..], Marked(parts, n - 1);
      GatheredForward(parts, n - 1);
      assert parts[n - 1..] == [part] + tail;
      GatheredText(part, tail, mark);
      Regroup(Gathered(parts, n - 1), PartSegments(part, mark), GatheredFrom(tail, Marked(parts, n)));
    }
  }

  lemma TakeAndDrop(pre: string, tail: string)
    ensures (pre + tail)[..|pre|] == pre && (pre + tail)[|pre|..] == tail
  {
  }

  lemma {:induction false} FirstAfter(pre: string, c: char, tail: string, p: nat)
    requires p <= |pre| && c !in pre[p..]
    ensures FirstOf(pre + [c] + tail, c, p) == |pre|
  {
    var s := pre + [c] + tail;
    var q := FirstOf(s, c, p);
    forall i | p <= i < |pre| ensures s[i] != c {
      assert s[i] == pre[p..][i - p] && pre[p..][i - p] in pre[p..];
    }
    forall j | |pre| < j <= |s| ensures c in s[p..j] {
      assert s[p..j][|pre| - p] == c;
    }
  }

  /** Splitting off tag-free text and the tag after it. */
  lemma {:induction false} SplitFirst(pre: string, inner: string, tail: string)
    requires '<' !in pre && '>' !in inner
    ensures SplitTags(pre + ("<" + inner + ">" + tail)) == [pre, "<" + inner + ">"] + SplitTags(tail)
  {
    var s := pre + ("<" + inner + ">" + tail);
    assert s == pre + "<" + (inner + ">" + tail);
    assert pre[0..] == pre;
    FirstAfter(pre, '<', inner + ">" + tail, 0);
    assert s == (pre + ("<" + inner)) + ">" + tail;
    assert (pre + ("<" + inner))[|pre|..] == "<" + inner;
    FirstAfter(pre + ("<" + inner), '>', tail, |pre|);
    TakeAndDrop(pre, "<" + inner + ">" + tail);
    TagText(pre, "<" + inner + ">", tail);
    assert s == pre + ("<" + inner + ">") + tail;
  }

  lemma TagText(pre: string, tag: string, tail: string)
    ensures (pre + tag + tail)[|pre|..|pre + tag|] == tag && (pre + tag + tail)[|pre + tag|..] == tail
  {
  }

  lemma {:induction false} SplitNone(text: string)
    requires '<' !in text
    ensures SplitTags(text) == [text]
  {
    forall i | 0 <= i < |text| ensures text[i] != '<' {
      assert text[i] in text;
    }
  }

  lemma {:induction false} PrintTagFree(segs: seq<Segment>, bare: bool)
    requires forall seg :: seg in segs ==> Expressible(seg)
    ensures '<' !in Print(segs, bare)
  {
    if segs != [] {
      assert Expressible(segs[0]);
      PrintTagFree(segs[1..], segs[0].reading.Some?);
    }
  }

  lemma NotATag(text: string)
    requires '<' !in text
    ensures !IsTag(text)
  {
    assert text != "" ==> text[0] in text;
  }

  lemma {:induction false} PrintedPart(run: Run)
    requires CanonicalRun(run)
    ensures var text := Print(run.segments, true);
            '<' !in text && PartSegments(text, run.highlighted) == run.segments &&
                MarkAfter(run.highlighted, text) == run.highlighted
  {
    var text := Print(run.segments, true);
    PrintTagFree(run.segments, true);
    ParsePrint(run.segments, run.highlighted);
    assert text != "" by { assert IsCanonical(run.segments[0]); }
    NotATag(text);
    MarksAreTags();
  }

  lemma {:induction false} GatheredTag(tag: string, rest: seq<string>, highlighted: bool)
    requires IsTag(tag)
    ensures GatheredFrom([tag] + rest, highlighted) == GatheredFrom(rest, MarkAfter(highlighted, tag))
  {
    assert ([tag] + rest)[1..] == rest;
  }

  lemma {:induction false} GatheredText(text: string, rest: seq<string>, highlighted: bool)
    ensures GatheredFrom([text] + rest, highlighted) == PartSegments(text, highlighted)
            + GatheredFrom(rest, MarkAfter(highlighted, text))
  {
    assert ([text] + rest)[1..] == rest;
  }

  lemma MarkTexts()
    ensures OPEN_MARK == "<" + "mark" + ">" && CLOSE_MARK == "<" + "/mark" + ">"
    ensures '>' !in "mark" && '>' !in "/mark"
  {
  }

  lemma {:induction false} SplitTagged(pre: string, inner: string, tag: string, tail: string)
    requires '<' !in pre && '>' !in inner && tag == "<" + inner + ">"
    ensures SplitTags(pre + (tag + tail)) == [pre] + ([tag] + SplitTags(tail))
  {
    SplitFirst(pre, inner, tail);
    Regroup([pre], [tag], SplitTags(tail));
    assert [pre] + [tag] == [pre, tag];
  }

  /** A highlighted run, wherever it stands: the text before it, the run, and what follows. */
  lemma {:induction false} HighlightedRun(pre: string, run: Run, tail: string)
    requires '<' !in pre && CanonicalRun(run) && run.highlighted
    ensures GatheredFrom(SplitTags(pre + (OPEN_MARK + (Print(run.segments, true) + (CLOSE_MARK + tail)))), false)
         == PartSegments(pre, false) + (run.segments + GatheredFrom(SplitTags(tail), false))
  {
    var text := Print(run.segments, true);
    PrintedPart(run);
    MarksAreTags();
    MarkTexts();
    SplitTagged(pre, "mark", OPEN_MARK, text + (CLOSE_MARK + tail));
    SplitTagged(text, "/mark", CLOSE_MARK, tail);
    var inner := [text] + ([CLOSE_MARK] + SplitTags(tail));
    GatheredText(pre, [OPEN_MARK] + inner, false);
    assert pre != OPEN_MARK by { assert OPEN_MARK[0] == '<' && OPEN_MARK[0] in OPEN_MARK; }
    GatheredTag(OPEN_MARK, inner, false);
    GatheredText(text, [CLOSE_MARK] + SplitTags(tail), true);
    GatheredTag(CLOSE_MARK, SplitTags(tail), true);
  }

  lemma {:induction false} ParseRuns(runs: seq<Run>)
    requires CanonicalRuns(runs)
    ensures GatheredFrom(SplitTags(Markup(runs)), false) == AllSegments(runs)
  {
    if runs == [] {
      SplitNone("");
      GatheredText("", [], false);
    } else {
      var run, rest := runs[0], runs[1..];
      var text := Print(run.segments, true);
      if run.highlighted {
        ParseRuns(rest);
        HighlightedRun("", run, Markup(rest));
        assert Markup(runs) == "" + Markup(runs);
      } else if rest == [] {
        PrintedPart(run);
        SplitNone(text);
        assert text + "" == text;
        GatheredText(text, [], false);
      } else {
        PrintedPart(run);
        ParseRuns(rest[1..]);
        HighlightedRun(text, rest[0], Markup(rest[1..]));
      }
    }
  }

  /** Printing runs of canonical segments, the highlighted ones in mark tags, and parsing gives them back. */
  lemma {:induction false} ParseMarkup(runs: seq<Run>)
    requires CanonicalRuns(runs)
    ensures Parsed(Markup(runs)) == AllSegments(runs)
  {
    var parts := SplitTags(Markup(runs));
    GatheredForward(parts, |parts|);
    assert parts[|parts|..] == [];
    ParseRuns(runs);
  }
}
