/** The parser of furigana markup (src/bunsho/services/furigana.py). */
module Furigana {
  import opened ReviewTypes

  datatype Segment = Segment(base: string, reading: Option<string>, highlighted: bool)

  /** What `\s` matches in a Python string. */
  predicate IsSpace(c: char) {
    || '\t' <= c <= '\r' || '\U{1C}' <= c <= ' ' || c == '\U{85}' || c == '\U{A0}' || c == '\U{1680}'
    || '\U{2000}' <= c <= '\U{200A}' || c == '\U{2028}' || c == '\U{2029}' || c == '\U{202F}' || c == '\U{205F}' ||
         c == '\U{3000}'
  }

  /** The space characters of Unicode, one by one. */
  const SPACES: seq<char> := [
    '\t', '\n', '\U{0B}', '\U{0C}', '\r', '\U{1C}', '\U{1D}', '\U{1E}', '\U{1F}', ' ', '\U{85}', '\U{A0}', '\U{1680}',
    '\U{2000}', '\U{2001}', '\U{2002}', '\U{2003}', '\U{2004}', '\U{2005}', '\U{2006}', '\U{2007}', '\U{2008}',
    '\U{2009}', '\U{200A}', '\U{2028}', '\U{2029}', '\U{202F}', '\U{205F}', '\U{3000}']

  lemma SpacesAre(c: char)
    ensures IsSpace(c) <==> c in SPACES
  {
  }

  predicate IsBase(c: char) { !IsSpace(c) && c != '[' && c != ']' }

  predicate IsReading(c: char) { c != ']' }

  /** The character classes of the pattern: a base holds no space and no bracket, a reading no closing bracket. */
  lemma ClassesAre(c: char)
    ensures IsBase(c) <==> c !in SPACES && c !in "[]"
    ensures IsReading(c) <==> c !in "]"
  {
    SpacesAre(c);
  }

  // ---- The ruby pattern: a base run and a bracketed reading ----

  /** End of the run of base characters at `p`. */
  function BaseEnd(s: string, p: nat): (q: nat)
    requires p <= |s|
    ensures p <= q <= |s| && (forall i {:trigger IsBase(s[i])} :: p <= i < q ==> IsBase(s[i])) &&
            (q < |s| ==> !IsBase(s[q]))
    decreases |s| - p
  {
    if p < |s| && IsBase(s[p]) then BaseEnd(s, p + 1) else p
  }

  /** The first closing bracket at or after `p`, or the end. */
  function ReadingEnd(s: string, p: nat): (q: nat)
    requires p <= |s|
    ensures p <= q <= |s| && (forall i {:trigger IsReading(s[i])} :: p <= i < q ==> IsReading(s[i])) &&
            (q < |s| ==> s[q] == ']')
    decreases |s| - p
  {
    if p < |s| && IsReading(s[p]) then ReadingEnd(s, p + 1) else p
  }

  /** A match: it starts at `start`, its base at `base`, its reading after `open`, and `close` is its last character. */
  datatype Match = Match(start: nat, base: nat, open: nat, close: nat)

  ghost predicate ValidMatch(s: string, m: Match) {
    && m.start <= m.base < m.open && m.base <= m.start + 1 && m.open + 1 < m.close < |s|
    && (m.base == m.start + 1 ==> IsSpace(s[m.start]))
    && s[m.open] == '[' && s[m.close] == ']'
    && (forall i {:trigger IsBase(s[i])} :: m.base <= i < m.open ==> IsBase(s[i]))
    && (forall i {:trigger IsReading(s[i])} :: m.open < i < m.close ==> IsReading(s[i]))
  }

  function BodyAt(s: string, start: nat, p: nat): (m: Option<Match>)
    requires start <= p <= |s| && p <= start + 1 && (p == start + 1 ==> IsSpace(s[start]))
    ensures m.Some? ==> ValidMatch(s, m.value) && m.value.start == start && m.value.base == p
  {
    var open := BaseEnd(s, p);
    if open == p || open == |s| || s[open] != '[' then None
    else
      var close := ReadingEnd(s, open + 1);
      if close == open + 1 || close == |s| then None else Some(Match(start, p, open, close))
  }

  /** The pattern tried at one place: at the very start, after a space it swallows, or after a closing bracket. */
  function MatchAt(s: string, p: nat): (m: Option<Match>)
    requires p <= |s|
    ensures m.Some? ==> ValidMatch(s, m.value) && m.value.start == p
  {
    if p == 0 && BodyAt(s, p, p).Some? then BodyAt(s, p, p)
    else if p < |s| && IsSpace(s[p]) && BodyAt(s, p, p + 1).Some? then BodyAt(s, p, p + 1)
    else if p > 0 && s[p - 1] == ']' then BodyAt(s, p, p)
    else None
  }

  /** The leftmost match from `p` on. */
  function Search(s: string, p: nat): (m: Option<Match>)
    requires p <= |s|
    ensures m.Some? ==> ValidMatch(s, m.value) && p <= m.value.start && MatchAt(s, m.value.start) == m
    decreases |s| - p
  {
    if MatchAt(s, p).Some? then MatchAt(s, p) else if p < |s| then Search(s, p + 1) else None
  }

  /** What the pattern accepts, whichever way it is searched for. */
  ghost predicate Accepts(s: string, m: Match) {
    ValidMatch(s, m) && (m.base == m.start ==> m.start == 0 || s[m.start - 1] == ']')
  }

  /** At one place there is at most one match, and it is the one that is tried. */
  lemma MatchAtIs(s: string, p: nat, m: Match)
    requires p <= |s|
    ensures Accepts(s, m) && m.start == p <==> MatchAt(s, p) == Some(m)
  {
    if Accepts(s, m) && m.start == p {
      BodyFound(s, m.start, m.base, m.open, m.close);
      OneWay(s, m);
    }
  }

  lemma OneWay(s: string, m: Match)
    requires Accepts(s, m) && BodyAt(s, m.start, m.base) == Some(m)
    ensures MatchAt(s, m.start) == Some(m)
  {
    if m.base > m.start {
      assert !IsBase(s[m.start]);
      assert BodyAt(s, m.start, m.start).None?;
    } else {
      assert IsBase(s[m.start]);
    }
  }

  /** The search finds the leftmost match from `p` on, and misses none. */
  lemma {:induction false} SearchIsLeftmost(s: string, p: nat, m: Match)
    requires p <= |s| && Accepts(s, m) && p <= m.start
    ensures Search(s, p).Some? && Accepts(s, Search(s, p).value)
    ensures Search(s, p).value.start < m.start || Search(s, p).value == m
    decreases |s| - p
  {
    if MatchAt(s, p).Some? {
      MatchAtIs(s, p, MatchAt(s, p).value);
      MatchAtIs(s, p, m);
    } else {
      MatchAtIs(s, p, m);
      SearchIsLeftmost(s, p + 1, m);
    }
  }

  function Plain(s: string, from: nat, to: nat, highlighted: bool): seq<Segment>
    requires from <= to <= |s|
  {
    if from < to then [Segment(s[from..to], None, highlighted)] else []
  }

  function Ruby(s: string, m: Match, highlighted: bool): Segment
    requires m.base <= m.open < m.close <= |s|
  {
    Segment(s[m.base..m.open], Some(s[m.open + 1..m.close]), highlighted)
  }

  // ---- The segments between and at the matches ----

  /** `find(p)` is the next match in `s` from `p` on. */
  type Finder = nat -> Option<Match>

  /** A match found from `p` on lies there. */
  ghost predicate FoundAt(s: string, find: Finder, p: nat) {
    find(p).Some? ==> var m := find(p).value; p <= m.start <= m.base <= m.open < m.close < |s|
  }

  ghost predicate Finds(s: string, find: Finder) {
    forall p {:trigger FoundAt(s, find, p)} :: FoundAt(s, find, p)
  }

  function Pattern(s: string): Finder {
    (p: nat) => if p <= |s| then Search(s, p) else None
  }

  lemma PatternFinds(s: string)
    ensures Finds(s, Pattern(s))
  {
  }

  /** The segments of a chunk from `p` on, where the search for the next match resumes. */
  function SegmentsFrom(s: string, find: Finder, p: nat, highlighted: bool): seq<Segment>
    requires Finds(s, find) && p <= |s|
    decreases |s| - p
  {
    assert FoundAt(s, find, p);
    if find(p).None? then Plain(s, p, |s|, highlighted)
    else
      var m := find(p).value;
      Plain(s, p, m.start, highlighted) + [Ruby(s, m, highlighted)] + SegmentsFrom(s, find, m.close + 1, highlighted)
  }

  /** `read(p)` is what is read from `p` on: the next match with the plain text before it, and what follows. */
  ghost predicate ReadsOn(s: string, find: Finder, read: nat -> seq<Segment>, highlighted: bool, p: nat)
    requires p <= |s|
  {
    if find(p).None? then read(p) == Plain(s, p, |s|, highlighted)
    else
      var m := find(p).value;
      && p <= m.start <= m.base <= m.open < m.close < |s|
      && read(p) == Plain(s, p, m.start, highlighted) + [Ruby(s, m, highlighted)] + read(m.close + 1)
  }

  ghost predicate Reads(s: string, find: Finder, read: nat -> seq<Segment>, highlighted: bool) {
    forall p {:trigger ReadsOn(s, find, read, highlighted, p)} :: 0 <= p <= |s| ==>
        ReadsOn(s, find, read, highlighted, p)
  }

  function Reading(s: string, find: Finder, highlighted: bool): nat -> seq<Segment>
    requires Finds(s, find)
  {
    (p: nat) => if p <= |s| then SegmentsFrom(s, find, p, highlighted) else []
  }

  lemma {:induction false} ReadingOn(s: string, find: Finder, highlighted: bool, p: nat)
    requires Finds(s, find) && p <= |s|
    ensures ReadsOn(s, find, Reading(s, find, highlighted), highlighted, p)
  {
    assert FoundAt(s, find, p);
  }

  lemma ReadingReads(s: string, find: Finder, highlighted: bool)
    requires Finds(s, find)
    ensures Reads(s, find, Reading(s, find, highlighted), highlighted)
  {
    forall p | 0 <= p <= |s| ensures ReadsOn(s, find, Reading(s, find, highlighted), highlighted, p) {
      ReadingOn(s, find, highlighted, p);
    }
  }

  lemma Appends<T>(a: seq<T>, b: seq<T>, c: seq<T>, d: seq<T>)
    ensures a + (b + c + d) == a + b + c + d
  {
  }

  /** The loop of `_parse_chunk`: each match, with the plain text before it and after the last one. */
  method ParseMatches(chunk: string, find: Finder, highlighted: bool, ghost read: nat -> seq<Segment>)
    returns (segments: seq<Segment>)
    requires Reads(chunk, find, read, highlighted)
    ensures segments == read(0)
  {
    segments := [];
    var cursor: nat := 0;
    var next := find(0);
    while next.Some?
      invariant cursor <= |chunk| && next == find(cursor)
      invariant segments + read(cursor) == read(0)
      decreases |chunk| - cursor
    {
      assert ReadsOn(chunk, find, read, highlighted, cursor);
      var m := next.value;
      Appends(segments, Plain(chunk, cursor, m.start, highlighted), [Ruby(chunk, m, highlighted)], read(m.close + 1));
      segments := AddPlain(segments, chunk, cursor, m.start, highlighted);
      segments := segments + [Ruby(chunk, m, highlighted)];
      cursor := m.close + 1;
      next := find(cursor);
    }
    assert ReadsOn(chunk, find, read, highlighted, cursor);
    segments := AddPlain(segments, chunk, cursor, |chunk|, highlighted);
  }

  method AddPlain(segments: seq<Segment>, chunk: string, from: nat, to: nat,
                  highlighted: bool) returns (more: seq<Segment>)
    requires from <= to <= |chunk|
    ensures more == segments + Plain(chunk, from, to, highlighted)
  {
    more := segments;
    if from < to {
      more := more + [Segment(chunk[from..to], None, highlighted)];
    }
  }

  /** The segments of one tag-free chunk. */
  function ChunkSegments(chunk: string, highlighted: bool): seq<Segment> {
    PatternFinds(chunk);
    SegmentsFrom(chunk, Pattern(chunk), 0, highlighted)
  }

  method ParseChunk(chunk: string, highlighted: bool) returns (segments: seq<Segment>)
    ensures segments == ChunkSegments(chunk, highlighted)
  {
    PatternFinds(chunk);
    ReadingReads(chunk, Pattern(chunk), highlighted);
    segments := ParseMatches(chunk, Pattern(chunk), highlighted, Reading(chunk, Pattern(chunk), highlighted));
  }

  // ---- No text is lost ----

  function Written(seg: Segment): string {
    if seg.reading.None? then seg.base else seg.base + "[" + seg.reading.value + "]"
  }

  /** A segment as it stands in the text: a ruby may have one whitespace before it. */
  ghost predicate PieceOf(seg: Segment, piece: string) {
    || piece == Written(seg)
    || (seg.reading.Some? && exists c :: IsSpace(c) && piece == [c] + Written(seg))
  }

  function Concat(pieces: seq<string>): string {
    if pieces == [] then "" else pieces[0] + Concat(pieces[1..])
  }

  ghost predicate PiecesOf(segments: seq<Segment>, pieces: seq<string>) {
    |pieces| == |segments| && forall i :: 0 <= i < |pieces| ==> PieceOf(segments[i], pieces[i])
  }

  /** The segments, in order, spell the text, but for at most one whitespace dropped before each ruby. */
  ghost predicate Spells(segments: seq<Segment>, text: string) {
    exists pieces :: PiecesOf(segments, pieces) && Concat(pieces) == text
  }

  lemma {:induction false} ConcatAppend(a: seq<string>, b: seq<string>)
    ensures Concat(a + b) == Concat(a) + Concat(b)
  {
    if a == [] {
      assert a + b == b;
    } else {
      ConcatAppend(a[1..], b);
      assert (a + b)[1..] == a[1..] + b && (a + b)[0] == a[0];
      assert a[0] + (Concat(a[1..]) + Concat(b)) == a[0] + Concat(a[1..]) + Concat(b);
    }
  }

  lemma {:induction false} SpellsAppend(a: seq<Segment>, x: string, b: seq<Segment>, y: string)
    requires Spells(a, x) && Spells(b, y)
    ensures Spells(a + b, x + y)
  {
    var p :| PiecesOf(a, p) && Concat(p) == x;
    var q :| PiecesOf(b, q) && Concat(q) == y;
    ConcatAppend(p, q);
    assert PiecesOf(a + b, p + q);
  }

  lemma SpellsOne(seg: Segment, piece: string)
    requires PieceOf(seg, piece)
    ensures Spells([seg], piece)
  {
    assert Concat([piece]) == piece + Concat([]);
    assert PiecesOf([seg], [piece]);
  }

  lemma SpellsNothing()
    ensures Spells([], "")
  {
    assert PiecesOf([], []) && Concat([]) == "";
  }

  lemma {:induction false} RubySpelled(s: string, m: Match, highlighted: bool)
    requires ValidMatch(s, m)
    ensures Spells([Ruby(s, m, highlighted)], s[m.start..m.close + 1])
  {
    var ruby := Ruby(s, m, highlighted);
    Bracketed(s, m.base, m.open, m.close);
    if m.base > m.start {
      assert s[m.start..m.close + 1] == [s[m.start]] + s[m.base..m.close + 1];
    }
    SpellsOne(ruby, s[m.start..m.close + 1]);
  }

  lemma Bracketed(s: string, base: nat, open: nat, close: nat)
    requires base <= open < close < |s| && s[open] == '[' && s[close] == ']'
    ensures s[base..close + 1] == s[base..open] + "[" + s[open + 1..close] + "]"
  {
  }

  lemma {:induction false} PlainSpelled(s: string, from: nat, to: nat, highlighted: bool)
    requires from <= to <= |s|
    ensures Spells(Plain(s, from, to, highlighted), s[from..to])
  {
    if from < to {
      SpellsOne(Segment(s[from..to], None, highlighted), s[from..to]);
    } else {
      SpellsNothing();
    }
  }

  ghost predicate ValidAt(s: string, find: Finder, p: nat) {
    find(p).Some? ==> ValidMatch(s, find(p).value)
  }

  lemma {:induction false} LastSpelled(s: string, p: nat, highlighted: bool)
    requires p <= |s|
    ensures Spells(Plain(s, p, |s|, highlighted), s[p..])
  {
    PlainSpelled(s, p, |s|, highlighted);
    assert s[p..|s|] == s[p..];
  }

  lemma {:induction false} NextSpelled(s: string, p: nat, m: Match, highlighted: bool, rest: seq<Segment>)
    requires ValidMatch(s, m) && p <= m.start && Spells(rest, s[m.close + 1..])
    ensures Spells(Plain(s, p, m.start, highlighted) + [Ruby(s, m, highlighted)] + rest, s[p..])
  {
    RubySpelled(s, m, highlighted);
    MatchSpelled(s, p, m.start, m.close + 1, Ruby(s, m, highlighted), highlighted, rest);
  }

  lemma {:induction false} MatchesSpelled(s: string, find: Finder, read: nat -> seq<Segment>, p: nat, highlighted: bool)
    requires Reads(s, find, read, highlighted) && p <= |s| &&
             forall q {:trigger ValidAt(s, find, q)} :: ValidAt(s, find, q)
    ensures Spells(read(p), s[p..])
    decreases |s| - p
  {
    assert ReadsOn(s, find, read, highlighted, p) && ValidAt(s, find, p);
    if find(p).None? {
      LastSpelled(s, p, highlighted);
    } else {
      var m := find(p).value;
      MatchesSpelled(s, find, read, m.close + 1, highlighted);
      NextSpelled(s, p, m, highlighted, read(m.close + 1));
    }
  }

  /** Parsing loses no text of the chunk. */
  lemma ChunkSpelled(chunk: string, highlighted: bool)
    ensures Spells(ChunkSegments(chunk, highlighted), chunk)
  {
    PatternFinds(chunk);
    ReadingReads(chunk, Pattern(chunk), highlighted);
    MatchesSpelled(chunk, Pattern(chunk), Reading(chunk, Pattern(chunk), highlighted), 0, highlighted);
    assert chunk[0..] == chunk;
  }

  lemma {:induction false} MatchSpelled(s: string, p: nat, start: nat, end: nat, ruby: Segment, highlighted: bool,
                                        rest: seq<Segment>)
    requires p <= start <= end <= |s| && Spells([ruby], s[start..end]) && Spells(rest, s[end..])
    ensures Spells(Plain(s, p, start, highlighted) + [ruby] + rest, s[p..])
  {
    PlainSpelled(s, p, start, highlighted);
    Cut(s, p, start, end);
    SpellsThree(Plain(s, p, start, highlighted), s[p..start], [ruby], s[start..end], rest, s[end..]);
  }

  lemma {:induction false} SpellsThree(a: seq<Segment>, x: string, b: seq<Segment>, y: string, c: seq<Segment>,
                                       z: string)
    requires Spells(a, x) && Spells(b, y) && Spells(c, z)
    ensures Spells(a + b + c, x + y + z)
  {
    SpellsAppend(a, x, b, y);
    SpellsAppend(a + b, x + y, c, z);
  }

  lemma Cut(s: string, p: nat, q: nat, r: nat)
    requires p <= q <= r <= |s|
    ensures s[p..q] + s[q..r] + s[r..] == s[p..]
  {
  }

  // ---- Printing and parsing back ----

  predicate IsPlain(base: string) {
    base != "" && '[' !in base && ']' !in base
  }

  predicate IsRuby(base: string, reading: string) {
    && base != "" && (forall c :: c in base ==> IsBase(c))
    && reading != "" && ']' !in reading
  }

  predicate IsCanonical(seg: Segment) {
    if seg.reading.None? then IsPlain(seg.base) else IsRuby(seg.base, seg.reading.value)
  }

  /** The first segment can be printed, and plain text is followed by a ruby if by anything. */
  predicate StartsWell(segs: seq<Segment>)
    requires segs != []
  {
    IsCanonical(segs[0]) && (|segs| > 1 ==> IsCanonical(segs[1]) && (segs[0].reading.None? ==> segs[1].reading.Some?))
  }

  /** Segments the markup of one chunk can express: of one highlighting, no two pieces of plain text adjacent. */
  predicate Canonical(segs: seq<Segment>, highlighted: bool) {
    segs != [] ==> StartsWell(segs) && segs[0].highlighted == highlighted && Canonical(segs[1..], highlighted)
  }

  /** A ruby, plain text, and two rubies in a row, of the characters they may have, are canonical. */
  lemma {:induction false} CanonicalMix(base: string, reading: string, plain: string, highlighted: bool)
    requires base != "" && forall c :: c in base ==> c !in SPACES && c !in "[]"
    requires reading != "" && ']' !in reading && plain != "" && forall c :: c in plain ==> c !in "[]"
    ensures var (ruby, text) := (Segment(base, Some(reading), highlighted), Segment(plain, None, highlighted));
            Canonical([ruby, text, ruby, ruby], highlighted)
  {
    var ruby, text := Segment(base, Some(reading), highlighted), Segment(plain, None, highlighted);
    forall c | c in base ensures IsBase(c) { ClassesAre(c); }
    assert [ruby, text, ruby, ruby][1..] == [text, ruby, ruby] && [text, ruby, ruby][1..] == [ruby, ruby];
    assert [ruby, ruby][1..] == [ruby] && [ruby][1..] == [];
    assert Canonical([], highlighted) && Canonical([ruby], highlighted) && Canonical([ruby, ruby], highlighted);
    assert Canonical([text, ruby, ruby], highlighted);
  }

  /** The markup of one segment; a ruby needs a space before it unless the text just began or a ruby ended. */
  function Piece(seg: Segment, bare: bool): string {
    if seg.reading.None? || bare then Written(seg) else " " + Written(seg)
  }

  function Print(segs: seq<Segment>, bare: bool): string {
    if segs == [] then "" else Piece(segs[0], bare) + Print(segs[1..], segs[0].reading.Some?)
  }

  /** Text after which the pattern needs no whitespace before a base. */
  ghost predicate Bare(pre: string) {
    pre == "" || exists q :: pre == q + "]"
  }

  lemma BodyFound(s: string, start: nat, p: nat, open: nat, close: nat)
    requires start <= p <= start + 1 && p < open && open + 1 < close < |s| && (p == start + 1 ==> IsSpace(s[start]))
    requires forall i :: p <= i < open ==> IsBase(s[i])
    requires forall i :: open < i < close ==> IsReading(s[i])
    requires s[open] == '[' && s[close] == ']'
    ensures BodyAt(s, start, p) == Some(Match(start, p, open, close))
  {
    assert !IsBase(s[open]) && !IsReading(s[close]);
  }

  /** No ruby begins in bracket-free text that ends before a space or the end. */
  lemma NoBody(s: string, start: nat, p: nat, end: nat)
    requires start <= p <= end <= |s| && p <= start + 1 && (p == start + 1 ==> IsSpace(s[start]))
    requires forall i :: p <= i < end ==> s[i] != '['
    requires end < |s| ==> s[end] == ' '
    ensures BodyAt(s, start, p).None?
  {
    assert end < |s| ==> !IsBase(s[end]);
  }

  lemma NoMatch(s: string, p: nat, end: nat)
    requires p < end <= |s| && (forall i :: p <= i < end ==> s[i] != '[') && (end < |s| ==> s[end] == ' ')
    ensures MatchAt(s, p).None?
  {
    NoBody(s, p, p, end);
    if IsSpace(s[p]) {
      NoBody(s, p, p + 1, end);
    }
  }

  lemma {:induction false} SearchSkips(s: string, p: nat, end: nat)
    requires p <= end <= |s| && (forall i :: p <= i < end ==> s[i] != '[') && (end < |s| ==> s[end] == ' ')
    ensures Search(s, p) == Search(s, end)
    decreases end - p
  {
    if p < end {
      NoMatch(s, p, end);
      SearchSkips(s, p + 1, end);
    }
  }

  /** `s` has the markup of a ruby after `pre`, where it is matched. */
  ghost predicate RubyGoes(s: string, pre: string, seg: Segment, bare: bool, tail: string) {
    s == pre + Piece(seg, bare) + tail && seg.reading.Some? && IsCanonical(seg) && (bare ==> Bare(pre))
  }

  /** `s` has bracket-free text after `pre`, and then the end or a space. */
  ghost predicate PlainGoes(s: string, pre: string, plain: string, tail: string) {
    s == pre + plain + tail && '[' !in plain && (tail == "" || tail[0] == ' ')
  }

  function MatchOf(p: nat, seg: Segment, bare: bool): Match
    requires seg.reading.Some?
  {
    var from := if bare then p else p + 1;
    Match(p, from, from + |seg.base|, from + |seg.base| + 1 + |seg.reading.value|)
  }

  /** What a finder must do for the round trip. */
  ghost predicate FindsPrinted(s: string, find: Finder) {
    && find(|s|).None?
    && (forall pre, seg, bare, tail {:trigger RubyGoes(s, pre, seg, bare, tail)} ::
          RubyGoes(s, pre, seg, bare, tail) ==> find(|pre|) == Some(MatchOf(|pre|, seg, bare)))
    && (forall pre, plain, tail {:trigger PlainGoes(s, pre, plain, tail)} ::
          PlainGoes(s, pre, plain, tail) ==> find(|pre|) == find(|pre| + |plain|))
  }

  lemma FieldIn(pre: string, field: string, tail: string)
    ensures (pre + field + tail)[|pre|..|pre| + |field|] == field
  {
  }

  lemma Spaced(pre: string, written: string, tail: string)
    ensures pre + (" " + written) + tail == (pre + " ") + written + tail
  {
  }

  /** Where the parts of a printed ruby are. */
  lemma {:induction false} WrittenParts(pre: string, base: string, reading: string, tail: string)
    ensures var (s, open) := (pre + (base + "[" + reading + "]") + tail, |pre| + |base|);
            |s| == open + 2 + |reading| + |tail| && s[|pre|..open] == base &&
                s[open + 1..open + 1 + |reading|] == reading
  {
    var s := pre + (base + "[" + reading + "]") + tail;
    assert s == pre + base + ("[" + reading + "]" + tail);
    FieldIn(pre, base, "[" + reading + "]" + tail);
    assert s == (pre + base + "[") + reading + ("]" + tail);
    FieldIn(pre + base + "[", reading, "]" + tail);
  }

  lemma {:induction false} WrittenBrackets(pre: string, base: string, reading: string, tail: string)
    ensures var (s, open) := (pre + (base + "[" + reading + "]") + tail, |pre| + |base|);
            |s| == open + 2 + |reading| + |tail| && s[open] == '[' && s[open + 1 + |reading|] == ']'
  {
  }

  lemma {:induction false} PieceParts(s: string, pre: string, seg: Segment, bare: bool, tail: string)
    requires RubyGoes(s, pre, seg, bare, tail)
    ensures var m := MatchOf(|pre|, seg, bare);
            && m.close + 1 == |pre| + |Piece(seg, bare)| <= |s|
            && s[m.base..m.open] == seg.base && s[m.open + 1..m.close] == seg.reading.value
  {
    if bare {
      WrittenParts(pre, seg.base, seg.reading.value, tail);
    } else {
      Spaced(pre, Written(seg), tail);
      WrittenParts(pre + " ", seg.base, seg.reading.value, tail);
    }
  }

  lemma {:induction false} PieceBrackets(s: string, pre: string, seg: Segment, bare: bool, tail: string)
    requires RubyGoes(s, pre, seg, bare, tail)
    ensures var m := MatchOf(|pre|, seg, bare);
            m.close < |s| && s[m.open] == '[' && s[m.close] == ']' && (!bare ==> s[|pre|] == ' ')
  {
    if bare {
      WrittenBrackets(pre, seg.base, seg.reading.value, tail);
    } else {
      Spaced(pre, Written(seg), tail);
      WrittenBrackets(pre + " ", seg.base, seg.reading.value, tail);
    }
  }

  lemma RubyBody(s: string, m: Match)
    requires m.start <= m.base <= m.start + 1 && m.base < m.open && m.open + 1 < m.close < |s|
    requires m.base == m.start + 1 ==> IsSpace(s[m.start])
    requires s[m.open] == '[' && s[m.close] == ']' && IsRuby(s[m.base..m.open], s[m.open + 1..m.close])
    ensures BodyAt(s, m.start, m.base) == Some(m)
  {
    forall i | m.base <= i < m.open ensures IsBase(s[i]) {
      assert s[i] == s[m.base..m.open][i - m.base] && s[i] in s[m.base..m.open];
    }
    forall i | m.open < i < m.close ensures IsReading(s[i]) {
      assert s[i] == s[m.open + 1..m.close][i - m.open - 1] && s[i] in s[m.open + 1..m.close];
    }
    BodyFound(s, m.start, m.base, m.open, m.close);
  }

  /** A printed ruby is matched where it begins. */
  lemma {:induction false} RubyFound(s: string, pre: string, seg: Segment, bare: bool, tail: string)
    requires RubyGoes(s, pre, seg, bare, tail)
    ensures |pre| < |s| && Search(s, |pre|) == Some(MatchOf(|pre|, seg, bare))
  {
    PieceParts(s, pre, seg, bare, tail);
    PieceBrackets(s, pre, seg, bare, tail);
    if bare && pre != "" {
      var q :| pre == q + "]";
      assert s[|pre| - 1] == pre[|pre| - 1] == ']';
    }
    MatchHere(s, MatchOf(|pre|, seg, bare));
  }

  lemma {:induction false} MatchHere(s: string, m: Match)
    requires m.start <= m.base <= m.start + 1 && m.base < m.open && m.open + 1 < m.close < |s|
    requires if m.base == m.start then m.start == 0 || s[m.start - 1] == ']' else s[m.start] == ' '
    requires s[m.open] == '[' && s[m.close] == ']' && IsRuby(s[m.base..m.open], s[m.open + 1..m.close])
    ensures Search(s, m.start) == Some(m)
  {
    RubyBody(s, m);
    if m.base == m.start {
      BodyStartsBase(s, m.start, m);
    } else {
      NoBody(s, m.start, m.start, m.start);
    }
    assert MatchAt(s, m.start) == Some(m);
  }

  lemma BodyStartsBase(s: string, p: nat, m: Match)
    requires p < |s| && BodyAt(s, p, p) == Some(m)
    ensures !IsSpace(s[p])
  {
    assert IsBase(s[p]);
  }

  lemma {:induction false} SearchPassesPlain(s: string, pre: string, plain: string, tail: string)
    requires PlainGoes(s, pre, plain, tail)
    ensures Pattern(s)(|pre|) == Pattern(s)(|pre| + |plain|)
  {
    var p, end := |pre|, |pre| + |plain|;
    forall i | p <= i < end ensures s[i] != '[' {
      assert s[i] == plain[i - p];
    }
    SearchSkips(s, p, end);
  }

  lemma {:induction false} PatternFindsPrinted(s: string)
    ensures FindsPrinted(s, Pattern(s))
  {
    assert MatchAt(s, |s|).None?;
    forall pre, seg, bare, tail | RubyGoes(s, pre, seg, bare, tail)
      ensures Pattern(s)(|pre|) == Some(MatchOf(|pre|, seg, bare))
    {
      RubyFound(s, pre, seg, bare, tail);
    }
    forall pre, plain, tail | PlainGoes(s, pre, plain, tail)
      ensures Pattern(s)(|pre|) == Pattern(s)(|pre| + |plain|)
    {
      SearchPassesPlain(s, pre, plain, tail);
    }
  }

  lemma {:induction false} RubyTaken(s: string, find: Finder, read: nat -> seq<Segment>, pre: string, seg: Segment,
                                     bare: bool, tail: string)
    requires Reads(s, find, read, seg.highlighted) && FindsPrinted(s, find) && RubyGoes(s, pre, seg, bare, tail)
    ensures read(|pre|) == [seg] + read(|pre| + |Piece(seg, bare)|)
  {
    RubyMatched(s, find, pre, seg, bare, tail);
    OneRuby(s, find, read, |pre|, MatchOf(|pre|, seg, bare), seg);
  }

  lemma {:induction false} RubyMatched(s: string, find: Finder, pre: string, seg: Segment, bare: bool, tail: string)
    requires FindsPrinted(s, find) && RubyGoes(s, pre, seg, bare, tail)
    ensures var m := MatchOf(|pre|, seg, bare);
            && find(|pre|) == Some(m) && m.close + 1 == |pre| + |Piece(seg, bare)| <= |s|
            && s[m.base..m.open] == seg.base && s[m.open + 1..m.close] == seg.reading.value
  {
    PieceParts(s, pre, seg, bare, tail);
  }

  lemma {:induction false} OneRuby(s: string, find: Finder, read: nat -> seq<Segment>, p: nat, m: Match, seg: Segment)
    requires Reads(s, find, read, seg.highlighted)
    requires p <= |s| && find(p) == Some(m) && m.start == p && m.base <= m.open < m.close < |s|
    requires s[m.base..m.open] == seg.base && Some(s[m.open + 1..m.close]) == seg.reading
    ensures read(p) == [seg] + read(m.close + 1)
  {
    assert ReadsOn(s, find, read, seg.highlighted, p);
    assert Plain(s, p, m.start, seg.highlighted) == [];
  }

  lemma {:induction false} SpaceFirst(rest: seq<Segment>)
    requires rest != [] ==> rest[0].reading.Some?
    ensures var text := Print(rest, false); (rest == [] ==> text == "") && (rest != [] ==> text != "" && text[0] == ' ')
  {
  }

  lemma {:induction false} RubyNext(s: string, find: Finder, before: string, rest: seq<Segment>)
    requires FindsPrinted(s, find) && rest != [] && rest[0].reading.Some? && IsCanonical(rest[0])
    requires s == before + Print(rest, false)
    ensures find(|before|).Some? && find(|before|).value.start == |before|
  {
    PrintSplits(before, rest, false);
    assert RubyGoes(s, before, rest[0], false, Print(rest[1..], true));
  }

  lemma {:induction false} PlainPassed(s: string, find: Finder, pre: string, plain: string, tail: string)
    requires FindsPrinted(s, find) && IsPlain(plain) && s == pre + plain + tail && (tail == "" || tail[0] == ' ')
    ensures find(|pre|) == find(|pre| + |plain|) && (tail == "" ==> find(|pre| + |plain|).None?)
  {
    assert PlainGoes(s, pre, plain, tail);
    assert tail == "" ==> |s| == |pre| + |plain|;
  }

  /** After plain text the next match is the ruby that follows, or there is none. */
  lemma {:induction false} PlainSkipped(s: string, find: Finder, pre: string, plain: string, rest: seq<Segment>)
    requires FindsPrinted(s, find) && IsPlain(plain)
    requires s == pre + plain + Print(rest, false) && (rest != [] ==> rest[0].reading.Some? && IsCanonical(rest[0]))
    ensures var end := |pre| + |plain|;
            find(|pre|) == find(end) && if rest == [] then find(end).None?
                else find(end).Some? && find(end).value.start == end
  {
    SpaceFirst(rest);
    PlainPassed(s, find, pre, plain, Print(rest, false));
    if rest != [] {
      RubyNext(s, find, pre + plain, rest);
    }
  }

  /** Plain text, then perhaps a ruby: the text is one segment, and the ruby is found after it. */
  lemma {:induction false} PlainTaken(s: string, find: Finder, read: nat -> seq<Segment>, pre: string, seg: Segment,
                                      rest: seq<Segment>)
    requires Reads(s, find, read, seg.highlighted) && FindsPrinted(s, find) && seg.reading.None? && IsCanonical(seg)
    requires s == pre + seg.base + Print(rest, false) && (rest != [] ==> rest[0].reading.Some? && IsCanonical(rest[0]))
    ensures read(|pre|) == [seg] + read(|pre| + |seg.base|)
  {
    PlainSkipped(s, find, pre, seg.base, rest);
    FieldIn(pre, seg.base, Print(rest, false));
    PlainThen(s, find, read, |pre|, |pre| + |seg.base|, seg);
  }

  lemma {:induction false} PlainThen(s: string, find: Finder, read: nat -> seq<Segment>, p: nat, end: nat, seg: Segment)
    requires Reads(s, find, read, seg.highlighted) && p < end <= |s| && s[p..end] == seg.base && seg.reading.None?
    requires find(p) == find(end)
    requires (find(end).Some? ==> find(end).value.start == end) && (find(end).None? ==> end == |s|)
    ensures read(p) == [seg] + read(end)
  {
    var h := seg.highlighted;
    assert ReadsOn(s, find, read, h, p) && ReadsOn(s, find, read, h, end);
    assert Plain(s, p, end, h) == [seg] && Plain(s, end, end, h) == [];
    if find(end).Some? {
      var m := find(end).value;
      assert read(end) == [Ruby(s, m, h)] + read(m.close + 1);
    }
  }

  lemma PieceEnds(pre: string, seg: Segment, bare: bool)
    requires seg.reading.Some?
    ensures Bare(pre + Piece(seg, bare))
  {
    var open := seg.base + "[" + seg.reading.value;
    assert pre + Piece(seg, bare) == (if bare then pre + open else pre + (" " + open)) + "]";
  }

  lemma {:induction false} PrintSplits(pre: string, segs: seq<Segment>, bare: bool)
    requires segs != []
    ensures pre + Print(segs, bare) == pre + Piece(segs[0], bare) + Print(segs[1..], segs[0].reading.Some?)
  {
  }

  /** If these segments are printed after `pre`, the first of them is read there. */
  ghost predicate ReadsPrinted(s: string, read: nat -> seq<Segment>, pre: string, segs: seq<Segment>, bare: bool)
    requires segs != []
  {
    StartsWell(segs) && s == pre + Piece(segs[0], bare) + Print(segs[1..], segs[0].reading.Some?) &&
        (bare ==> Bare(pre)) ==>
      read(|pre|) == [segs[0]] + read(|pre| + |Piece(segs[0], bare)|)
  }

  lemma {:induction false} ReadingPrinted(s: string, find: Finder, read: nat -> seq<Segment>, pre: string,
                                          segs: seq<Segment>, bare: bool)
    requires segs != [] && Reads(s, find, read, segs[0].highlighted) && FindsPrinted(s, find)
    ensures ReadsPrinted(s, read, pre, segs, bare)
  {
    if StartsWell(segs) && s == pre + Piece(segs[0], bare) + Print(segs[1..], segs[0].reading.Some?) &&
        (bare ==> Bare(pre)) {
      if segs[0].reading.Some? {
        RubyTaken(s, find, read, pre, segs[0], bare, Print(segs[1..], true));
      } else {
        PlainTaken(s, find, read, pre, segs[0], segs[1..]);
      }
    }
  }

  lemma {:induction false} ParsePrinted(s: string, read: nat -> seq<Segment>, pre: string, segs: seq<Segment>,
                                        bare: bool, highlighted: bool)
    requires read(|s|) == [] && forall p: string, list: seq<Segment>,
             b: bool {:trigger ReadsPrinted(s, read, p, list, b)} ::
               list != [] && list[0].highlighted == highlighted ==> ReadsPrinted(s, read, p, list, b)
    requires Canonical(segs, highlighted) && s == pre + Print(segs, bare) && (bare ==> Bare(pre))
    ensures read(|pre|) == segs
    decreases |segs|
  {
    if segs == [] {
      assert s == pre;
    } else {
      var seg, rest := segs[0], segs[1..];
      PrintSplits(pre, segs, bare);
      assert ReadsPrinted(s, read, pre, segs, bare);
      if seg.reading.Some? {
        PieceEnds(pre, seg, bare);
      }
      ParsePrinted(s, read, pre + Piece(seg, bare), rest, seg.reading.Some?, highlighted);
    }
  }

  /** Printing canonical segments and parsing the text gives them back. */
  lemma {:induction false} ParsePrint(segs: seq<Segment>, highlighted: bool)
    requires Canonical(segs, highlighted)
    ensures ChunkSegments(Print(segs, true), highlighted) == segs
  {
    var s := Print(segs, true);
    PatternFinds(s);
    PatternFindsPrinted(s);
    ReadingReads(s, Pattern(s), highlighted);
    var read := Reading(s, Pattern(s), highlighted);
    forall p: string, list: seq<Segment>, b: bool | list != [] && list[0].highlighted == highlighted
      ensures ReadsPrinted(s, read, p, list, b)
    {
      ReadingPrinted(s, Pattern(s), read, p, list, b);
    }
    assert s == "" + s;
    ParsePrinted(s, read, "", segs, true, highlighted);
  }
}
