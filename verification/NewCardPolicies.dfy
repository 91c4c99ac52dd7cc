/**
 * Which new cards may be introduced, and in which order (src/bunsho/services/new_card_policies.py).
 *
 * The three policies list candidates alike and differ only in the levels they offer: strict order
 * offers all of them, pinned levels a fixed set, mastery unlock what `UnlockedLevels` computes.
 */
module NewCardPolicies {
  import opened ReviewTypes
  import opened StableSort

  datatype Level = N5 | N4 | N3 | N2 | N1

  const STUDY_ORDER: seq<Level> := [N5, N4, N3, N2, N1]

  function StudyIndex(level: Level): int {
    match level
    case N5 => 0
    case N4 => 1
    case N3 => 2
    case N2 => 3
    case N1 => 4
  }

  datatype CatalogEntry = CatalogEntry(itemId: string, level: Option<Level>, position: nat)

  function Rank(e: CatalogEntry): int {
    if e.level.None? then -1 else StudyIndex(e.level.value)
  }

  predicate InStudyOrder(a: CatalogEntry, b: CatalogEntry) {
    Rank(a) < Rank(b) || (Rank(a) == Rank(b) && a.position <= b.position)
  }

  /** Level `a` is studied before level `b`. */
  predicate StudiedBefore(a: Level, b: Level) {
    exists i, j :: 0 <= i < j < |STUDY_ORDER| && STUDY_ORDER[i] == a && STUDY_ORDER[j] == b
  }

  /**
   * Entries without a level come first, then those of the levels in study order; within a level the position decides.
   */
  lemma StudyOrderIs(a: CatalogEntry, b: CatalogEntry)
    ensures InStudyOrder(a, b) <==>
              if a.level == b.level then a.position <= b.position
              else a.level.None? || (b.level.Some? && StudiedBefore(a.level.value, b.level.value))
  {
    if a.level.Some? && b.level.Some? {
      var i, j := StudyIndex(a.level.value), StudyIndex(b.level.value);
      assert STUDY_ORDER[i] == a.level.value && STUDY_ORDER[j] == b.level.value;
      assert forall k :: 0 <= k < |STUDY_ORDER| ==> StudyIndex(STUDY_ORDER[k]) == k;
    }
  }

  /** Kana has no level and is never held back. */
  predicate Open(e: CatalogEntry, levels: set<Level>) {
    e.level.None? || e.level.value in levels
  }

  function CardsOf(itemId: string, ds: seq<Direction>, seen: set<CardKey>): seq<CardKey> {
    if ds == [] then []
    else
      var key := CardKey(itemId, ds[0]);
      (if key in seen then [] else [key]) + CardsOf(itemId, ds[1..], seen)
  }

  function Offer(entries: seq<CatalogEntry>, ds: seq<Direction>, seen: set<CardKey>, levels: set<Level>): seq<CardKey> {
    if entries == [] then []
    else
      (if Open(entries[0], levels) then CardsOf(entries[0].itemId, ds, seen) else [])
          + Offer(entries[1..], ds, seen, levels)
  }

  /** `_candidates`: the unintroduced cards of the offered levels, in study order. */
  function Candidates(ds: seq<Direction>, catalog: seq<CatalogEntry>, seen: set<CardKey>,
                      levels: set<Level>): seq<CardKey> {
    Offer(Sort(InStudyOrder, catalog), ds, seen, levels)
  }

  /** `_take`: `None` means no limit. */
  function Take<T>(s: seq<T>, limit: Option<int>): seq<T> {
    if limit.None? then s
    else
      var n := if limit.value < 0 then 0 else limit.value;
      if n < |s| then s[..n] else s
  }

  function Select(itemType: ItemType, catalog: seq<CatalogEntry>, seen: set<CardKey>, levels: set<Level>,
                  limit: Option<int>): seq<CardKey> {
    Take(Candidates(DirectionsOf(itemType), catalog, seen, levels), limit)
  }

  // ---- What the list of candidates is ----

  /** A catalogue as `ContentCatalog` builds it: one entry an item, numbered. */
  ghost predicate WellNumbered(catalog: seq<CatalogEntry>) {
    forall i, j :: 0 <= i < j < |catalog| ==>
      catalog[i].itemId != catalog[j].itemId && catalog[i].position != catalog[j].position
  }

  ghost predicate Comes(catalog: seq<CatalogEntry>, ds: seq<Direction>, a: CardKey, b: CardKey) {
    exists e, f, i, j {:trigger ComesAs(ds, a, b, e, f, i, j)} :: e in catalog && f in catalog &&
        ComesAs(ds, a, b, e, f, i, j)
  }

  /** Card `a` is direction `i` of entry `e`, `b` is direction `j` of `f`, and the first comes before the second. */
  ghost predicate ComesAs(ds: seq<Direction>, a: CardKey, b: CardKey, e: CatalogEntry, f: CatalogEntry, i: int,
                          j: int) {
    && e.itemId == a.itemId && f.itemId == b.itemId
    && 0 <= i < |ds| && 0 <= j < |ds| && ds[i] == a.direction && ds[j] == b.direction
    && InStudyOrder(e, f) && (e == f ==> i < j)
  }

  ghost predicate Candidate(catalog: seq<CatalogEntry>, ds: seq<Direction>, seen: set<CardKey>, levels: set<Level>,
                            key: CardKey) {
    && key !in seen && key.direction in ds
    && exists e :: e in catalog && e.itemId == key.itemId && (e.level.None? || e.level.value in levels)
  }

  /** The complete, duplicate-free list of candidates by level, then position, then direction. */
  ghost predicate StudyList(list: seq<CardKey>, catalog: seq<CatalogEntry>, ds: seq<Direction>, seen: set<CardKey>,
                            levels: set<Level>) {
    && (forall key :: key in list <==> Candidate(catalog, ds, seen, levels, key))
    && (forall i, j :: 0 <= i < j < |list| ==> Comes(catalog, ds, list[i], list[j]))
  }

  lemma {:induction false} CardsOfHas(itemId: string, ds: seq<Direction>, seen: set<CardKey>)
    ensures forall key :: key in CardsOf(itemId, ds, seen) <==>
            key.itemId == itemId && key.direction in ds && key !in seen
  {
    if ds != [] {
      CardsOfHas(itemId, ds[1..], seen);
      assert forall d :: d in ds <==> d == ds[0] || d in ds[1..];
    }
  }

  lemma {:induction false} CardsOfAre(itemId: string, ds: seq<Direction>, seen: set<CardKey>)
    ensures var r := CardsOf(itemId, ds, seen);
            && (forall key :: key in r <==> key.itemId == itemId && key.direction in ds && key !in seen)
            && forall i, j :: 0 <= i < j < |r| ==> DirectionsRise(ds, r[i], r[j])
  {
    CardsOfHas(itemId, ds, seen);
    if ds != [] {
      CardsOfAre(itemId, ds[1..], seen);
      var rest := CardsOf(itemId, ds[1..], seen);
      forall i, j | 0 <= i < j < |rest| ensures DirectionsRise(ds, rest[i], rest[j]) {
        TailDirectionsRise(ds, rest[i], rest[j]);
      }
      forall j | 0 <= j < |rest| ensures DirectionsRise(ds, CardKey(itemId, ds[0]), rest[j]) {
        assert rest[j] in rest;
        FirstDirectionRises(ds, CardKey(itemId, ds[0]), rest[j]);
      }
    }
  }

  lemma TailDirectionsRise(ds: seq<Direction>, a: CardKey, b: CardKey)
    requires ds != [] && DirectionsRise(ds[1..], a, b)
    ensures DirectionsRise(ds, a, b)
  {
    var i, j :| 0 <= i < j < |ds[1..]| && ds[1..][i] == a.direction && ds[1..][j] == b.direction;
    assert ds[i + 1] == a.direction && ds[j + 1] == b.direction;
  }

  lemma FirstDirectionRises(ds: seq<Direction>, a: CardKey, b: CardKey)
    requires ds != [] && a.direction == ds[0] && b.direction in ds[1..]
    ensures DirectionsRise(ds, a, b)
  {
    var j :| 0 <= j < |ds[1..]| && ds[1..][j] == b.direction;
    assert ds[0] == a.direction && ds[j + 1] == b.direction;
  }

  ghost predicate DirectionsRise(ds: seq<Direction>, a: CardKey, b: CardKey) {
    exists i, j :: 0 <= i < j < |ds| && ds[i] == a.direction && ds[j] == b.direction
  }

  lemma {:induction false} OfferHas(entries: seq<CatalogEntry>, ds: seq<Direction>, seen: set<CardKey>,
                                    levels: set<Level>, key: CardKey)
    ensures key in Offer(entries, ds, seen, levels) <==> Candidate(entries, ds, seen, levels, key)
  {
    if entries != [] {
      var e, tail := entries[0], entries[1..];
      OfferHas(tail, ds, seen, levels, key);
      CardsOfAre(e.itemId, ds, seen);
      assert forall f :: f in entries <==> f == e || f in tail;
    }
  }

  ghost predicate AllCome(catalog: seq<CatalogEntry>, ds: seq<Direction>, list: seq<CardKey>) {
    forall i, j {:trigger Comes(catalog, ds, list[i], list[j])} :: 0 <= i < j < |list| ==>
        Comes(catalog, ds, list[i], list[j])
  }

  lemma {:induction false} OfferRises(entries: seq<CatalogEntry>, ds: seq<Direction>, seen: set<CardKey>,
                                      levels: set<Level>)
    requires Rising(entries)
    ensures AllCome(entries, ds, Offer(entries, ds, seen, levels))
  {
    if entries != [] {
      var rest := Offer(entries[1..], ds, seen, levels);
      TailRises(entries);
      OfferRises(entries[1..], ds, seen, levels);
      TailComes(entries, ds, rest);
      if Open(entries[0], levels) {
        EntryComes(entries, ds, seen);
        var first := CardsOf(entries[0].itemId, ds, seen);
        forall a, b | a in first && b in rest ensures Comes(entries, ds, a, b) {
          AcrossEntries(entries, ds, seen, levels, a, b);
        }
        BothCome(entries, ds, first, rest);
      } else {
        assert Offer(entries, ds, seen, levels) == rest;
      }
    }
  }

  lemma TailComes(entries: seq<CatalogEntry>, ds: seq<Direction>, list: seq<CardKey>)
    requires entries != [] && AllCome(entries[1..], ds, list)
    ensures AllCome(entries, ds, list)
  {
    forall i, j | 0 <= i < j < |list| ensures Comes(entries, ds, list[i], list[j]) {
      assert Comes(entries[1..], ds, list[i], list[j]);
      var e, f, a, b :| e in entries[1..] && f in entries[1..] && ComesAs(ds, list[i], list[j], e, f, a, b);
    }
  }

  lemma BothCome(entries: seq<CatalogEntry>, ds: seq<Direction>, first: seq<CardKey>, rest: seq<CardKey>)
    requires AllCome(entries, ds, first) && AllCome(entries, ds, rest)
    requires forall a, b :: a in first && b in rest ==> Comes(entries, ds, a, b)
    ensures AllCome(entries, ds, first + rest)
  {
    var list := first + rest;
    forall i, j | 0 <= i < j < |list| ensures Comes(entries, ds, list[i], list[j]) {
      if j < |first| {
        assert Comes(entries, ds, first[i], first[j]);
      } else if i < |first| {
        assert first[i] in first && rest[j - |first|] in rest;
      } else {
        assert Comes(entries, ds, rest[i - |first|], rest[j - |first|]);
      }
    }
  }

  ghost predicate Ahead(e: CatalogEntry, f: CatalogEntry) { InStudyOrder(e, f) && e != f }

  ghost predicate Rising(entries: seq<CatalogEntry>) {
    forall i, j {:trigger Ahead(entries[i], entries[j])} :: 0 <= i < j < |entries| ==> Ahead(entries[i], entries[j])
  }

  lemma TailRises(entries: seq<CatalogEntry>)
    requires entries != [] && Rising(entries)
    ensures Rising(entries[1..])
  {
    forall i, j | 0 <= i < j < |entries| - 1 ensures Ahead(entries[1..][i], entries[1..][j]) {
      assert Ahead(entries[i + 1], entries[j + 1]);
    }
  }

  lemma {:induction false} EntryComes(entries: seq<CatalogEntry>, ds: seq<Direction>, seen: set<CardKey>)
    requires entries != []
    ensures AllCome(entries, ds, CardsOf(entries[0].itemId, ds, seen))
  {
    var r := CardsOf(entries[0].itemId, ds, seen);
    CardsOfAre(entries[0].itemId, ds, seen);
    forall i, j | 0 <= i < j < |r| ensures Comes(entries, ds, r[i], r[j]) {
      assert r[i] in r && r[j] in r;
      SameEntryComes(entries, ds, r[i], r[j]);
    }
  }

  lemma {:induction false} AcrossEntries(entries: seq<CatalogEntry>, ds: seq<Direction>, seen: set<CardKey>,
                                         levels: set<Level>, a: CardKey, b: CardKey)
    requires entries != [] && Rising(entries)
    requires a in CardsOf(entries[0].itemId, ds, seen) && b in Offer(entries[1..], ds, seen, levels)
    ensures Comes(entries, ds, a, b)
  {
    CardsOfAre(entries[0].itemId, ds, seen);
    OfferHas(entries[1..], ds, seen, levels, b);
    FirstComes(entries, ds, seen, levels, a, b);
  }

  lemma SameEntryComes(entries: seq<CatalogEntry>, ds: seq<Direction>, a: CardKey, b: CardKey)
    requires entries != [] && a.itemId == b.itemId == entries[0].itemId && DirectionsRise(ds, a, b)
    ensures Comes(entries, ds, a, b)
  {
    var i, j :| 0 <= i < j < |ds| && ds[i] == a.direction && ds[j] == b.direction;
    assert entries[0] in entries && ComesAs(ds, a, b, entries[0], entries[0], i, j);
  }

  lemma FirstComes(entries: seq<CatalogEntry>, ds: seq<Direction>, seen: set<CardKey>, levels: set<Level>, a: CardKey,
                   b: CardKey)
    requires entries != [] && Rising(entries)
    requires a.itemId == entries[0].itemId && a.direction in ds && Candidate(entries[1..], ds, seen, levels, b)
    ensures Comes(entries, ds, a, b)
  {
    var f :| f in entries[1..] && f.itemId == b.itemId && Open(f, levels);
    var n :| 0 <= n < |entries[1..]| && entries[1..][n] == f;
    assert entries[n + 1] == f && Ahead(entries[0], entries[n + 1]);
    var i :| 0 <= i < |ds| && ds[i] == a.direction;
    var j :| 0 <= j < |ds| && ds[j] == b.direction;
    assert ComesAs(ds, a, b, entries[0], f, i, j);
  }

  lemma StudyOrderIsPreorder()
    ensures TotalPreorder(InStudyOrder)
  {
  }

  lemma {:induction false} SortedCatalog(catalog: seq<CatalogEntry>)
    requires WellNumbered(catalog)
    ensures var s := Sort(InStudyOrder, catalog);
            Rising(s) && forall e :: e in s <==> e in catalog
  {
    var s := Sort(InStudyOrder, catalog);
    StudyOrderIsPreorder();
    SortSorts(InStudyOrder, catalog);
    SortDistinct(InStudyOrder, catalog);
    forall e ensures e in s <==> e in catalog {
      SameElements(s, catalog, e);
    }
    assert forall i, j :: 0 <= i < j < |s| ==> InStudyOrder(s[i], s[j]) && s[i] != s[j];
  }

  /** `select` takes from the complete, duplicate-free list in level, position and direction order. */
  lemma CandidatesAreStudyList(itemType: ItemType, catalog: seq<CatalogEntry>, seen: set<CardKey>, levels: set<Level>)
    requires WellNumbered(catalog)
    ensures StudyList(Candidates(DirectionsOf(itemType), catalog, seen, levels), catalog, DirectionsOf(itemType), seen,
            levels)
  {
    var s, ds := Sort(InStudyOrder, catalog), DirectionsOf(itemType);
    SortedCatalog(catalog);
    var list := Candidates(ds, catalog, seen, levels);
    forall key ensures key in list <==> Candidate(catalog, ds, seen, levels, key) {
      OfferHas(s, ds, seen, levels, key);
    }
    OfferRises(s, ds, seen, levels);
    forall i, j | 0 <= i < j < |list| ensures Comes(catalog, ds, list[i], list[j]) {
      assert Comes(s, ds, list[i], list[j]);
      var e, f, a, b :| e in s && f in s && ComesAs(ds, list[i], list[j], e, f, a, b);
      assert e in catalog && f in catalog;
    }
  }

  lemma ComesIsStrict(itemType: ItemType, catalog: seq<CatalogEntry>, a: CardKey, b: CardKey)
    requires WellNumbered(catalog) && Comes(catalog, DirectionsOf(itemType), a, b)
    ensures !Comes(catalog, DirectionsOf(itemType), b, a)
  {
    var ds := DirectionsOf(itemType);
    var e, f, i, j :| e in catalog && f in catalog && ComesAs(ds, a, b, e, f, i, j);
    forall e', f', i', j' | e' in catalog && f' in catalog ensures !ComesAs(ds, b, a, e', f', i', j') {
      assert f'.itemId == e.itemId ==> f' == e;
      assert e'.itemId == f.itemId ==> e' == f;
    }
  }

  /** No other list fits the description, so the description determines what `select` returns. */
  lemma StudyListIsUnique(itemType: ItemType, catalog: seq<CatalogEntry>, seen: set<CardKey>, levels: set<Level>,
                          list: seq<CardKey>, limit: Option<int>)
    requires WellNumbered(catalog) && StudyList(list, catalog, DirectionsOf(itemType), seen, levels)
    ensures Select(itemType, catalog, seen, levels, limit) == Take(list, limit)
  {
    var ds := DirectionsOf(itemType);
    CandidatesAreStudyList(itemType, catalog, seen, levels);
    forall a, b | Comes(catalog, ds, a, b) ensures !Comes(catalog, ds, b, a) {
      ComesIsStrict(itemType, catalog, a, b);
    }
    OneOrder((a, b) => Comes(catalog, ds, a, b), Candidates(ds, catalog, seen, levels), list);
  }

  // ---- Introducing a planned card ----

  function Without<T(==)>(s: seq<T>, x: T): seq<T> {
    if s == [] then [] else (if s[0] == x then [] else [s[0]]) + Without(s[1..], x)
  }

  lemma {:induction false} WithoutConcat<T>(a: seq<T>, b: seq<T>, x: T)
    ensures Without(a + b, x) == Without(a, x) + Without(b, x)
  {
    if a == [] {
      assert a + b == b;
    } else {
      assert (a + b)[1..] == a[1..] + b;
      WithoutConcat(a[1..], b, x);
    }
  }

  lemma {:induction false} CardsOfWithout(itemId: string, ds: seq<Direction>, seen: set<CardKey>, x: CardKey)
    ensures CardsOf(itemId, ds, seen + {x}) == Without(CardsOf(itemId, ds, seen), x)
  {
    if ds != [] {
      CardsOfWithout(itemId, ds[1..], seen, x);
      var key := CardKey(itemId, ds[0]);
      WithoutConcat(if key in seen then [] else [key], CardsOf(itemId, ds[1..], seen), x);
    }
  }

  lemma {:induction false} OfferWithout(entries: seq<CatalogEntry>, ds: seq<Direction>, seen: set<CardKey>,
                                        levels: set<Level>, x: CardKey)
    ensures Offer(entries, ds, seen + {x}, levels) == Without(Offer(entries, ds, seen, levels), x)
  {
    if entries != [] {
      OfferWithout(entries[1..], ds, seen, levels, x);
      CardsOfWithout(entries[0].itemId, ds, seen, x);
      WithoutConcat(if Open(entries[0], levels) then CardsOf(entries[0].itemId, ds, seen) else [],
                    Offer(entries[1..], ds, seen, levels), x);
    }
  }

  lemma {:induction false} WithoutAbsent<T>(s: seq<T>, x: T)
    requires x !in s
    ensures Without(s, x) == s
  {
    if s != [] {
      WithoutAbsent(s[1..], x);
    }
  }

  lemma {:induction false} TakeWithout<T>(s: seq<T>, x: T, k: int)
    requires Distinct(s) && 0 < k <= |s| && x in s[..k]
    ensures |Without(s, x)| == |s| - 1 && Without(s, x)[..k - 1] == Without(s[..k], x)
  {
    assert s[..k][1..] == s[1..][..k - 1];
    if s[0] == x {
      WithoutAbsent(s[1..], x);
      WithoutAbsent(s[1..][..k - 1], x);
    } else {
      assert x in s[1..][..k - 1] by {
        var i :| 0 <= i < k && s[..k][i] == x;
        assert s[1..][..k - 1][i - 1] == x;
      }
      TakeWithout(s[1..], x, k - 1);
    }
  }

  lemma StudyListDistinct(itemType: ItemType, catalog: seq<CatalogEntry>, seen: set<CardKey>, levels: set<Level>)
    requires WellNumbered(catalog)
    ensures Distinct(Candidates(DirectionsOf(itemType), catalog, seen, levels))
  {
    var list := Candidates(DirectionsOf(itemType), catalog, seen, levels);
    CandidatesAreStudyList(itemType, catalog, seen, levels);
    forall i, j | 0 <= i < j < |list| ensures list[i] != list[j] {
      ComesIsStrict(itemType, catalog, list[i], list[j]);
    }
  }

  /** What is selected is the beginning of the study list: all of it without a limit, else as many as the limit says. */
  lemma {:induction false} SelectsFirst(itemType: ItemType, catalog: seq<CatalogEntry>, seen: set<CardKey>,
                                        levels: set<Level>, limit: Option<int>, list: seq<CardKey>)
    requires WellNumbered(catalog) && StudyList(list, catalog, DirectionsOf(itemType), seen, levels)
    ensures Select(itemType, catalog, seen, levels, limit) <= list
    ensures var n := |Select(itemType, catalog, seen, levels, limit)|;
            if limit.None? || limit.value >= |list| then n == |list|
            else if limit.value <= 0 then n == 0
            else n == limit.value
  {
    StudyListIsUnique(itemType, catalog, seen, levels, list, limit);
  }

  /**
   * Introducing a card the plan offers uses up one of the allowance and removes exactly that card:
   * the first k of the list without x are the first k + 1 of the list, less x.
   */
  lemma {:induction false} IntroducingRemovesOne(itemType: ItemType, catalog: seq<CatalogEntry>, seen: set<CardKey>,
          levels: set<Level>,
                              limit: Option<int>, x: CardKey)
    requires WellNumbered(catalog) && x in Select(itemType, catalog, seen, levels, limit)
    ensures var rest := if limit.None? then None else Some(limit.value - 1);
            var (before, after) := (Select(itemType, catalog, seen, levels, limit),
                                    Select(itemType, catalog, seen + {x}, levels, rest));
            after == Without(before, x) && |after| == |before| - 1
  {
    var all := Candidates(DirectionsOf(itemType), catalog, seen, levels);
    OfferWithout(Sort(InStudyOrder, catalog), DirectionsOf(itemType), seen, levels, x);
    StudyListDistinct(itemType, catalog, seen, levels);
    TakeLessOne(all, x, limit);
  }

  lemma {:induction false} TakeLessOne(all: seq<CardKey>, x: CardKey, limit: Option<int>)
    requires Distinct(all) && x in Take(all, limit)
    ensures var rest := if limit.None? then None else Some(limit.value - 1);
            Take(Without(all, x), rest) == Without(Take(all, limit), x) &&
                |Take(Without(all, x), rest)| == |Take(all, limit)| - 1
  {
    assert all[..|all|] == all;
    var k := if limit.None? || limit.value > |all| then |all| else limit.value;
    TakeWithout(all, x, k);
    assert Without(all, x)[..|all| - 1] == Without(all, x);
  }

  // ---- Mastery unlock ----

  function Reviewed(states: map<CardKey, SchedState>, key: CardKey): nat {
    if key in states && states[key] == Review then 1 else 0
  }

  function MasteredOf(itemId: string, ds: seq<Direction>, states: map<CardKey, SchedState>): nat {
    if ds == [] then 0
    else MasteredOf(itemId, ds[..|ds| - 1], states) + Reviewed(states, CardKey(itemId, ds[|ds| - 1]))
  }

  /** All cards of a level, and those of them in Review. */
  function Total(catalog: seq<CatalogEntry>, ds: seq<Direction>, level: Level): nat {
    if catalog == [] then 0
    else Total(catalog[..|catalog| - 1], ds, level) + if catalog[|catalog| - 1].level == Some(level) then |ds| else 0
  }

  function Mastered(catalog: seq<CatalogEntry>, ds: seq<Direction>, states: map<CardKey, SchedState>,
                    level: Level): nat {
    if catalog == [] then 0
    else
      var e := catalog[|catalog| - 1];
      Mastered(catalog[..|catalog| - 1], ds, states, level)
      + if e.level == Some(level) then MasteredOf(e.itemId, ds, states) else 0
  }

  predicate Meets(total: nat, mastered: nat, threshold: real) {
    total == 0 || mastered as real / total as real >= threshold
  }

  /** A level is open when every level before it is empty or mostly learned. */
  ghost predicate Unlocked(catalog: seq<CatalogEntry>, ds: seq<Direction>, states: map<CardKey, SchedState>,
                           threshold: real, level: Level) {
    forall i :: 0 <= i < StudyIndex(level) ==>
      Meets(Total(catalog, ds, STUDY_ORDER[i]), Mastered(catalog, ds, states, STUDY_ORDER[i]), threshold)
  }

  function Count(counter: map<Level, nat>, level: Level): nat {
    if level in counter then counter[level] else 0
  }

  /** The counting half of `_unlocked_levels`: cards and reviewed cards of each level. */
  method CountLevels(ds: seq<Direction>, catalog: seq<CatalogEntry>, states: map<CardKey, SchedState>)
    returns (total: map<Level, nat>, mastered: map<Level, nat>)
    ensures forall l :: Count(total, l) == Total(catalog, ds, l)
    ensures forall l :: Count(mastered, l) == Mastered(catalog, ds, states, l)
  {
    total, mastered := map[], map[];
    for i := 0 to |catalog|
      invariant forall l :: Count(total, l) == Total(catalog[..i], ds, l)
      invariant forall l :: Count(mastered, l) == Mastered(catalog[..i], ds, states, l)
    {
      assert catalog[..i + 1][..i] == catalog[..i];
      var e := catalog[i];
      if e.level.Some? {
        var level := e.level.value;
        for j := 0 to |ds|
          invariant forall l :: Count(total, l) == Total(catalog[..i], ds, l) + if l == level then j else 0
          invariant forall l :: Count(mastered, l) == Mastered(catalog[..i], ds, states, l)
                                  + if l == level then MasteredOf(e.itemId, ds[..j], states) else 0
        {
          assert ds[..j + 1][..j] == ds[..j];
          total := total[level := Count(total, level) + 1];
          if Reviewed(states, CardKey(e.itemId, ds[j])) == 1 {
            mastered := mastered[level := Count(mastered, level) + 1];
          }
        }
        assert ds[..|ds|] == ds;
      }
    }
    assert catalog[..|catalog|] == catalog;
  }

  /** `_unlocked_levels`: the levels up to the first one that has cards and is below the threshold. */
  method UnlockedLevels(itemType: ItemType, catalog: seq<CatalogEntry>, states: map<CardKey, SchedState>,
                        threshold: real)
    returns (unlocked: set<Level>)
    ensures forall level :: level in unlocked <==> Unlocked(catalog, DirectionsOf(itemType), states, threshold, level)
    ensures N5 in unlocked
  {
    var ds := DirectionsOf(itemType);
    var total, mastered := CountLevels(ds, catalog, states);
    unlocked := {};
    for i := 0 to |STUDY_ORDER|
      invariant forall l :: l in unlocked <==> StudyIndex(l) < i
      invariant forall j :: 0 <= j < i ==>
        Meets(Total(catalog, ds, STUDY_ORDER[j]), Mastered(catalog, ds, states, STUDY_ORDER[j]), threshold)
    {
      var level := STUDY_ORDER[i];
      unlocked := unlocked + {level};
      if !Meets(Count(total, level), Count(mastered, level), threshold) {
        return;
      }
    }
  }

  /** The cards of one item. */
  ghost function ItemCards(itemId: string, ds: seq<Direction>): set<CardKey> {
    if ds == [] then {} else ItemCards(itemId, ds[..|ds| - 1]) + {CardKey(itemId, ds[|ds| - 1])}
  }

  /** The cards of a level. */
  ghost function LevelCards(catalog: seq<CatalogEntry>, ds: seq<Direction>, level: Level): set<CardKey> {
    if catalog == [] then {}
    else
      var e := catalog[|catalog| - 1];
      LevelCards(catalog[..|catalog| - 1], ds, level) + if e.level == Some(level) then ItemCards(e.itemId, ds) else {}
  }

  ghost function InReview(cards: set<CardKey>, states: map<CardKey, SchedState>): set<CardKey> {
    set key | key in cards && key in states && states[key] == Review
  }

  lemma {:induction false} ItemCardsAre(itemId: string, ds: seq<Direction>, key: CardKey)
    ensures key in ItemCards(itemId, ds) <==> key.itemId == itemId && key.direction in ds
  {
    if ds != [] {
      ItemCardsAre(itemId, ds[..|ds| - 1], key);
      assert ds == ds[..|ds| - 1] + [ds[|ds| - 1]];
    }
  }

  /** They are the cards of its items in the directions of the type. */
  lemma {:induction false} LevelCardsAre(catalog: seq<CatalogEntry>, ds: seq<Direction>, level: Level, key: CardKey)
    ensures key in LevelCards(catalog, ds, level) <==>
              key.direction in ds && exists e :: e in catalog && e.level == Some(level) && e.itemId == key.itemId
  {
    if catalog != [] {
      var n := |catalog| - 1;
      LevelCardsAre(catalog[..n], ds, level, key);
      ItemCardsAre(catalog[n].itemId, ds, key);
      assert forall e :: e in catalog <==> e in catalog[..n] || e == catalog[n];
    }
  }

  lemma InReviewAdds(a: set<CardKey>, b: set<CardKey>, states: map<CardKey, SchedState>)
    requires a !! b
    ensures |a + b| == |a| + |b| && |InReview(a + b, states)| == |InReview(a, states)| + |InReview(b, states)|
  {
    assert InReview(a + b, states) == InReview(a, states) + InReview(b, states);
    assert InReview(a, states) !! InReview(b, states);
  }

  lemma OneInReview(key: CardKey, states: map<CardKey, SchedState>)
    ensures |InReview({key}, states)| == Reviewed(states, key)
  {
    assert InReview({key}, states) == if key in states && states[key] == Review then {key} else {};
  }

  lemma {:induction false} ItemCounts(itemId: string, ds: seq<Direction>, states: map<CardKey, SchedState>)
    requires Distinct(ds)
    ensures |ItemCards(itemId, ds)| == |ds| &&
            MasteredOf(itemId, ds, states) == |InReview(ItemCards(itemId, ds), states)|
  {
    if ds == [] {
      assert InReview({}, states) == {};
    } else {
      var n := |ds| - 1;
      var key := CardKey(itemId, ds[n]);
      ItemCounts(itemId, ds[..n], states);
      ItemCardsAre(itemId, ds[..n], key);
      OneInReview(key, states);
      InReviewAdds(ItemCards(itemId, ds[..n]), {key}, states);
    }
  }

  lemma {:induction false} ItemIsNew(catalog: seq<CatalogEntry>, ds: seq<Direction>, level: Level)
    requires WellNumbered(catalog) && catalog != []
    ensures var n := |catalog| - 1; LevelCards(catalog[..n], ds, level) !! ItemCards(catalog[n].itemId, ds)
  {
    var n := |catalog| - 1;
    forall key | key in LevelCards(catalog[..n], ds, level) ensures key !in ItemCards(catalog[n].itemId, ds) {
      LevelCardsAre(catalog[..n], ds, level, key);
      ItemCardsAre(catalog[n].itemId, ds, key);
    }
  }

  /** The counts are those of the cards. */
  ghost predicate Counted(total: nat, mastered: nat, cards: set<CardKey>, states: map<CardKey, SchedState>) {
    total == |cards| && mastered == |InReview(cards, states)|
  }

  lemma {:induction false} CountedAdds(total: nat, mastered: nat, cards: set<CardKey>, itemId: string,
                                       ds: seq<Direction>, states: map<CardKey, SchedState>)
    requires Counted(total, mastered, cards, states) && Distinct(ds) && cards !! ItemCards(itemId, ds)
    ensures Counted(total + |ds|, mastered + MasteredOf(itemId, ds, states), cards + ItemCards(itemId, ds), states)
  {
    ItemCounts(itemId, ds, states);
    InReviewAdds(cards, ItemCards(itemId, ds), states);
  }

  lemma {:induction false} LevelCounts(catalog: seq<CatalogEntry>, ds: seq<Direction>, states: map<CardKey, SchedState>,
                                       level: Level)
    requires WellNumbered(catalog) && Distinct(ds)
    ensures Counted(Total(catalog, ds, level), Mastered(catalog, ds, states, level), LevelCards(catalog, ds, level),
            states)
  {
    if catalog == [] {
      assert InReview({}, states) == {};
    } else {
      var n := |catalog| - 1;
      var fewer := LevelCards(catalog[..n], ds, level);
      LevelCounts(catalog[..n], ds, states, level);
      if catalog[n].level == Some(level) {
        ItemIsNew(catalog, ds, level);
        var total, mastered := Total(catalog[..n], ds, level), Mastered(catalog[..n], ds, states, level);
        CountedAdds(total, mastered, fewer, catalog[n].itemId, ds, states);
      } else {
        assert fewer + {} == fewer;
      }
    }
  }

  lemma MeetsMeans(total: nat, mastered: nat, threshold: real)
    requires mastered <= total
    ensures Meets(total, mastered, threshold) <==> mastered as real >= threshold * total as real
  {
    if total > 0 {
      var share, n := mastered as real / total as real, total as real;
      assert share * n == mastered as real;
      assert share >= threshold ==> (share - threshold) * n >= 0.0;
      assert share < threshold ==> (threshold - share) * n > 0.0;
    } else {
      assert threshold * 0.0 == 0.0;
    }
  }

  /** At least this share of the cards of a level is in Review. */
  ghost predicate MostlyLearned(cards: set<CardKey>, states: map<CardKey, SchedState>, threshold: real) {
    |InReview(cards, states)| as real >= threshold * |cards| as real
  }

  lemma {:induction false} MeetsIsLearned(catalog: seq<CatalogEntry>, ds: seq<Direction>,
                                          states: map<CardKey, SchedState>, threshold: real, level: Level)
    requires WellNumbered(catalog) && Distinct(ds)
    ensures Meets(Total(catalog, ds, level), Mastered(catalog, ds, states, level), threshold)
       <==> MostlyLearned(LevelCards(catalog, ds, level), states, threshold)
  {
    var cards := LevelCards(catalog, ds, level);
    LevelCounts(catalog, ds, states, level);
    MostCards(cards, states);
    LearnedMeans(cards, states, |cards|, |InReview(cards, states)|, threshold);
  }

  lemma {:induction false} LearnedMeans(cards: set<CardKey>, states: map<CardKey, SchedState>, total: nat,
                                        mastered: nat,
                                        threshold: real)
    requires total == |cards| && mastered == |InReview(cards, states)| && mastered <= total
    ensures Meets(total, mastered, threshold) <==> MostlyLearned(cards, states, threshold)
  {
    MeetsMeans(total, mastered, threshold);
  }

  /** A level is unlocked exactly when of the cards of every level before it at least the threshold are in Review. */
  lemma {:induction false} UnlockedMeans(itemType: ItemType, catalog: seq<CatalogEntry>,
                                         states: map<CardKey, SchedState>, threshold: real, level: Level)
    requires WellNumbered(catalog)
    ensures Unlocked(catalog, DirectionsOf(itemType), states, threshold, level) <==>
              forall l :: StudiedBefore(l, level) ==>
                MostlyLearned(LevelCards(catalog, DirectionsOf(itemType), l), states, threshold)
  {
    var ds := DirectionsOf(itemType);
    UnlockedByIndex(catalog, ds, states, threshold, level);
    BeforeByIndex(level, l => MostlyLearned(LevelCards(catalog, ds, l), states, threshold));
  }

  lemma {:induction false} UnlockedByIndex(catalog: seq<CatalogEntry>, ds: seq<Direction>,
                                           states: map<CardKey, SchedState>, threshold: real, level: Level)
    requires WellNumbered(catalog) && Distinct(ds)
    ensures Unlocked(catalog, ds, states, threshold, level) <==>
              forall i :: 0 <= i < StudyIndex(level) ==>
                MostlyLearned(LevelCards(catalog, ds, STUDY_ORDER[i]), states, threshold)
  {
    forall i | 0 <= i < StudyIndex(level)
      ensures Meets(Total(catalog, ds, STUDY_ORDER[i]), Mastered(catalog, ds, states, STUDY_ORDER[i]), threshold)
         <==> MostlyLearned(LevelCards(catalog, ds, STUDY_ORDER[i]), states, threshold)
    {
      MeetsIsLearned(catalog, ds, states, threshold, STUDY_ORDER[i]);
    }
  }

  lemma BeforeByIndex(level: Level, p: Level -> bool)
    ensures (forall i :: 0 <= i < StudyIndex(level) ==> p(STUDY_ORDER[i])) <==>
              forall l :: StudiedBefore(l, level) ==> p(l)
  {
    BeforeIs(level);
    if forall i :: 0 <= i < StudyIndex(level) ==> p(STUDY_ORDER[i]) {
      forall l | StudiedBefore(l, level) ensures p(l) {
        assert p(STUDY_ORDER[StudyIndex(l)]);
      }
    }
  }

  lemma {:induction false} MostCards(cards: set<CardKey>, states: map<CardKey, SchedState>)
    ensures |InReview(cards, states)| <= |cards|
  {
    InReviewAdds(InReview(cards, states), cards - InReview(cards, states), states);
    assert InReview(cards, states) + (cards - InReview(cards, states)) == cards;
  }

  lemma BeforeIs(level: Level)
    ensures forall l :: StudiedBefore(l, level) <==> StudyIndex(l) < StudyIndex(level)
    ensures forall l :: STUDY_ORDER[StudyIndex(l)] == l
    ensures forall i :: 0 <= i < |STUDY_ORDER| ==> StudyIndex(STUDY_ORDER[i]) == i
  {
    assert forall i :: 0 <= i < |STUDY_ORDER| ==> StudyIndex(STUDY_ORDER[i]) == i;
    forall l | StudyIndex(l) < StudyIndex(level) ensures StudiedBefore(l, level) {
      assert STUDY_ORDER[StudyIndex(l)] == l && STUDY_ORDER[StudyIndex(level)] == level;
    }
  }

  /** What is unlocked is a prefix of the study order, and it only grows as more cards reach Review. */
  lemma UnlockingGrows(itemType: ItemType, catalog: seq<CatalogEntry>, states: map<CardKey, SchedState>,
                       later: map<CardKey, SchedState>, threshold: real, level: Level, earlier: Level)
    requires forall key :: key in states && states[key] == Review ==> key in later && later[key] == Review
    requires Unlocked(catalog, DirectionsOf(itemType), states, threshold, level) &&
             StudyIndex(earlier) <= StudyIndex(level)
    ensures Unlocked(catalog, DirectionsOf(itemType), later, threshold, earlier)
  {
    var ds := DirectionsOf(itemType);
    forall i | 0 <= i < StudyIndex(earlier)
      ensures Meets(Total(catalog, ds, STUDY_ORDER[i]), Mastered(catalog, ds, later, STUDY_ORDER[i]), threshold)
    {
      MasteryGrows(catalog, ds, states, later, STUDY_ORDER[i]);
      var total, m, n := Total(catalog, ds, STUDY_ORDER[i]), Mastered(catalog, ds, states, STUDY_ORDER[i]),
          Mastered(catalog, ds, later, STUDY_ORDER[i]);
      assert Meets(total, m, threshold);
      ShareGrows(total, m, n, threshold);
    }
  }

  lemma QuotientGrows(x: real, y: real, d: real)
    requires d > 0.0 && x <= y
    ensures x / d <= y / d
  {
    var p, q := x / d, y / d;
    assert p * d == x && q * d == y && (p - q) * d == x - y;
    assert p <= q || (p - q) * d > 0.0;
  }

  lemma ShareGrows(total: nat, m: nat, n: nat, threshold: real)
    requires m <= n && Meets(total, m, threshold)
    ensures Meets(total, n, threshold)
  {
    if total > 0 {
      QuotientGrows(m as real, n as real, total as real);
    }
  }

  lemma {:induction false} MasteryGrows(catalog: seq<CatalogEntry>, ds: seq<Direction>,
                                        states: map<CardKey, SchedState>, later: map<CardKey, SchedState>, level: Level)
    requires forall key :: key in states && states[key] == Review ==> key in later && later[key] == Review
    ensures Mastered(catalog, ds, states, level) <= Mastered(catalog, ds, later, level)
  {
    if catalog != [] {
      MasteryGrows(catalog[..|catalog| - 1], ds, states, later, level);
      ItemMasteryGrows(catalog[|catalog| - 1].itemId, ds, states, later);
    }
  }

  lemma {:induction false} ItemMasteryGrows(itemId: string, ds: seq<Direction>, states: map<CardKey, SchedState>,
                                            later: map<CardKey, SchedState>)
    requires forall key :: key in states && states[key] == Review ==> key in later && later[key] == Review
    ensures MasteredOf(itemId, ds, states) <= MasteredOf(itemId, ds, later)
  {
    if ds != [] {
      ItemMasteryGrows(itemId, ds[..|ds| - 1], states, later);
    }
  }
}
