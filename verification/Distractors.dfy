/** Multiple-choice options (src/bunsho/services/distractors.py). */
module Distractors {
  import opened ReviewTypes
  import opened NewCardPolicies
  import opened StableSort

  const WANTED: nat := 3

  datatype Script = Hiragana | Katakana

  /** What the content repository holds of an item: its script, if kana, and its accepted answers. */
  datatype Item = Item(script: Option<Script>, answers: seq<string>)

  /** A source of randomness: whatever it draws, a shuffle swaps within the list. */
  type Draws = nat -> nat

  /** `random.shuffle`: from the end, swap each place with a drawn one at or before it. */
  method Shuffle<T>(list: seq<T>, draws: Draws) returns (shuffled: seq<T>)
    ensures multiset(shuffled) == multiset(list)
  {
    shuffled := list;
    var i := |list|;
    while i > 1
      invariant |shuffled| == |list| && multiset(shuffled) == multiset(list)
    {
      i := i - 1;
      var j := draws(i) % (i + 1);
      shuffled := shuffled[i := shuffled[j]][j := shuffled[i]];
    }
  }

  /** The preference band of an entry: its card's own level, an active level or none, anything else. */
  function Band(e: CatalogEntry, level: Option<Level>, active: set<Level>): nat {
    if e.level == level then 0 else if e.level.None? || e.level.value in active then 1 else 2
  }

  ghost predicate InBand(list: seq<CatalogEntry>, level: Option<Level>, active: set<Level>, band: nat) {
    forall e :: e in list ==> Band(e, level, active) == band
  }

  /** No entry stands before one of a more preferred band. */
  ghost predicate Ranked(pool: seq<CatalogEntry>, level: Option<Level>, active: set<Level>) {
    forall i, j :: 0 <= i < j < |pool| ==> Band(pool[i], level, active) <= Band(pool[j], level, active)
  }

  function Others(entries: seq<CatalogEntry>, exclude: string): seq<CatalogEntry> {
    if entries == [] then []
    else
      var e := entries[|entries| - 1];
      Others(entries[..|entries| - 1], exclude) + if e.itemId == exclude then [] else [e]
  }

  lemma {:induction false} OthersHas(entries: seq<CatalogEntry>, exclude: string, e: CatalogEntry)
    ensures e in Others(entries, exclude) <==> e in entries && e.itemId != exclude
  {
    if entries != [] {
      var n := |entries| - 1;
      OthersHas(entries[..n], exclude, e);
      assert entries == entries[..n] + [entries[n]];
    }
  }

  /** The entries of one band, in their order. */
  function InOneBand(list: seq<CatalogEntry>, level: Option<Level>, active: set<Level>,
                     band: nat): (r: seq<CatalogEntry>)
    ensures InBand(r, level, active, band)
  {
    if list == [] then []
    else
      var e := list[|list| - 1];
      InOneBand(list[..|list| - 1], level, active, band) + if Band(e, level, active) == band then [e] else []
  }

  lemma {:induction false} BandGrows(list: seq<CatalogEntry>, e: CatalogEntry, level: Option<Level>,
                                     active: set<Level>, band: nat)
    ensures InOneBand(list + [e], level, active, band)
         == if Band(e, level, active) == band then InOneBand(list, level, active, band) + [e]
             else InOneBand(list, level, active, band)
  {
    assert (list + [e])[..|list|] == list;
  }

  /** Every entry is in exactly one band. */
  lemma {:induction false} BandsCover(list: seq<CatalogEntry>, level: Option<Level>, active: set<Level>)
    ensures multiset(InOneBand(list, level, active, 0)) + multiset(InOneBand(list, level, active, 1))
            + multiset(InOneBand(list, level, active, 2)) == multiset(list)
  {
    if list != [] {
      var n := |list| - 1;
      var e := list[n];
      BandsCover(list[..n], level, active);
      assert list == list[..n] + [e];
      BandGrows(list[..n], e, level, active, 0);
      BandGrows(list[..n], e, level, active, 1);
      BandGrows(list[..n], e, level, active, 2);
      AddOne(multiset(InOneBand(list[..n], level, active, 0)), multiset(InOneBand(list[..n], level, active, 1)),
             multiset(InOneBand(list[..n], level, active, 2)), e);
    }
  }

  lemma AddOne(a: multiset<CatalogEntry>, b: multiset<CatalogEntry>, c: multiset<CatalogEntry>, e: CatalogEntry)
    ensures (a + multiset{e}) + b + c == a + b + c + multiset{e}
    ensures a + (b + multiset{e}) + c == a + b + c + multiset{e}
    ensures a + b + (c + multiset{e}) == a + b + c + multiset{e}
  {
  }

  lemma {:induction false} OthersGrow(entries: seq<CatalogEntry>, i: nat, exclude: string)
    requires i < |entries|
    ensures Others(entries[..i + 1], exclude)
         == if entries[i].itemId == exclude then Others(entries[..i], exclude)
             else Others(entries[..i], exclude) + [entries[i]]
  {
    assert entries[..i + 1][..i] == entries[..i];
  }

  /** The sorting loop of `_ranked_pool`. */
  method SplitBands(entries: seq<CatalogEntry>, exclude: string, level: Option<Level>, active: set<Level>)
    returns (same: seq<CatalogEntry>, other: seq<CatalogEntry>, rest: seq<CatalogEntry>)
    ensures same == InOneBand(Others(entries, exclude), level, active, 0)
    ensures other == InOneBand(Others(entries, exclude), level, active, 1)
    ensures rest == InOneBand(Others(entries, exclude), level, active, 2)
  {
    same, other, rest := [], [], [];
    for i := 0 to |entries|
      invariant same == InOneBand(Others(entries[..i], exclude), level, active, 0)
      invariant other == InOneBand(Others(entries[..i], exclude), level, active, 1)
      invariant rest == InOneBand(Others(entries[..i], exclude), level, active, 2)
    {
      OthersGrow(entries, i, exclude);
      var e := entries[i];
      if e.itemId == exclude {
        continue;
      }
      BandGrows(Others(entries[..i], exclude), e, level, active, 0);
      BandGrows(Others(entries[..i], exclude), e, level, active, 1);
      BandGrows(Others(entries[..i], exclude), e, level, active, 2);
      if e.level == level {
        same := same + [e];
      } else if e.level.None? || e.level.value in active {
        other := other + [e];
      } else {
        rest := rest + [e];
      }
    }
    assert entries[..|entries|] == entries;
  }

  /** `_ranked_pool`: the bands, each shuffled, in order of preference. */
  method RankedPool(entries: seq<CatalogEntry>, exclude: string, level: Option<Level>, active: set<Level>,
                    draws: seq<Draws>)
    returns (pool: seq<CatalogEntry>)
    requires |draws| >= 3
    ensures multiset(pool) == multiset(Others(entries, exclude))
    ensures Ranked(pool, level, active)
  {
    var same, other, rest := SplitBands(entries, exclude, level, active);
    BandsCover(Others(entries, exclude), level, active);
    var first := Shuffle(same, draws[0]);
    var second := Shuffle(other, draws[1]);
    var third := Shuffle(rest, draws[2]);
    ShuffledInBand(same, first, level, active, 0);
    ShuffledInBand(other, second, level, active, 1);
    ShuffledInBand(rest, third, level, active, 2);
    BandsRanked(first, second, third, level, active);
    pool := first + second + third;
  }

  lemma ShuffledInBand(list: seq<CatalogEntry>, shuffled: seq<CatalogEntry>, level: Option<Level>, active: set<Level>,
                       band: nat)
    requires InBand(list, level, active, band) && multiset(shuffled) == multiset(list)
    ensures InBand(shuffled, level, active, band)
  {
    forall e | e in shuffled ensures Band(e, level, active) == band {
      SameElements(shuffled, list, e);
    }
  }

  lemma BandsRanked(a: seq<CatalogEntry>, b: seq<CatalogEntry>, c: seq<CatalogEntry>, level: Option<Level>,
                    active: set<Level>)
    requires InBand(a, level, active, 0) && InBand(b, level, active, 1) && InBand(c, level, active, 2)
    ensures Ranked(a + b + c, level, active)
  {
    var pool := a + b + c;
    forall i | 0 <= i < |pool|
      ensures Band(pool[i], level, active) == if i < |a| then 0 else if i < |a| + |b| then 1 else 2
    {
      assert pool[i] in if i < |a| then a else if i < |a| + |b| then b else c;
    }
  }

  /** The option an entry offers, if it offers one: its item exists, in the card's script, with an answer. */
  function OptionOf(e: CatalogEntry, items: map<string, Item>, script: Option<Script>): Option<string> {
    if e.itemId !in items || items[e.itemId].script != script || items[e.itemId].answers == [] then None
    else Some(items[e.itemId].answers[0])
  }

  /** An option, and that everything a more preferred entry offers is among `shown`. */
  ghost predicate FairlyOffered(pool: seq<CatalogEntry>, items: map<string, Item>, script: Option<Script>,
                                level: Option<Level>, active: set<Level>, shown: set<string>, option: string)
  {
    exists e :: e in pool && OptionOf(e, items, script) == Some(option) &&
      forall f :: f in pool && Band(f, level, active) < Band(e, level, active) && OptionOf(f, items, script).Some? ==>
        OptionOf(f, items, script).value in shown
  }

  ghost predicate AllShown(pool: seq<CatalogEntry>, items: map<string, Item>, script: Option<Script>,
                           shown: set<string>) {
    forall e :: e in pool && OptionOf(e, items, script).Some? ==> OptionOf(e, items, script).value in shown
  }

  function Elements(list: seq<string>): set<string> { set x | x in list }

  /** The loop over the pool. */
  method PickDistractors(pool: seq<CatalogEntry>, items: map<string, Item>, script: Option<Script>, correct: string,
                         ghost level: Option<Level>, ghost active: set<Level>)
    returns (distractors: seq<string>)
    requires Ranked(pool, level, active)
    ensures |distractors| <= WANTED && Distinct([correct] + distractors)
    ensures |distractors| < WANTED ==> AllShown(pool, items, script, Elements([correct] + distractors))
    ensures forall d :: d in distractors ==>
            FairlyOffered(pool, items, script, level, active, Elements([correct] + distractors), d)
  {
    distractors := [];
    for i := 0 to |pool|
      invariant |distractors| <= WANTED && Distinct([correct] + distractors)
      invariant AllShown(pool[..i], items, script, Elements([correct] + distractors))
      invariant forall d :: d in distractors ==>
                FairlyOffered(pool, items, script, level, active, Elements([correct] + distractors), d)
    {
      if |distractors| >= WANTED {
        break;
      }
      var option := OptionOf(pool[i], items, script);
      ghost var shown := Elements([correct] + distractors);
      assert pool[..i + 1] == pool[..i] + [pool[i]];
      if option.None? || option.value in [correct] + distractors {
        continue;
      }
      LowerShown(pool, i, items, script, level, active, shown, option.value);
      KeepFair(pool, items, script, level, active, shown, shown + {option.value}, distractors);
      assert Elements([correct] + (distractors + [option.value])) == shown + {option.value};
      assert [correct] + (distractors + [option.value]) == [correct] + distractors + [option.value];
      distractors := distractors + [option.value];
    }
    assert pool[..|pool|] == pool;
  }

  lemma LowerShown(pool: seq<CatalogEntry>, i: nat, items: map<string, Item>, script: Option<Script>,
                   level: Option<Level>, active: set<Level>, shown: set<string>, option: string)
    requires Ranked(pool, level, active) && i < |pool| && OptionOf(pool[i], items, script) == Some(option)
    requires AllShown(pool[..i], items, script, shown)
    ensures FairlyOffered(pool, items, script, level, active, shown + {option}, option)
  {
    forall f | f in pool && Band(f, level, active) < Band(pool[i], level, active) && OptionOf(f, items, script).Some?
      ensures OptionOf(f, items, script).value in shown + {option}
    {
      var k :| 0 <= k < |pool| && pool[k] == f;
      assert k < i;
      assert pool[..i][k] == f;
    }
    assert pool[i] in pool;
  }

  lemma KeepFair(pool: seq<CatalogEntry>, items: map<string, Item>, script: Option<Script>, level: Option<Level>,
                 active: set<Level>, shown: set<string>, more: set<string>, options: seq<string>)
    requires shown <= more && forall d :: d in options ==> FairlyOffered(pool, items, script, level, active, shown, d)
    ensures forall d :: d in options ==> FairlyOffered(pool, items, script, level, active, more, d)
  {
  }

  /**
   * `choices_for`, for a card whose own accepted answers are `answers`; without one the source fails.
   * Whatever is drawn: the correct answer once among at most four distinct options; fewer than four
   * only if everything on offer is shown; and nothing from a band unless every better band is used up.
   */
  method ChoicesFor(answers: seq<string>, exclude: string, level: Option<Level>, script: Option<Script>,
                    active: set<Level>, entries: seq<CatalogEntry>, items: map<string, Item>, draws: seq<Draws>)
    returns (choices: Option<seq<string>>)
    requires |draws| >= 4
    ensures choices.None? <==> answers == []
    ensures choices.Some? ==>
      var (list, others) := (choices.value, Others(entries, exclude));
      && answers[0] in list && Distinct(list) && |list| <= WANTED + 1
      && (|list| < WANTED + 1 ==> AllShown(others, items, script, Elements(list)))
      && (|list| < WANTED + 1 ==>
            forall e :: e in entries && First(e, exclude, script, items).Some? ==>
              First(e, exclude, script, items).value in list)
      && (forall c :: c in list && c != answers[0] ==>
            FairlyOffered(others, items, script, level, active, Elements(list), c))
      && forall c :: c in list && c != answers[0] ==> Taken(entries, exclude, level, script, active, items, list, c)
  {
    if answers == [] {
      return None;
    }
    var correct := answers[0];
    var pool := RankedPool(entries, exclude, level, active, draws[..3]);
    var distractors := PickDistractors(pool, items, script, correct, level, active);
    var list := Shuffle([correct] + distractors, draws[3]);
    ghost var others := Others(entries, exclude);
    SamePool(pool, others, items, script, level, active, Elements([correct] + distractors));
    SameOptions([correct] + distractors, list);
    forall e | e in entries && First(e, exclude, script, items).Some?
      ensures OptionOf(e, items, script) == First(e, exclude, script, items) && e in others
    {
      OthersHas(entries, exclude, e);
    }
    forall c | c in list && c != correct ensures Taken(entries, exclude, level, script, active, items, list, c) {
      FairMeans(entries, exclude, level, script, active, items, list, c);
    }
    choices := Some(list);
  }

  /**
   * The option is the first answer of another entry, whose item exists and has the card's script. If that entry is
   * not of the card's level, the answers of all entries that are of it are among the options; and if it is not of an
   * active level either, so are those of all entries of an active level or of none.
   */
  ghost predicate Taken(entries: seq<CatalogEntry>, exclude: string, level: Option<Level>, script: Option<Script>,
                        active: set<Level>, items: map<string, Item>, list: seq<string>, option: string) {
    exists e :: e in entries && First(e, exclude, script, items) == Some(option)
      && forall f :: f in entries && First(f, exclude, script, items).Some?
                     && First(f, exclude, script, items).value !in list ==>
           && (f.level == level ==> e.level == level)
           && (f.level.None? || f.level.value in active ==>
                 e.level == level || e.level.None? || e.level.value in active)
  }

  /** What the card of another entry would be answered with, if it has the card's script. */
  ghost function First(e: CatalogEntry, exclude: string, script: Option<Script>,
                       items: map<string, Item>): Option<string> {
    if e.itemId != exclude && e.itemId in items && items[e.itemId].script == script &&
        |items[e.itemId].answers| > 0 then
      Some(items[e.itemId].answers[0])
    else None
  }

  lemma {:induction false} FairMeans(entries: seq<CatalogEntry>, exclude: string, level: Option<Level>,
                                     script: Option<Script>, active: set<Level>, items: map<string, Item>,
                                     list: seq<string>, option: string)
    requires FairlyOffered(Others(entries, exclude), items, script, level, active, Elements(list), option)
    ensures Taken(entries, exclude, level, script, active, items, list, option)
  {
    var others := Others(entries, exclude);
    var e :| e in others && OptionOf(e, items, script) == Some(option) &&
      forall f :: f in others && Band(f, level, active) < Band(e, level, active) && OptionOf(f, items, script).Some? ==>
        OptionOf(f, items, script).value in Elements(list);
    OthersHas(entries, exclude, e);
    forall f | f in entries && First(f, exclude, script, items).Some?
               && First(f, exclude, script, items).value !in list
      ensures f.level == level ==> e.level == level
      ensures f.level.None? || f.level.value in active ==> e.level == level || e.level.None? || e.level.value in active
    {
      OthersHas(entries, exclude, f);
    }
  }

  lemma SameOptions(list: seq<string>, shuffled: seq<string>)
    requires multiset(shuffled) == multiset(list) && Distinct(list)
    ensures Distinct(shuffled) && |shuffled| == |list| && Elements(shuffled) == Elements(list)
    ensures forall c :: c in shuffled <==> c in list
  {
    DistinctCounts(list);
    DistinctCounts(shuffled);
    assert |multiset(shuffled)| == |multiset(list)|;
    forall c ensures c in shuffled <==> c in list {
      SameElements(shuffled, list, c);
    }
  }

  lemma SamePool(pool: seq<CatalogEntry>, others: seq<CatalogEntry>, items: map<string, Item>, script: Option<Script>,
                 level: Option<Level>, active: set<Level>, shown: set<string>)
    requires multiset(pool) == multiset(others)
    ensures AllShown(pool, items, script, shown) ==> AllShown(others, items, script, shown)
    ensures forall d :: FairlyOffered(pool, items, script, level, active, shown, d) ==>
                        FairlyOffered(others, items, script, level, active, shown, d)
  {
    forall e: CatalogEntry ensures e in pool <==> e in others {
      SameElements(pool, others, e);
    }
  }
}
