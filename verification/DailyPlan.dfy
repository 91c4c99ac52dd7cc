/**
 * The daily plan of new cards and the choice among it
 * (src/bunsho/orchestration/review_session.py: `_plan`, `pick_new`, `_due_view`).
 */
module DailyPlan {
  import opened ReviewTypes
  import opened NewCardPolicies

  const TYPE_ORDER: seq<ItemType> := [Kana, Kanji, Vocab]

  function TypeIndex(itemType: ItemType): nat {
    match itemType
    case Kana => 0
    case Kanji => 1
    case Vocab => 2
  }

  lemma TypesInOrder(itemType: ItemType)
    ensures TypeIndex(itemType) < |TYPE_ORDER| && TYPE_ORDER[TypeIndex(itemType)] == itemType
  {
  }

  /** Daily limits in cards; 0 means unlimited. */
  datatype Limits = Limits(kana: nat, kanji: nat, vocab: nat) {
    function For(itemType: ItemType): nat {
      match itemType
      case Kana => kana
      case Kanji => kanji
      case Vocab => vocab
    }
  }

  datatype Content = Content(kana: seq<CatalogEntry>, kanji: seq<CatalogEntry>, vocab: seq<CatalogEntry>) {
    function For(itemType: ItemType): seq<CatalogEntry> {
      match itemType
      case Kana => kana
      case Kanji => kanji
      case Vocab => vocab
    }
  }

  datatype Config = Config(limits: Limits, content: Content, levels: set<Level>)

  /** What the plan offers of one type: nothing when it is held back or its allowance is used up. */
  function NewKeys(cfg: Config, available: set<ItemType>, seen: set<CardKey>, introduced: nat,
                   itemType: ItemType): seq<CardKey> {
    var limit := cfg.limits.For(itemType);
    if itemType !in available || (limit > 0 && introduced >= limit) then []
    else
      var allowance := if limit == 0 then None else Some(limit - introduced);
      Select(itemType, cfg.content.For(itemType), seen, cfg.levels, allowance)
  }

  /**
   * A type that is available is offered the beginning of its study list: all of it without a limit, else what is left
   * of the day's allowance; any other type nothing.
   */
  lemma {:induction false} OffersFirst(cfg: Config, available: set<ItemType>, seen: set<CardKey>, introduced: nat,
                                       ty: ItemType, list: seq<CardKey>)
    requires WellNumbered(cfg.content.For(ty)) &&
             StudyList(list, cfg.content.For(ty), DirectionsOf(ty), seen, cfg.levels)
    ensures NewKeys(cfg, available, seen, introduced, ty) <= list
    ensures var (n, limit) := (|NewKeys(cfg, available, seen, introduced, ty)|, cfg.limits.For(ty));
            if ty !in available then n == 0
            else if limit == 0 then n == |list|
            else if introduced >= limit then n == 0
            else if introduced + |list| <= limit then n == |list|
            else introduced + n == limit
  {
    var limit := cfg.limits.For(ty);
    var allowance := if limit == 0 then None else Some(limit - introduced);
    SelectsFirst(ty, cfg.content.For(ty), seen, cfg.levels, allowance, list);
  }

  /** Each type has its own limit and its own content. */
  lemma EachHasItsOwn(limits: Limits, content: Content)
    ensures limits == Limits(limits.For(Kana), limits.For(Kanji), limits.For(Vocab))
    ensures content == Content(content.For(Kana), content.For(Kanji), content.For(Vocab))
  {
  }

  function CountOf(counts: map<ItemType, nat>, itemType: ItemType): nat {
    if itemType in counts then counts[itemType] else 0
  }

  method PlanType(cfg: Config, available: set<ItemType>, seen: set<CardKey>, introduced: map<ItemType, nat>,
                  itemType: ItemType)
    returns (keys: seq<CardKey>)
    ensures keys == NewKeys(cfg, available, seen, CountOf(introduced, itemType), itemType)
  {
    if itemType !in available {
      return [];
    }
    var limit := cfg.limits.For(itemType);
    var left := limit - CountOf(introduced, itemType);
    var allowance := if limit == 0 then None else Some(if left < 0 then 0 else left);
    if allowance == Some(0) {
      return [];
    }
    return Select(itemType, cfg.content.For(itemType), seen, cfg.levels, allowance);
  }

  /** `_plan`: fill the offered cards type by type. */
  method PlanNewKeys(cfg: Config, available: set<ItemType>, seen: set<CardKey>, introduced: map<ItemType, nat>)
    returns (newKeys: map<ItemType, seq<CardKey>>)
    ensures forall ty :: ty in newKeys && newKeys[ty] == NewKeys(cfg, available, seen, CountOf(introduced, ty), ty)
  {
    newKeys := map[];
    for i := 0 to |TYPE_ORDER|
      invariant forall ty :: TypeIndex(ty) < i ==>
        ty in newKeys && newKeys[ty] == NewKeys(cfg, available, seen, CountOf(introduced, ty), ty)
    {
      var keys := PlanType(cfg, available, seen, introduced, TYPE_ORDER[i]);
      newKeys := newKeys[TYPE_ORDER[i] := keys];
    }
  }

  // ---- Choosing among the types ----

  /** The part of its daily allowance a type has left; an unlimited type counts as a full one. */
  function Share(limit: nat, introduced: nat): real {
    if limit == 0 then 1.0 else (limit - introduced) as real / limit as real
  }

  /** The first card of the lowest rank. */
  function MinBy(keys: seq<CardKey>, rank: CardKey -> int): (key: CardKey)
    requires keys != []
    ensures key in keys && forall k :: k in keys ==> rank(key) <= rank(k)
    ensures key == keys[0] || rank(key) < rank(keys[0])
  {
    if |keys| == 1 then keys[0]
    else
      var rest := MinBy(keys[1..], rank);
      if rank(keys[0]) <= rank(rest) then keys[0] else rest
  }

  function FirstNew(itemType: ItemType, keys: seq<CardKey>, rank: CardKey -> int): CardKey
    requires keys != []
  {
    if itemType == Kana then MinBy(keys, rank) else keys[0]
  }

  /** The type on offer with the largest share; ties go to the earlier type. */
  ghost predicate BestType(newKeys: map<ItemType, seq<CardKey>>, limits: Limits, introduced: map<ItemType, nat>,
                           best: ItemType) {
    && best in newKeys && newKeys[best] != []
    && forall ty :: ty in newKeys && newKeys[ty] != [] ==>
         && Share(limits.For(ty), CountOf(introduced, ty)) <= Share(limits.For(best), CountOf(introduced, best))
         && (TypeIndex(ty) < TypeIndex(best) ==>
               Share(limits.For(ty), CountOf(introduced, ty)) < Share(limits.For(best), CountOf(introduced, best)))
  }

  /** `pick_new`, for plans in which a type on offer has some allowance left. */
  method PickNew(newKeys: map<ItemType, seq<CardKey>>, limits: Limits, introduced: map<ItemType, nat>,
                 rank: CardKey -> int)
    returns (best: Option<CardKey>, ghost bestType: ItemType)
    requires forall ty :: ty in newKeys
    requires forall ty :: newKeys[ty] != [] && limits.For(ty) > 0 ==> CountOf(introduced, ty) < limits.For(ty)
    ensures best.None? <==> forall ty :: newKeys[ty] == []
    ensures best.Some? ==>
              && BestType(newKeys, limits, introduced, bestType)
              && best.value == FirstNew(bestType, newKeys[bestType], rank)
              && best.value in newKeys[bestType]
              && (bestType != Kana ==> best.value == newKeys[bestType][0])
              && (bestType == Kana ==> forall key :: key in newKeys[Kana] ==> rank(best.value) <= rank(key))
  {
    best, bestType := None, Kana;
    var bestShare := -1.0;
    for i := 0 to |TYPE_ORDER|
      invariant best.None? ==> bestShare == -1.0 && forall ty :: TypeIndex(ty) < i ==> newKeys[ty] == []
      invariant best.Some? ==>
        && TypeIndex(bestType) < i && newKeys[bestType] != [] &&
             best.value == FirstNew(bestType, newKeys[bestType], rank)
        && bestShare == Share(limits.For(bestType), CountOf(introduced, bestType))
        && forall ty :: TypeIndex(ty) < i && newKeys[ty] != [] ==>
             && Share(limits.For(ty), CountOf(introduced, ty)) <= bestShare
             && (TypeIndex(ty) < TypeIndex(bestType) ==> Share(limits.For(ty), CountOf(introduced, ty)) < bestShare)
    {
      var itemType := TYPE_ORDER[i];
      var keys := newKeys[itemType];
      if keys == [] {
        continue;
      }
      var share := Share(limits.For(itemType), CountOf(introduced, itemType));
      ShareIsPositive(limits.For(itemType), CountOf(introduced, itemType));
      if share > bestShare {
        best := Some(FirstNew(itemType, keys, rank));
        bestShare := share;
        bestType := itemType;
      }
    }
  }

  /** The share is what is left of the allowance; without a limit it counts as untouched. */
  lemma ShareIsLeft(limit: nat, introduced: nat)
    ensures limit == 0 || introduced == 0 ==> Share(limit, introduced) == 1.0
    ensures Share(limit, introduced) * limit as real == if limit == 0 then 0.0 else (limit - introduced) as real
  {
    if limit > 0 {
      QuotientOf((limit - introduced) as real, limit as real);
      QuotientOf(limit as real, limit as real);
    }
  }

  lemma QuotientOf(x: real, y: real)
    requires y > 0.0
    ensures x / y * y == x && y / y == 1.0
  {
  }

  lemma ShareIsPositive(limit: nat, introduced: nat)
    requires limit == 0 || introduced < limit
    ensures Share(limit, introduced) > 0.0
  {
  }

  lemma ShareFalls(limit: nat, fewer: nat, more: nat)
    requires limit > 0 && fewer <= more
    ensures Share(limit, more) <= Share(limit, fewer) <= 1.0
  {
    QuotientGrows((limit - more) as real, (limit - fewer) as real, limit as real);
    QuotientGrows((limit - fewer) as real, limit as real, limit as real);
  }

  lemma ShareOfOneMore(limit: nat, introduced: nat)
    requires limit > 0
    ensures Share(limit, introduced + 1) + 1.0 / limit as real == Share(limit, introduced)
  {
  }

  // ---- Due cards ----

  datatype DueCard = DueCard(key: CardKey, lastReview: Option<Time>)

  predicate IsKana(card: DueCard) { card.key.Type() == Kana }

  function KanaOf(due: seq<DueCard>): seq<DueCard> {
    if due == [] then [] else (if IsKana(due[0]) then [due[0]] else []) + KanaOf(due[1..])
  }

  function LowestRank(cards: seq<DueCard>, rank: DueCard -> int): (card: DueCard)
    requires cards != []
    ensures card in cards && forall c :: c in cards ==> rank(card) <= rank(c)
    ensures card == cards[0] || rank(card) < rank(cards[0])
  {
    if |cards| == 1 then cards[0]
    else
      var rest := LowestRank(cards[1..], rank);
      if rank(cards[0]) <= rank(rest) then cards[0] else rest
  }

  lemma {:induction false} KanaOfHas(due: seq<DueCard>, card: DueCard)
    ensures card in KanaOf(due) <==> card in due && IsKana(card)
  {
    if due != [] {
      KanaOfHas(due[1..], card);
    }
  }

  /** `_pick_due`: the earliest due card, or a shuffled kana card when that one is kana. */
  function PickDue(due: seq<DueCard>, rank: DueCard -> int): (card: DueCard)
    requires due != []
    ensures card in due
    ensures !IsKana(due[0]) ==> card == due[0]
    ensures IsKana(due[0]) ==> IsKana(card) && forall c :: c in due && IsKana(c) ==> rank(card) <= rank(c)
    ensures card == due[0] || rank(card) < rank(due[0])
  {
    if !IsKana(due[0]) then due[0]
    else
      KanaOfHas(due, due[0]);
      var card := LowestRank(KanaOf(due), rank);
      KanaOfHas(due, card);
      assert forall c :: c in due && IsKana(c) ==> c in KanaOf(due) by {
        forall c | c in due && IsKana(c) ensures c in KanaOf(due) { KanaOfHas(due, c); }
      }
      card
  }

  lemma {:induction false} WithoutKeeps<T>(s: seq<T>, x: T, y: T)
    ensures y in Without(s, x) <==> y in s && y != x
    ensures |Without(s, x)| <= |s| && (x in s ==> |Without(s, x)| < |s|)
  {
    if s != [] {
      WithoutKeeps(s[1..], x, y);
    }
  }

  /** Card `i` is kana, only orphans are due before it, and it is served unless a usable kana card outranks it. */
  ghost predicate Leads(scan: seq<DueCard>, exist: set<CardKey>, rank: DueCard -> int, i: nat)
    requires i < |scan|
  {
    && scan[i].key.Type() == Kana && (forall k :: 0 <= k < i ==> scan[k].key !in exist)
    && (|| scan[i].key in exist
        || exists c :: c in scan && c.key.Type() == Kana && c.key in exist && rank(c) < rank(scan[i]))
  }

  ghost predicate KanaLeads(scan: seq<DueCard>, exist: set<CardKey>, rank: DueCard -> int) {
    exists i :: 0 <= i < |scan| && Leads(scan, exist, rank, i)
  }

  /**
   * `_due_view`: the first card, in the order `_pick_due` takes them, whose item still exists.
   * It gives up only when every card of the scan is an orphan. Otherwise it serves a kana card exactly when one
   * leads the scan: one that no other usable kana card outranks. Else it serves the earliest card that is no orphan.
   */
  method DueView(scan: seq<DueCard>, exist: set<CardKey>, rank: DueCard -> int) returns (card: Option<DueCard>)
    requires NoRepeats(scan)
    ensures card.None? <==> forall c :: c in scan ==> c.key !in exist
    ensures card.Some? ==> card.value in scan && card.value.key in exist
    ensures card.Some? ==> (card.value.key.Type() == Kana <==> KanaLeads(scan, exist, rank))
    ensures card.Some? && card.value.key.Type() != Kana ==>
              forall i, j :: 0 <= i < j < |scan| && scan[j] == card.value ==> scan[i].key !in exist
    ensures card.Some? && card.value.key.Type() == Kana ==>
              forall c :: c in scan && c.key.Type() == Kana && c.key in exist ==> rank(card.value) <= rank(c)
  {
    var due := scan;
    while due != []
      invariant PassedOver(scan, due, exist, rank) && InOrder(scan, due)
      decreases |due|
    {
      var stored := PickDue(due, rank);
      if stored.key in exist {
        PickIsServed(scan, due, exist, rank);
        return Some(stored);
      }
      OrderWithout(scan, due, stored);
      PassOver(scan, due, exist, rank);
      due := Without(due, stored);
    }
    return None;
  }

  /** The cards passed over are orphans, and the kana ones among them were outranked by no usable kana card. */
  ghost predicate PassedOver(scan: seq<DueCard>, due: seq<DueCard>, exist: set<CardKey>, rank: DueCard -> int) {
    && (forall c :: c in due ==> c in scan)
    && (forall c :: c in scan && c !in due ==> c.key !in exist)
    && (forall c, d :: c in scan && c !in due && IsKana(c) && d in scan && IsKana(d) && d.key in exist ==>
         rank(c) <= rank(d))
  }

  lemma {:induction false} PassOver(scan: seq<DueCard>, due: seq<DueCard>, exist: set<CardKey>, rank: DueCard -> int)
    requires due != [] && PassedOver(scan, due, exist, rank) && PickDue(due, rank).key !in exist
    ensures var rest := Without(due, PickDue(due, rank)); PassedOver(scan, rest, exist, rank) && |rest| < |due|
  {
    var stored := PickDue(due, rank);
    forall c: DueCard
      ensures c in Without(due, stored) <==> c in due && c != stored
      ensures |Without(due, stored)| < |due|
    {
      WithoutKeeps(due, stored, c);
    }
  }

  /** With a leading kana card in the scan, the usable card picked from what is left is kana. */
  lemma LeadsPicksKana(scan: seq<DueCard>, due: seq<DueCard>, exist: set<CardKey>, rank: DueCard -> int, h: nat, i: nat)
    requires due != [] && PassedOver(scan, due, exist, rank) && PickDue(due, rank).key in exist
    requires h < |scan| && scan[h] == due[0] && forall k :: 0 <= k < h ==> scan[k] !in due
    requires i < |scan| && Leads(scan, exist, rank, i)
    ensures IsKana(due[0])
  {
  }

  lemma ServedLeads(scan: seq<DueCard>, due: seq<DueCard>, exist: set<CardKey>, rank: DueCard -> int)
    requires due != [] && PassedOver(scan, due, exist, rank) && PickDue(due, rank).key in exist
    requires forall i, j :: 0 <= i < j < |scan| && scan[j] == due[0] ==> scan[i] !in due
    ensures IsKana(PickDue(due, rank)) <==> KanaLeads(scan, exist, rank)
  {
    var h :| 0 <= h < |scan| && scan[h] == due[0];
    if IsKana(due[0]) {
      assert Leads(scan, exist, rank, h);
    }
    if i :| 0 <= i < |scan| && Leads(scan, exist, rank, i) {
      LeadsPicksKana(scan, due, exist, rank, h, i);
    }
  }

  /** What is picked of the cards left, when it is no orphan, is what the view promises. */
  lemma {:induction false} PickIsServed(scan: seq<DueCard>, due: seq<DueCard>, exist: set<CardKey>,
                                        rank: DueCard -> int)
    requires NoRepeats(scan) && InOrder(scan, due)
    requires due != [] && PassedOver(scan, due, exist, rank) && PickDue(due, rank).key in exist
    ensures var card := PickDue(due, rank);
            && card in scan && (card.key.Type() == Kana <==> KanaLeads(scan, exist, rank))
            && (card.key.Type() != Kana ==>
                  forall i, j :: 0 <= i < j < |scan| && scan[j] == card ==> scan[i].key !in exist)
            && (card.key.Type() == Kana ==>
                  forall c :: c in scan && c.key.Type() == Kana && c.key in exist ==> rank(card) <= rank(c))
  {
    FirstOfRest(scan, due);
    ServedLeads(scan, due, exist, rank);
  }

  /** An orphaned kana card can let a later kana card through before the earliest usable card, which is not kana. */
  lemma OrphanLeads(scan: seq<DueCard>, exist: set<CardKey>, rank: DueCard -> int)
    requires |scan| == 3 && NoRepeats(scan) && IsKana(scan[0]) && !IsKana(scan[1]) && IsKana(scan[2])
    requires scan[0].key !in exist && scan[1].key in exist && scan[2].key in exist
    ensures KanaLeads(scan, exist, rank) <==> rank(scan[2]) < rank(scan[0])
  {
    assert Leads(scan, exist, rank, 0) <==> rank(scan[2]) < rank(scan[0]);
  }

  /** Where the earliest usable card has no orphaned kana card before it, it decides between kana and not. */
  lemma EarliestDecides(scan: seq<DueCard>, exist: set<CardKey>, rank: DueCard -> int, e: nat)
    requires e < |scan| && scan[e].key in exist
    requires forall k :: 0 <= k < e ==> scan[k].key !in exist && !IsKana(scan[k])
    ensures KanaLeads(scan, exist, rank) <==> IsKana(scan[e])
  {
    assert IsKana(scan[e]) ==> Leads(scan, exist, rank, e);
  }

  ghost predicate NoRepeats(s: seq<DueCard>) {
    forall i, j :: 0 <= i < j < |s| ==> s[i] != s[j]
  }

  /** `due` lists some of `scan`, in the same order. */
  ghost predicate InOrder(scan: seq<DueCard>, due: seq<DueCard>) {
    forall i, j, a, b :: 0 <= i < j < |due| && 0 <= a < |scan| && 0 <= b < |scan| ==>
      scan[a] == due[i] && scan[b] == due[j] ==> a < b
  }

  lemma FirstOfRest(scan: seq<DueCard>, due: seq<DueCard>)
    requires NoRepeats(scan) && due != [] && InOrder(scan, due) && forall c :: c in due ==> c in scan
    ensures forall i, j :: 0 <= i < j < |scan| && scan[j] == due[0] ==> scan[i] !in due
  {
  }

  lemma {:induction false} OrderWithout(scan: seq<DueCard>, due: seq<DueCard>, x: DueCard)
    requires InOrder(scan, due)
    ensures InOrder(scan, Without(due, x))
  {
    var rest := Without(due, x);
    forall i, j, a, b | 0 <= i < j < |rest| && 0 <= a < |scan| && 0 <= b < |scan|
        && scan[a] == rest[i] && scan[b] == rest[j]
      ensures a < b
    {
      var p, q := WithoutSource(due, x, i, j);
      assert due[p] == rest[i] && due[q] == rest[j];
    }
  }

  lemma {:induction false} WithoutSource<T>(s: seq<T>, x: T, i: nat, j: nat) returns (p: nat, q: nat)
    requires i < j < |Without(s, x)|
    ensures p < q < |s| && s[p] == Without(s, x)[i] && s[q] == Without(s, x)[j]
  {
    if s[0] == x {
      assert Without(s, x) == Without(s[1..], x);
      p, q := WithoutSource(s[1..], x, i, j);
      p, q := p + 1, q + 1;
    } else if i > 0 {
      p, q := WithoutSource(s[1..], x, i - 1, j - 1);
      p, q := p + 1, q + 1;
    } else {
      p := 0;
      q := WithoutAt(s[1..], x, j - 1);
      q := q + 1;
    }
  }

  lemma {:induction false} WithoutAt<T>(s: seq<T>, x: T, j: nat) returns (q: nat)
    requires j < |Without(s, x)|
    ensures q < |s| && s[q] == Without(s, x)[j]
  {
    if s[0] == x {
      assert Without(s, x) == Without(s[1..], x);
      q := WithoutAt(s[1..], x, j);
      q := q + 1;
    } else if j > 0 {
      q := WithoutAt(s[1..], x, j - 1);
      q := q + 1;
    } else {
      q := 0;
    }
  }
}
