/**
 * Studying one card after the other: every card that is served is answered before anything else
 * happens, with fixed settings and content, under the strict or the pinned order.
 */
module StudyRuns {
  import opened ReviewTypes
  import opened ReviewTables
  import opened NewCardPolicies
  import opened DailyPlan
  import AnswerRuns
  import StableSort
  import StudyDay

  type Window = (Time, Time)

  /** What the study-day windows are known to do: see `StudyWindowsTile`. */
  ghost predicate Tiling(day: Time -> Window) {
    && (forall t :: day(t).0 <= t < day(t).1)
    && (forall t, u :: day(t).0 <= u < day(t).1 ==> day(u) == day(t))
  }

  function WindowsIn(z: StudyDay.Zone, rollover: StudyDay.TimeOfDay): Time -> Window {
    u => StudyDay.StudyWindow(z, rollover, u)
  }

  lemma StudyWindowsTile(z: StudyDay.Zone, rollover: StudyDay.TimeOfDay)
    requires StudyDay.ValidZone(z) && StudyDay.RolloverClear(z, rollover)
    ensures Tiling(WindowsIn(z, rollover))
  {
    var day := WindowsIn(z, rollover);
    forall t ensures day(t).0 <= t < day(t).1 {
      StudyDay.InOwnWindow(z, rollover, t);
    }
    forall t, u | day(t).0 <= u < day(t).1 ensures day(u) == day(t) {
      StudyDay.SameWindow(z, rollover, t, u);
    }
  }

  /** One card served and answered; `available` are the types neither switched off nor gated then. */
  datatype Turn = Turn(available: set<ItemType>, served: Time, answered: Time, key: CardKey, grade: Grade,
                       after: CardSchedule)

  function IntroducedOn(t: Tables, w: Window, itemType: ItemType): nat {
    Introduced(t.log, itemType, w.0, w.1)
  }

  function OfferedOn(cfg: Config, available: set<ItemType>, t: Tables, w: Window, itemType: ItemType): seq<CardKey> {
    NewKeys(cfg, available, t.cards.Keys, IntroducedOn(t, w, itemType), itemType)
  }

  function ShareOn(cfg: Config, t: Tables, w: Window, itemType: ItemType): real {
    Share(cfg.limits.For(itemType), IntroducedOn(t, w, itemType))
  }

  /** `key` is what `pick_new` chooses: an offered card of a type with the largest share. */
  ghost predicate Picked(cfg: Config, available: set<ItemType>, t: Tables, w: Window, key: CardKey) {
    && key in OfferedOn(cfg, available, t, w, key.Type())
    && forall ty :: OfferedOn(cfg, available, t, w, ty) != [] ==>
         ShareOn(cfg, t, w, ty) <= ShareOn(cfg, t, w, key.Type())
  }

  /** A type that the count of introduced cards leaves out counts as none. */
  lemma CountsAreIntroduced(totals: map<ItemType, nat>, t: Tables, w: Window, ty: ItemType)
    requires ty in totals <==> IntroducedOn(t, w, ty) > 0
    requires ty in totals ==> totals[ty] == IntroducedOn(t, w, ty)
    ensures CountOf(totals, ty) == IntroducedOn(t, w, ty)
  {
  }

  /** What `pick_new` returns for the plan of the moment is a card these runs may serve. */
  lemma {:induction false} PickServes(cfg: Config, available: set<ItemType>, t: Tables, w: Window,
                                      newKeys: map<ItemType, seq<CardKey>>,
                   introduced: map<ItemType, nat>, best: ItemType, rank: CardKey -> int)
    requires forall ty :: CountOf(introduced, ty) == IntroducedOn(t, w, ty)
    requires forall ty :: ty in newKeys && newKeys[ty] == OfferedOn(cfg, available, t, w, ty)
    requires BestType(newKeys, cfg.limits, introduced, best)
    ensures Picked(cfg, available, t, w, FirstNew(best, newKeys[best], rank))
    ensures FirstNew(best, newKeys[best], rank) !in t.cards
  {
    var key := FirstNew(best, newKeys[best], rank);
    assert key in newKeys[best];
    OfferedIsNew(cfg, available, t.cards.Keys, IntroducedOn(t, w, best), best, key);
  }

  lemma TypeOfDirection(ty: ItemType, d: Direction)
    requires d in DirectionsOf(ty)
    ensures d.Type() == ty
  {
  }

  lemma {:induction false} OfferedIsNew(cfg: Config, available: set<ItemType>, seen: set<CardKey>, introduced: nat,
                                        ty: ItemType, key: CardKey)
    requires key in NewKeys(cfg, available, seen, introduced, ty)
    ensures key.Type() == ty && key !in seen
  {
    OfferHas(StableSort.Sort(InStudyOrder, cfg.content.For(ty)), DirectionsOf(ty), seen, cfg.levels, key);
    assert NewKeys(cfg, available, seen, introduced, ty) <= Candidates(DirectionsOf(ty), cfg.content.For(ty), seen,
        cfg.levels);
    TypeOfDirection(ty, key.direction);
  }

  /** What the turns make of the tables they start from. */
  function After(start: Tables, turns: seq<Turn>): Tables {
    if turns == [] then start
    else
      var t, turn := After(start, turns[..|turns| - 1]), turns[|turns| - 1];
      var before := AnswerRuns.Before(t, turn.key, turn.answered);
      AnswerRuns.AnswerAlone(t, turn.key, turn.grade, before.lastReview, turn.answered, turn.after)
  }

  /** The turns are as the orders serve them, one after the other, from any tables of reviewed cards. */
  ghost predicate Studied(cfg: Config, day: Time -> Window, start: Tables, turns: seq<Turn>) {
    if turns == [] then RowsReviewed(start)
    else
      var earlier, turn := turns[..|turns| - 1], turns[|turns| - 1];
      && Studied(cfg, day, start, earlier)
      && (if earlier == [] then LoggedBy(start, turn.served) else earlier[|earlier| - 1].answered <= turn.served)
      && turn.served <= turn.answered && ScheduledAt(turn.after, turn.answered)
      && (turn.key in After(start, earlier).cards ||
           Picked(cfg, turn.available, After(start, earlier), day(turn.served), turn.key))
  }

  ghost predicate LoggedBy(t: Tables, now: Time) {
    forall i :: 0 <= i < |t.log| ==> t.log[i].reviewedAt <= now
  }

  ghost predicate RowsReviewed(t: Tables) {
    forall key :: key in t.cards ==> t.cards[key].schedule.state != New && t.cards[key].schedule.lastReview.Some?
  }

  lemma {:induction false} StudiedInv(cfg: Config, day: Time -> Window, start: Tables, turns: seq<Turn>)
    requires Studied(cfg, day, start, turns)
    ensures RowsReviewed(After(start, turns)) &&
            (turns != [] ==> LoggedBy(After(start, turns), turns[|turns| - 1].answered))
  {
    if turns != [] {
      StudiedInv(cfg, day, start, turns[..|turns| - 1]);
    }
  }

  lemma {:induction false} TurnRecords(cfg: Config, day: Time -> Window, start: Tables, turns: seq<Turn>)
    requires turns != [] && Studied(cfg, day, start, turns)
    ensures var t, t', turn := After(start, turns[..|turns| - 1]), After(start, turns), turns[|turns| - 1];
            && t'.cards.Keys == t.cards.Keys + {turn.key}
            && |t'.log| == |t.log| + 1 && t'.log[..|t.log|] == t.log
            && t'.log[|t.log|].key == turn.key && t'.log[|t.log|].reviewedAt == turn.answered
            && (t'.log[|t.log|].stateBefore == New <==> turn.key !in t.cards)
  {
    StudiedInv(cfg, day, start, turns[..|turns| - 1]);
  }

  /** What one turn does to the counts: a first review counts once, any other review not at all. */
  lemma {:induction false} TurnCounts(cfg: Config, day: Time -> Window, start: Tables, turns: seq<Turn>, w: Window,
                                      itemType: ItemType)
    requires turns != [] && Studied(cfg, day, start, turns)
    ensures var t, turn := After(start, turns[..|turns| - 1]), turns[|turns| - 1];
            && After(start, turns).cards.Keys == t.cards.Keys + {turn.key}
            && IntroducedOn(After(start, turns), w, itemType) == IntroducedOn(t, w, itemType)
               + if turn.key !in t.cards && turn.key.Type() == itemType && w.0 <= turn.answered < w.1 then 1 else 0
  {
    TurnRecords(cfg, day, start, turns);
  }

  lemma {:induction false} NothingYet(log: seq<LogEntry>, itemType: ItemType, w: Window)
    requires forall i :: 0 <= i < |log| ==> log[i].reviewedAt < w.0
    ensures Introduced(log, itemType, w.0, w.1) == 0
  {
    if log != [] {
      NothingYet(log[..|log| - 1], itemType, w);
    }
  }

  /** A card served on one day and answered on the next is the first one of the new day. */
  lemma {:induction false} AnsweredNextDay(cfg: Config, day: Time -> Window, start: Tables, turns: seq<Turn>,
                                           itemType: ItemType)
    requires turns != [] && Studied(cfg, day, start, turns) && Tiling(day)
    requires var turn := turns[|turns| - 1]; day(turn.served) != day(turn.answered)
    ensures IntroducedOn(After(start, turns[..|turns| - 1]), day(turns[|turns| - 1].answered), itemType) == 0
  {
    var earlier, turn := turns[..|turns| - 1], turns[|turns| - 1];
    StudiedInv(cfg, day, start, earlier);
    var w := day(turn.answered);
    assert turn.served < w.0;
    NothingYet(After(start, earlier).log, itemType, w);
  }

  /**
   * No more new cards of a type are introduced on a study day than its positive limit allows: where more were
   * introduced before, no further one is.
   */
  lemma {:induction false} DailyLimitHolds(cfg: Config, day: Time -> Window, start: Tables, turns: seq<Turn>,
                                           itemType: ItemType, u: Time)
    requires Studied(cfg, day, start, turns) && Tiling(day) && cfg.limits.For(itemType) > 0
    ensures IntroducedOn(After(start, turns), day(u), itemType)
         <= StudyDay.Max(cfg.limits.For(itemType), IntroducedOn(start, day(u), itemType))
  {
    if turns != [] {
      var earlier, turn := turns[..|turns| - 1], turns[|turns| - 1];
      DailyLimitHolds(cfg, day, start, earlier, itemType, u);
      TurnCounts(cfg, day, start, turns, day(u), itemType);
      if turn.key !in After(start, earlier).cards && turn.key.Type() == itemType &&
          day(u).0 <= turn.answered < day(u).1 {
        if day(turn.served) != day(turn.answered) {
          AnsweredNextDay(cfg, day, start, turns, itemType);
        }
      }
    }
  }

  /** Introducing an offered card takes exactly that card out of its type's plan. */
  lemma {:induction false} PlanShrinks(cfg: Config, available: set<ItemType>, seen: set<CardKey>, introduced: nat,
                                       key: CardKey)
    requires key in NewKeys(cfg, available, seen, introduced, key.Type()) && WellNumbered(cfg.content.For(key.Type()))
    ensures var (before, after) := (NewKeys(cfg, available, seen, introduced, key.Type()),
                                    NewKeys(cfg, available, seen + {key}, introduced + 1, key.Type()));
            after == Without(before, key) && |after| == |before| - 1
  {
    var ty := key.Type();
    var limit := cfg.limits.For(ty);
    var allowance := if limit == 0 then None else Some(limit - introduced);
    IntroducingRemovesOne(ty, cfg.content.For(ty), seen, cfg.levels, allowance, key);
  }

  /** Answering the picked card takes exactly that card out of its type's plan for the day. */
  lemma {:induction false} AnsweringShrinksPlan(cfg: Config, day: Time -> Window, start: Tables, turns: seq<Turn>)
    requires turns != [] && Studied(cfg, day, start, turns) && Tiling(day)
    requires var turn := turns[|turns| - 1];
             && turn.key !in After(start, turns[..|turns| - 1]).cards && day(turn.served) == day(turn.answered)
             && WellNumbered(cfg.content.For(turn.key.Type()))
    ensures var t, turn := After(start, turns[..|turns| - 1]), turns[|turns| - 1];
            var (before, after) := (OfferedOn(cfg, turn.available, t, day(turn.served), turn.key.Type()),
                                    OfferedOn(cfg, turn.available, After(start, turns), day(turn.served),
                                        turn.key.Type()));
            after == Without(before, turn.key) && |after| == |before| - 1
  {
    var t, turn := After(start, turns[..|turns| - 1]), turns[|turns| - 1];
    var ty, w := turn.key.Type(), day(turn.served);
    TurnCounts(cfg, day, start, turns, w, ty);
    PlanShrinks(cfg, turn.available, t.cards.Keys, IntroducedOn(t, w, ty), turn.key);
  }

  // ---- Fairness ----

  /** The share of one card. */
  function OneCard(limit: nat): real
    requires limit > 0
  {
    1.0 / limit as real
  }

  /** If type `i` was introduced since the start and type `j` is on offer, `j` is at most one card of `i` ahead. */
  ghost predicate NotAhead(cfg: Config, available: set<ItemType>, start: Tables, t: Tables, w: Window, i: ItemType,
                           j: ItemType)
    requires PositiveLimits(cfg)
  {
    IntroducedOn(t, w, i) > IntroducedOn(start, w, i) && OfferedOn(cfg, available, t, w, j) != [] ==>
      ShareOn(cfg, t, w, j) <= ShareOn(cfg, t, w, i) + OneCard(cfg.limits.For(i))
  }

  ghost predicate Fair(cfg: Config, available: set<ItemType>, start: Tables, t: Tables, w: Window)
    requires PositiveLimits(cfg)
  {
    forall i, j :: NotAhead(cfg, available, start, t, w, i, j)
  }

  ghost predicate PositiveLimits(cfg: Config) {
    cfg.limits.kana > 0 && cfg.limits.kanji > 0 && cfg.limits.vocab > 0
  }

  lemma {:induction false} OnOffer(cfg: Config, available: set<ItemType>, seen: set<CardKey>, introduced: nat,
                                   ty: ItemType)
    requires cfg.limits.For(ty) > 0
    ensures NewKeys(cfg, available, seen, introduced, ty) != [] <==>
            && ty in available && introduced < cfg.limits.For(ty)
            && Candidates(DirectionsOf(ty), cfg.content.For(ty), seen, cfg.levels) != []
  {
  }

  lemma {:induction false} CandidatesShrink(ds: seq<Direction>, catalog: seq<CatalogEntry>, seen: set<CardKey>,
                                            more: set<CardKey>, levels: set<Level>)
    requires seen <= more && Candidates(ds, catalog, more, levels) != []
    ensures Candidates(ds, catalog, seen, levels) != []
  {
    var entries, key := StableSort.Sort(InStudyOrder, catalog), Candidates(ds, catalog, more, levels)[0];
    OfferHas(entries, ds, more, levels, key);
    OfferHas(entries, ds, seen, levels, key);
  }

  lemma {:induction false} OffersShrink(cfg: Config, available: set<ItemType>, t: Tables, t': Tables, w: Window,
                                        ty: ItemType)
    requires cfg.limits.For(ty) > 0 && t.cards.Keys <= t'.cards.Keys &&
             IntroducedOn(t, w, ty) <= IntroducedOn(t', w, ty)
    requires OfferedOn(cfg, available, t', w, ty) != []
    ensures OfferedOn(cfg, available, t, w, ty) != [] && ShareOn(cfg, t', w, ty) <= ShareOn(cfg, t, w, ty) <= 1.0
  {
    ShareFalls(cfg.limits.For(ty), IntroducedOn(t, w, ty), IntroducedOn(t', w, ty));
    OnOffer(cfg, available, t'.cards.Keys, IntroducedOn(t', w, ty), ty);
    CandidatesShrink(DirectionsOf(ty), cfg.content.For(ty), t.cards.Keys, t'.cards.Keys, cfg.levels);
    OnOffer(cfg, available, t.cards.Keys, IntroducedOn(t, w, ty), ty);
  }

  /** The type introduced by a turn was the one with the largest share, or the first of its day. */
  lemma {:induction false} IntroducedWasAhead(cfg: Config, day: Time -> Window, start: Tables, turns: seq<Turn>,
                                              w: Window, i: ItemType, j: ItemType)
    requires turns != [] && Studied(cfg, day, start, turns) && Tiling(day) && PositiveLimits(cfg) &&
             w == day(turns[|turns| - 1].answered)
    requires var t, turn := After(start, turns[..|turns| - 1]), turns[|turns| - 1];
             turn.key !in t.cards && turn.key.Type() == i && OfferedOn(cfg, turn.available, t, w, j) != []
    ensures var t := After(start, turns[..|turns| - 1]);
            ShareOn(cfg, t, w, j) <= ShareOn(cfg, t, w, i) || IntroducedOn(t, w, i) == 0
  {
    if day(turns[|turns| - 1].served) != w {
      AnsweredNextDay(cfg, day, start, turns, i);
    }
  }

  /** A share not ahead stays so when it falls and the other is kept, or loses one card after being the largest. */
  lemma StepIsFair(limit: nat, introduced: nat, introduced': nat, before: real, after: real)
    requires limit > 0 && after <= before <= 1.0
    requires if introduced' == introduced then before <= Share(limit, introduced) + OneCard(limit)
             else introduced' == introduced + 1 && (before <= Share(limit, introduced) || introduced == 0)
    ensures after <= Share(limit, introduced') + OneCard(limit)
  {
    if introduced' != introduced {
      ShareOfOneMore(limit, introduced);
      FullShare(limit);
    }
  }

  lemma {:induction false} MoreKeepsFair(cfg: Config, available: set<ItemType>, start: Tables, t: Tables, t': Tables,
                                         w: Window, i: ItemType, j: ItemType)
    requires PositiveLimits(cfg) && NotAhead(cfg, available, start, t, w, i, j) && t.cards.Keys <= t'.cards.Keys
    requires IntroducedOn(t, w, j) <= IntroducedOn(t', w, j)
    requires || IntroducedOn(t', w, i) == IntroducedOn(t, w, i)
             || (IntroducedOn(t', w, i) == IntroducedOn(t, w, i) + 1
                 && (OfferedOn(cfg, available, t, w, j) != [] ==>
                       ShareOn(cfg, t, w, j) <= ShareOn(cfg, t, w, i) || IntroducedOn(t, w, i) == 0))
    ensures NotAhead(cfg, available, start, t', w, i, j)
  {
    if OfferedOn(cfg, available, t', w, j) != [] {
      OffersShrink(cfg, available, t, t', w, j);
      if IntroducedOn(t', w, i) > IntroducedOn(start, w, i) {
        StepIsFair(cfg.limits.For(i), IntroducedOn(t, w, i), IntroducedOn(t', w, i), ShareOn(cfg, t, w, j),
            ShareOn(cfg, t', w, j));
      }
    }
  }

  lemma {:induction false} TurnKeepsFair(cfg: Config, day: Time -> Window, start: Tables, turns: seq<Turn>, u: Time,
                                         i: ItemType, j: ItemType)
    requires turns != [] && Studied(cfg, day, start, turns) && Tiling(day) && PositiveLimits(cfg)
    requires NotAhead(cfg, turns[|turns| - 1].available, start, After(start, turns[..|turns| - 1]), day(u), i, j)
    ensures NotAhead(cfg, turns[|turns| - 1].available, start, After(start, turns), day(u), i, j)
  {
    var t, t', turn, w := After(start, turns[..|turns| - 1]), After(start, turns), turns[|turns| - 1], day(u);
    TurnCounts(cfg, day, start, turns, w, i);
    TurnCounts(cfg, day, start, turns, w, j);
    if IntroducedOn(t', w, i) > IntroducedOn(t, w, i) && OfferedOn(cfg, turn.available, t, w, j) != [] {
      IntroducedWasAhead(cfg, day, start, turns, w, i, j);
    }
    MoreKeepsFair(cfg, turn.available, start, t, t', w, i, j);
  }

  lemma FullShare(limit: nat)
    requires limit > 0
    ensures Share(limit, 0) == 1.0
  {
    var x := limit as real;
    assert x / x == 1.0;
    assert (limit - 0) as real == x;
  }

  /**
   * Proportional fairness, whatever was introduced before: once the turns introduced a type on a day, no type
   * still on offer is more than one card of that type's allowance ahead of it.
   */
  lemma {:induction false} PicksAreFair(cfg: Config, day: Time -> Window, start: Tables, turns: seq<Turn>,
                                        available: set<ItemType>, u: Time)
    requires Studied(cfg, day, start, turns) && Tiling(day) && PositiveLimits(cfg)
    requires forall i :: 0 <= i < |turns| ==> turns[i].available == available
    ensures Fair(cfg, available, start, After(start, turns), day(u))
  {
    if turns != [] {
      PicksAreFair(cfg, day, start, turns[..|turns| - 1], available, u);
      forall i, j ensures NotAhead(cfg, available, start, After(start, turns), day(u), i, j) {
        TurnKeepsFair(cfg, day, start, turns, u, i, j);
      }
    }
  }
}
