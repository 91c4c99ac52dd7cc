/** The domain values of the review engine (src/bunsho/models/review.py). */
module ReviewTypes {
  datatype Option<+T> = None | Some(value: T)

  /** An instant, in microseconds; comparisons of stored strings agree with it (module Timestamps). */
  type Time = int

  datatype ItemType = Kana | Kanji | Vocab

  datatype Direction =
    | GlyphToSound | SoundToGlyph
    | KanjiToMeaning | KanjiToReading | MeaningToKanji
    | Recognition | Recall
  {
    function Type(): ItemType {
      match this
      case GlyphToSound | SoundToGlyph => Kana
      case KanjiToMeaning | KanjiToReading | MeaningToKanji => Kanji
      case Recognition | Recall => Vocab
    }
  }

  /** The directions of an item type, in the order new cards are offered. */
  function DirectionsOf(itemType: ItemType): seq<Direction> {
    match itemType
    case Kana => [GlyphToSound, SoundToGlyph]
    case Kanji => [KanjiToMeaning, KanjiToReading, MeaningToKanji]
    case Vocab => [Recognition, Recall]
  }

  datatype Grade = Again | Hard | Good | Easy

  datatype SchedState = New | Learning | Review | Relearning

  datatype CardKey = CardKey(itemId: string, direction: Direction) {
    function Type(): ItemType { direction.Type() }
  }

  datatype CardSchedule = CardSchedule(
    state: SchedState,
    step: Option<int>,
    stability: Option<real>,
    difficulty: Option<real>,
    due: Time,
    lastReview: Option<Time>)

  /** What `Scheduler.initial` returns: a card that was never reviewed, due at once. */
  function Initial(now: Time): CardSchedule {
    CardSchedule(New, None, None, None, now, None)
  }

  /** All that is assumed of `Scheduler.schedule`: the review time is recorded and the card is no longer new. */
  predicate ScheduledAt(after: CardSchedule, now: Time) {
    after.state != New && after.lastReview == Some(now)
  }
}
