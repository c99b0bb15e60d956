/**
 * Review scheduling: a priority score per card, a stable sort by that
 * score (highest first) truncated to the session size, and summary
 * statistics for a set of cards.  `now` is a whole day number.
 */
module ReviewScheduler {
  import opened Models
  import Text
  import opened IntSort

  // ---------------------------------------------------------------------
  // Priority score
  // ---------------------------------------------------------------------

  function DifficultyWeight(d: DifficultyLevel): (w: int)
    ensures 10 <= w <= 100
  {
    match d
    case VeryHard => 100
    case Hard => 75
    case Medium => 50
    case Easy => 25
    case VeryEasy => 10
  }

  predicate IsDue(card: Flashcard, now: int) {
    card.dueDate <= now
  }

  /** The part of the score that does not depend on the due date. */
  function Bonus(card: Flashcard): (b: int)
    ensures 10 <= b <= 205
  {
    DifficultyWeight(card.difficulty)
    + (if card.easeFactor < 2.0 then 50 else 0)
    + (if card.repetitionCount == 0 then 30 else 0)
    + (if card.timesIncorrect > card.timesCorrect then 25 else 0)
  }

  function PriorityScore(card: Flashcard, now: int): (s: int)
    ensures IsDue(card, now) ==> s >= 1010
    ensures !IsDue(card, now) ==> 10 <= s <= 205
  {
    (if IsDue(card, now) then 1000 + (now - card.dueDate) * 10 else 0) + Bonus(card)
  }

  /** Of two otherwise equal due cards, the one overdue longer scores higher. */
  lemma LongerOverdueFirst(card: Flashcard, earlier: int, later: int, now: int)
    requires earlier < later <= now
    ensures PriorityScore(card.(dueDate := earlier), now) > PriorityScore(card.(dueDate := later), now)
  {
  }

  /** A freshly created card is due at once and scores 1000 + 50 (medium) + 30 (new). */
  lemma NewCardScore(content: Content, now: int)
    ensures PriorityScore(NewFlashcard(content, Text.None, [], map[], now), now) == 1080
  {
  }

  // ---------------------------------------------------------------------
  // Stable sort, highest score first
  // ---------------------------------------------------------------------

  function Scores(cards: seq<Flashcard>, now: int): (sc: seq<int>)
    ensures |sc| == |cards|
    ensures forall i :: 0 <= i < |cards| ==> sc[i] == PriorityScore(cards[i], now)
  {
    if cards == [] then [] else [PriorityScore(cards[0], now)] + Scores(cards[1..], now)
  }

  /** The positions of the input cards in priority order. */
  function PriorityOrder(cards: seq<Flashcard>, now: int): (r: seq<nat>)
    ensures |r| == |cards|
    ensures forall x: nat :: x in r <==> x < |cards|
    ensures InRange(Scores(cards, now), r) && Ordered(Scores(cards, now), r)
  {
    StableOrder(Scores(cards, now), |cards|)
  }

  /** The first `targetCount` cards (Python slice semantics) in priority order. */
  function PrioritizeFlashcardsForSession(cards: seq<Flashcard>, targetCount: int, now: int): (r: seq<Flashcard>)
    ensures |r| == Text.SliceEnd(|cards|, targetCount)
    ensures forall k :: 0 <= k < |r| ==> r[k] == cards[PriorityOrder(cards, now)[k]]
  {
    var order := PriorityOrder(cards, now);
    seq(Text.SliceEnd(|cards|, targetCount), k requires 0 <= k < Text.SliceEnd(|cards|, targetCount) => cards[order[k]])
  }

  /** The session is in non-increasing score order, ties kept in input order. */
  lemma PrioritizedIsSortedAndStable(cards: seq<Flashcard>, targetCount: int, now: int)
    ensures var r := PrioritizeFlashcardsForSession(cards, targetCount, now);
      forall i, j :: 0 <= i < j < |r| ==> PriorityScore(r[i], now) >= PriorityScore(r[j], now)
    ensures var order := PriorityOrder(cards, now);
      forall i, j ::
        (0 <= i < j < Text.SliceEnd(|cards|, targetCount) &&
         PriorityScore(cards[order[i]], now) == PriorityScore(cards[order[j]], now))
        ==> order[i] < order[j]
  {
    var r := PrioritizeFlashcardsForSession(cards, targetCount, now);
    var order := PriorityOrder(cards, now);
    var sc := Scores(cards, now);
    forall i, j | 0 <= i < j < |r| ensures PriorityScore(r[i], now) >= PriorityScore(r[j], now) {
      assert Precedes(sc, order[i], order[j]);
    }
  }

  /** Every card left out scores no higher than any card taken, and no input card is taken twice. */
  lemma PrioritizedIsTopSelection(cards: seq<Flashcard>, targetCount: int, now: int, x: nat)
    requires x < |cards|
    ensures var order := PriorityOrder(cards, now);
      var e := Text.SliceEnd(|cards|, targetCount);
      && (forall i, j :: 0 <= i < j < e ==> order[i] != order[j])
      && (x !in order[..e] ==> forall k :: 0 <= k < e ==>
            PriorityScore(cards[order[k]], now) >= PriorityScore(cards[x], now))
  {
    var order := PriorityOrder(cards, now);
    var sc := Scores(cards, now);
    var e := Text.SliceEnd(|cards|, targetCount);
    forall i, j | 0 <= i < j < e ensures order[i] != order[j] {
      assert Precedes(sc, order[i], order[j]);
    }
    if x !in order[..e] {
      assert x in order;
      var p :| 0 <= p < |order| && order[p] == x;
      forall k | 0 <= k < e ensures PriorityScore(cards[order[k]], now) >= PriorityScore(cards[x], now) {
        assert Precedes(sc, order[k], order[p]);
      }
    }
  }

  /** Every due card in the session comes before every card that is not yet due. */
  lemma DueCardsFirst(cards: seq<Flashcard>, targetCount: int, now: int)
    ensures var r := PrioritizeFlashcardsForSession(cards, targetCount, now);
      forall i, j :: 0 <= i < j < |r| && IsDue(r[j], now) ==> IsDue(r[i], now)
  {
    PrioritizedIsSortedAndStable(cards, targetCount, now);
  }

  // ---------------------------------------------------------------------
  // Session statistics
  // ---------------------------------------------------------------------

  datatype Counter = DueNow | Overdue | New | Difficult

  predicate Counts(kind: Counter, card: Flashcard, now: int) {
    match kind
    case DueNow => IsDue(card, now)
    case Overdue => IsDue(card, now) && now - card.dueDate > 0
    case New => card.repetitionCount == 0
    case Difficult => card.easeFactor < 2.0 || card.timesIncorrect > card.timesCorrect
  }

  /** How many cards a counter counts. */
  function CountOf(cards: seq<Flashcard>, kind: Counter, now: int): (n: nat)
    ensures n <= |cards|
  {
    if cards == [] then 0
    else CountOf(cards[..|cards| - 1], kind, now) + (if Counts(kind, cards[|cards| - 1], now) then 1 else 0)
  }

  function EaseSum(cards: seq<Flashcard>): real {
    if cards == [] then 0.0 else EaseSum(cards[..|cards| - 1]) + cards[|cards| - 1].easeFactor
  }

  function LevelCount(cards: seq<Flashcard>, level: DifficultyLevel): (n: nat)
    ensures n <= |cards|
  {
    if cards == [] then 0
    else LevelCount(cards[..|cards| - 1], level) + (if cards[|cards| - 1].difficulty == level then 1 else 0)
  }

  /** `counts[level] = counts.get(level, 0) + 1` */
  function Bump(counts: map<DifficultyLevel, nat>, level: DifficultyLevel): map<DifficultyLevel, nat> {
    counts[level := (if level in counts then counts[level] else 0) + 1]
  }

  /** The difficulty histogram as the loop builds it. */
  function Distribution(cards: seq<Flashcard>): map<DifficultyLevel, nat> {
    if cards == [] then map[]
    else Bump(Distribution(cards[..|cards| - 1]), cards[|cards| - 1].difficulty)
  }

  /** The histogram lists exactly the levels that occur, each with its number of cards. */
  lemma {:induction false} DistributionCounts(cards: seq<Flashcard>)
    ensures forall level :: level in Distribution(cards) <==> LevelCount(cards, level) > 0
    ensures forall level :: level in Distribution(cards) ==> Distribution(cards)[level] == LevelCount(cards, level)
  {
    if cards != [] {
      DistributionCounts(cards[..|cards| - 1]);
    }
  }

  /** Extending the counted prefix by one card adds that card's contribution. */
  lemma StatisticsStep(cards: seq<Flashcard>, i: nat, now: int)
    requires i < |cards|
    ensures CountOf(cards[..i + 1], DueNow, now) ==
      CountOf(cards[..i], DueNow, now) + (if cards[i].dueDate <= now then 1 else 0)
    ensures CountOf(cards[..i + 1], Overdue, now) ==
      CountOf(cards[..i], Overdue, now) + (if cards[i].dueDate <= now && now - cards[i].dueDate > 0 then 1 else 0)
    ensures CountOf(cards[..i + 1], New, now) ==
      CountOf(cards[..i], New, now) + (if cards[i].repetitionCount == 0 then 1 else 0)
    ensures CountOf(cards[..i + 1], Difficult, now) ==
      CountOf(cards[..i], Difficult, now) + (if cards[i].easeFactor < 2.0 || cards[i].timesIncorrect > cards[i].timesCorrect then 1 else 0)
    ensures EaseSum(cards[..i + 1]) == EaseSum(cards[..i]) + cards[i].easeFactor
    ensures Distribution(cards[..i + 1]) == Bump(Distribution(cards[..i]), cards[i].difficulty)
  {
    assert cards[..i + 1][..i] == cards[..i];
  }

  datatype SessionStatistics = SessionStatistics(
    total: nat,
    dueNow: nat,
    overdue: nat,
    newCards: nat,
    difficult: nat,
    averageEase: real,
    difficultyDistribution: map<DifficultyLevel, nat>)

  method GetSessionStatistics(cards: seq<Flashcard>, now: int) returns (stats: SessionStatistics)
    ensures stats.total == |cards|
    ensures stats.dueNow == CountOf(cards, DueNow, now)
    ensures stats.overdue == CountOf(cards, Overdue, now)
    ensures stats.newCards == CountOf(cards, New, now)
    ensures stats.difficult == CountOf(cards, Difficult, now)
    ensures stats.difficultyDistribution == Distribution(cards)
    ensures cards == [] ==> stats.averageEase == 0.0
    ensures cards != [] ==> stats.averageEase == EaseSum(cards) / |cards| as real
  {
    if cards == [] {
      return SessionStatistics(0, 0, 0, 0, 0, 0.0, map[]);
    }
    var dueNow, overdue, newCards, difficult := 0, 0, 0, 0;
    var easeSum := 0.0;
    var counts: map<DifficultyLevel, nat> := map[];
    for i := 0 to |cards|
      invariant dueNow == CountOf(cards[..i], DueNow, now)
      invariant overdue == CountOf(cards[..i], Overdue, now)
      invariant newCards == CountOf(cards[..i], New, now)
      invariant difficult == CountOf(cards[..i], Difficult, now)
      invariant easeSum == EaseSum(cards[..i])
      invariant counts == Distribution(cards[..i])
    {
      var card := cards[i];
      StatisticsStep(cards, i, now);
      if card.dueDate <= now {
        dueNow := dueNow + 1;
        if now - card.dueDate > 0 {
          overdue := overdue + 1;
        }
      }
      if card.repetitionCount == 0 {
        newCards := newCards + 1;
      }
      if card.easeFactor < 2.0 || card.timesIncorrect > card.timesCorrect {
        difficult := difficult + 1;
      }
      easeSum := easeSum + card.easeFactor;
      var level := card.difficulty;
      counts := Bump(counts, level);
    }
    assert cards[..|cards|] == cards;
    stats := SessionStatistics(|cards|, dueNow, overdue, newCards, difficult, easeSum / |cards| as real, counts);
  }

  /** overdue <= due now <= total, and the new and difficult counts are at most the total. */
  lemma {:induction false} StatisticsBounds(cards: seq<Flashcard>, now: int)
    ensures CountOf(cards, Overdue, now) <= CountOf(cards, DueNow, now) <= |cards|
    ensures CountOf(cards, New, now) <= |cards| && CountOf(cards, Difficult, now) <= |cards|
  {
    if cards != [] {
      StatisticsBounds(cards[..|cards| - 1], now);
    }
  }

  /** The difficulty histogram accounts for every card exactly once. */
  lemma {:induction false} DistributionCoversAll(cards: seq<Flashcard>)
    ensures LevelCount(cards, VeryEasy) + LevelCount(cards, Easy) + LevelCount(cards, Medium)
            + LevelCount(cards, Hard) + LevelCount(cards, VeryHard) == |cards|
  {
    if cards != [] {
      DistributionCoversAll(cards[..|cards| - 1]);
    }
  }
}
