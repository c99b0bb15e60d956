/**
 * The simplified SM-2 update: a binary correct/incorrect outcome moves a
 * card's review interval and ease factor.  Days are whole numbers and
 * `now` is passed in.
 */
module SpacedRepetition {
  import opened Text
  import opened Models

  const MinEase: real := 1.3

  function Max(a: real, b: real): real {
    if a >= b then a else b
  }

  /** Python's int() on a float: truncation toward zero. */
  function TruncToInt(x: real): (n: int)
    ensures x >= 0.0 ==> n as real <= x < n as real + 1.0
    ensures x < 0.0 ==> n as real - 1.0 < x <= n as real
  {
    if x >= 0.0 then x.Floor else -((-x).Floor)
  }

  datatype Review = Review(dueDate: int, intervalDays: int, easeFactor: real)

  /** timedelta holds at most 999 999 999 days either way. */
  const MaxTimedeltaDays: int := 999999999

  /**
   * Days are numbered from 1 January of year 1 (day 0); 31 December 9999,
   * the last day a datetime can hold, is day 3 652 058.
   */
  const LastDay: int := 3652058

  /** `datetime.now() + timedelta(days=interval)` is representable: neither step raises OverflowError. */
  predicate DueDateFits(now: int, interval: int) {
    -MaxTimedeltaDays <= interval <= MaxTimedeltaDays && 0 <= now + interval <= LastDay
  }

  /** What the `except` branch returns: due tomorrow, interval 1, ease 2.5. */
  function Fallback(now: int): Review {
    Review(now + 1, 1, 2.5)
  }

  /**
   * The next due date, interval and ease after one answer.  The card is
   * only read: its repetition count and its own fields are not changed.
   * When the due date cannot be represented the fallback review is
   * returned instead.  `now` is a day a datetime can hold, before the last.
   */
  function CalculateNextReview(card: Flashcard, isCorrect: bool, now: int): (r: Review)
    requires 0 <= now < LastDay
    ensures r.dueDate == now + r.intervalDays && 0 <= r.dueDate <= LastDay
    ensures r.easeFactor >= MinEase
    ensures !isCorrect ==> r == Review(now + 1, 1, Max(MinEase, card.easeFactor - 0.2))
    ensures isCorrect && card.repetitionCount == 0 ==> r == Review(now + 1, 1, Max(MinEase, card.easeFactor + 0.1))
    ensures isCorrect && card.repetitionCount == 1 ==>
      r == if now + 6 <= LastDay then Review(now + 6, 6, Max(MinEase, card.easeFactor + 0.1)) else Fallback(now)
    ensures isCorrect && card.repetitionCount != 0 && card.repetitionCount != 1 ==>
      var grown := TruncToInt(card.intervalDays as real * card.easeFactor);
      r == if DueDateFits(now, grown) then Review(now + grown, grown, Max(MinEase, card.easeFactor + 0.1)) else Fallback(now)
  {
    var interval :=
      if !isCorrect then 1
      else if card.repetitionCount == 0 then 1
      else if card.repetitionCount == 1 then 6
      else TruncToInt(card.intervalDays as real * card.easeFactor);
    var ease :=
      if isCorrect then Max(MinEase, card.easeFactor + 0.1)
      else Max(MinEase, card.easeFactor - 0.2);
    if DueDateFits(now, interval) then Review(now + interval, interval, ease) else Fallback(now)
  }

  /**
   * With ease at least 1 and a non-negative interval, a correct answer
   * never shortens the interval, unless the grown interval overflows the
   * calendar and the fallback is returned.
   */
  lemma CorrectNeverShrinks(card: Flashcard, now: int)
    requires 0 <= now < LastDay
    requires card.repetitionCount >= 2 && card.intervalDays >= 0 && card.easeFactor >= 1.0
    ensures var r := CalculateNextReview(card, true, now);
      r.intervalDays >= card.intervalDays || r == Fallback(now)
  {
    var i := card.intervalDays as real;
    var x := i * card.easeFactor;
    assert x - i == i * (card.easeFactor - 1.0);
    assert x >= i;
    var n := TruncToInt(x);
    assert x < n as real + 1.0;
    assert card.intervalDays < n + 1;
  }

  /** A card reviewed every 10^9 days at ease 2.5 would next be due beyond year 9999: the fallback is returned. */
  lemma OverflowFallsBack(card: Flashcard, now: int)
    requires 0 <= now < LastDay
    requires card.repetitionCount == 2 && card.intervalDays == 1000000000 && card.easeFactor == 2.5
    ensures CalculateNextReview(card, true, now) == Review(now + 1, 1, 2.5)
  {
  }

  /**
   * A correct answer raises the ease unless the fallback is returned; an
   * incorrect one never raises it above its floor.
   */
  lemma EaseDirection(card: Flashcard, now: int)
    requires 0 <= now < LastDay
    ensures var r := CalculateNextReview(card, true, now);
      r.easeFactor > card.easeFactor || r == Fallback(now)
    ensures card.easeFactor >= MinEase ==> CalculateNextReview(card, false, now).easeFactor <= card.easeFactor
    ensures var r := CalculateNextReview(card, true, now);
      CalculateNextReview(card, false, now).easeFactor <= r.easeFactor || r == Fallback(now)
  {
  }

  /** A new card answered correctly: due tomorrow, ease 2.6; answered wrongly: due tomorrow, ease 2.3. */
  lemma NewCardFirstReview(content: Content, now: int)
    requires 0 <= now < LastDay
    ensures var c := NewFlashcard(content, None, [], map[], now);
      && CalculateNextReview(c, true, now) == Review(now + 1, 1, 2.6)
      && CalculateNextReview(c, false, now) == Review(now + 1, 1, 2.3)
  {
  }

  /** The ease adjustment for a performance score in [0, 1]. */
  function GetDifficultyAdjustment(performanceScore: real): (r: real)
    ensures -0.3 <= r <= 0.3
    ensures r != -0.8
  {
    if performanceScore >= 0.9 then 0.3
    else if performanceScore >= 0.8 then 0.15
    else if performanceScore >= 0.7 then 0.0
    else if performanceScore >= 0.6 then -0.15
    else -0.3
  }

  /** A better score never gets a smaller adjustment. */
  lemma AdjustmentMonotone(a: real, b: real)
    requires a <= b
    ensures GetDifficultyAdjustment(a) <= GetDifficultyAdjustment(b)
  {
  }
}
