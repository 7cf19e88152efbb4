/** The flashcard scheduler: a variant of the SM-2 spaced-repetition
    algorithm (flashcards.py). A student's cards live in one list; a review
    rewrites one card's scheduling fields from a recall quality, and the
    due-card query walks the list in order.

    Times are whole seconds on one clock; `now` is a parameter. A
    `next_review` that is missing or does not parse is `None`. */
module Flashcards {
  import opened Wrappers
  import opened Seqs

  const SecondsPerDay: int := 86400

  /** The ease factor never drops below this floor. */
  const MinEase: real := 1.3

  /** Ease factor of a newly generated card. */
  const InitialEase: real := 2.5

  /** `get_statistics` asks `get_due_cards` for at most this many cards. */
  const StatisticsLimit: int := 1000

  datatype Card = Card(
    id: string,
    front: string,
    back: string,
    topic: string,
    subtopic: string,
    createdAt: int,
    nextReview: Option<int>,
    intervalDays: int,
    easeFactor: real,
    repetitions: int,
    lastReviewed: Option<int>,
    mastered: bool)

  /** The fields a card's generator (an LLM) may supply; each may be missing. */
  datatype CardDraft = CardDraft(
    front: Option<string>,
    back: Option<string>,
    topic: Option<string>,
    subtopic: Option<string>)

  /** Python's `int(x)` on a float: truncation toward zero. */
  function Trunc(x: real): (n: int)
    ensures x >= 0.0 ==> n as real <= x < n as real + 1.0
    ensures x < 0.0 ==> n as real - 1.0 < x <= n as real
  {
    if x >= 0.0 then x.Floor else -((-x).Floor)
  }

  /** The ease factor after a review of recall quality `q`, before the floor. */
  function EaseDelta(q: int): real
  {
    0.1 - (5 - q) as real * (0.08 + (5 - q) as real * 0.02)
  }

  /** `max(1.3, ease + delta)`. */
  function NewEase(ease: real, q: int): (e: real)
    ensures e >= MinEase
    ensures e >= ease + EaseDelta(q)
    ensures e == MinEase || e == ease + EaseDelta(q)
  {
    if ease + EaseDelta(q) >= MinEase then ease + EaseDelta(q) else MinEase
  }

  /** A card a review can produce: the ease factor at or above the floor, a
      positive interval, a non-negative repetition count. */
  predicate Scheduled(c: Card)
  {
    c.easeFactor >= MinEase && c.intervalDays >= 1 && c.repetitions >= 0
  }

  /** One review of card `c` with recall quality `q` at time `now`
      (flashcards.py:127-156). Only the six scheduling fields change. */
  function Review(c: Card, q: int, now: int): (r: Card)
    ensures r.easeFactor == NewEase(c.easeFactor, q) && r.easeFactor >= MinEase
    ensures q < 3 ==> r.repetitions == 0 && r.intervalDays == 1
    ensures q >= 3 ==> r.repetitions == c.repetitions + 1
    ensures q >= 3 && c.repetitions == 0 ==> r.intervalDays == 1
    ensures q >= 3 && c.repetitions == 1 ==> r.intervalDays == 6
    ensures r.mastered <==> r.repetitions >= 5 && r.intervalDays >= 30
    ensures r.lastReviewed == Some(now)
    ensures r.nextReview == Some(now + r.intervalDays * SecondsPerDay)
    ensures r.id == c.id && r.front == c.front && r.back == c.back
    ensures r.topic == c.topic && r.subtopic == c.subtopic && r.createdAt == c.createdAt
  {
    var ease := NewEase(c.easeFactor, q);
    var reps := if q < 3 then 0 else c.repetitions + 1;
    var interval :=
      if q < 3 then 1
      else if c.repetitions == 0 then 1
      else if c.repetitions == 1 then 6
      else Trunc(c.intervalDays as real * ease);
    c.(easeFactor := ease,
       intervalDays := interval,
       repetitions := reps,
       lastReviewed := Some(now),
       nextReview := Some(now + interval * SecondsPerDay),
       mastered := reps >= 5 && interval >= 30)
  }

  /** From the third successful review on, the interval is the old interval
      times the new ease factor, truncated (flashcards.py:145-146). */
  lemma ReviewGrowsInterval(c: Card, q: int, now: int)
    requires q >= 3 && c.repetitions != 0 && c.repetitions != 1
    ensures Review(c, q, now).intervalDays
         == Trunc(c.intervalDays as real * Review(c, q, now).easeFactor)
  {
  }

  /** The six possible ease adjustments: +0.1 for quality 5, none for 4, and
      growing penalties below (flashcards.py:133). */
  lemma EaseDeltaByQuality()
    ensures EaseDelta(5) == 0.1 && EaseDelta(4) == 0.0 && EaseDelta(3) == -0.14
    ensures EaseDelta(2) == -0.32 && EaseDelta(1) == -0.54 && EaseDelta(0) == -0.8
  {
  }

  /** Quality 5 adds 0.1 to the ease factor and quality 4 leaves a floored
      ease factor as it is. */
  lemma {:induction false} EaseTopQualities(c: Card, now: int)
    requires c.easeFactor >= MinEase
    ensures Review(c, 5, now).easeFactor == c.easeFactor + 0.1
    ensures Review(c, 4, now).easeFactor == c.easeFactor
  {
    EaseDeltaByQuality();
  }

  /** Within the documented range 0..5, a better recall never gives a smaller
      ease factor. */
  lemma {:induction false} EaseMonotoneInQuality(ease: real, q1: int, q2: int)
    requires 0 <= q1 <= q2 <= 5
    ensures NewEase(ease, q1) <= NewEase(ease, q2)
  {
    EaseDeltaByQuality();
    assert EaseDelta(q1) <= EaseDelta(q2) by {
      assert q1 in {0, 1, 2, 3, 4, 5} && q2 in {0, 1, 2, 3, 4, 5};
    }
  }

  /** A review keeps a card well scheduled: floor respected, interval at least
      one day, repetition count non-negative. */
  lemma {:induction false} ReviewKeepsScheduled(c: Card, q: int, now: int)
    requires Scheduled(c)
    ensures Scheduled(Review(c, q, now))
  {
    var r := Review(c, q, now);
    if q >= 3 && c.repetitions >= 2 {
      var x := c.intervalDays as real * r.easeFactor;
      assert x >= c.intervalDays as real * MinEase;
      assert x >= 1.0;
    }
  }

  /** From the third successful review on, the interval of a well-scheduled
      card never shrinks, because the ease factor is above 1. */
  lemma {:induction false} SuccessNeverShrinksInterval(c: Card, q: int, now: int)
    requires Scheduled(c) && q >= 3 && c.repetitions >= 2
    ensures Review(c, q, now).intervalDays >= c.intervalDays
  {
    var r := Review(c, q, now);
    var x := c.intervalDays as real * r.easeFactor;
    assert x >= c.intervalDays as real;
  }

  /** A failed recall takes mastery away; a mastered card has just been
      recalled at quality 3 or better. */
  lemma MasteredOnlyAfterSuccess(c: Card, q: int, now: int)
    requires Review(c, q, now).mastered
    ensures q >= 3 && c.repetitions >= 4
  {
  }

  /** The worked scenarios: a new card recalled perfectly twice, then a
      well-advanced card forgotten. */
  lemma {:induction false} ReviewScenarios(c: Card, now: int)
    requires c.easeFactor == 2.5 && c.intervalDays == 1 && c.repetitions == 0
    ensures Review(c, 5, now).repetitions == 1 && Review(c, 5, now).intervalDays == 1
    ensures Review(c, 5, now).easeFactor == 2.6 && !Review(c, 5, now).mastered
    ensures Review(Review(c, 5, now), 5, now).repetitions == 2
    ensures Review(Review(c, 5, now), 5, now).intervalDays == 6
    ensures var d := c.(repetitions := 4, intervalDays := 25);
            Review(d, 2, now).repetitions == 0 && Review(d, 2, now).intervalDays == 1
            && !Review(d, 2, now).mastered
  {
    EaseDeltaByQuality();
  }

  /** Index of the first card with identifier `id` (Python's
      `next((c for c in cards if c.get("id") == id), None)`). */
  function FindCard(cards: seq<Card>, id: string): (r: Option<nat>)
    ensures r.Some? ==> r.value < |cards| && cards[r.value].id == id
    ensures r.Some? ==> forall j :: 0 <= j < r.value ==> cards[j].id != id
    ensures r.None? ==> forall j :: 0 <= j < |cards| ==> cards[j].id != id
    decreases |cards|
  {
    if cards == [] then None
    else if cards[0].id == id then Some(0)
    else match FindCard(cards[1..], id)
      case Some(i) => Some(i + 1)
      case None => None
  }

  /** The time test of `get_due_cards`: no usable `next_review`, or one that has passed. */
  predicate TimeHasCome(c: Card, now: int)
  {
    c.nextReview.None? || c.nextReview.value <= now
  }

  predicate Pending(c: Card)
  {
    !c.mastered
  }

  predicate IsMastered(c: Card)
  {
    c.mastered
  }

  /** The card test of `get_due_cards` (flashcards.py:98-111). */
  function DueAt(now: int): Card -> bool
  {
    (c: Card) => !c.mastered && TimeHasCome(c, now)
  }

  /** Every due card, in list order. */
  function ReviewQueue(cards: seq<Card>, now: int): seq<Card>
  {
    Filter(cards, DueAt(now))
  }

  /** What `get_due_cards(limit)` returns. Mastered cards are skipped before
      the limit is checked, and the check follows the append: with `limit`
      of 1 or more the first `limit` due cards come back; with a smaller
      `limit` the walk stops at the first card that is not mastered, which
      comes back alone if it is due. */
  function DueCards(cards: seq<Card>, limit: int, now: int): seq<Card>
  {
    if limit >= 1 then Take(ReviewQueue(cards, now), limit)
    else
      var pending := Filter(cards, Pending);
      if pending != [] && TimeHasCome(pending[0], now) then [pending[0]] else []
  }

  /** `get_due_cards` never hands back a mastered card, nor a card whose time
      has not come, nor a card that is not in the list; it returns at most
      `limit` cards, and at most one when `limit` is below 1. */
  lemma DueCardsSound(cards: seq<Card>, limit: int, now: int)
    ensures forall c :: c in DueCards(cards, limit, now) ==>
              c in cards && !c.mastered && TimeHasCome(c, now)
    ensures |DueCards(cards, limit, now)| <= if limit >= 1 then limit else 1
  {
    var r := DueCards(cards, limit, now);
    FilterSound(cards, DueAt(now));
    FilterSound(cards, Pending);
    forall c | c in r ensures c in cards && !c.mastered && TimeHasCome(c, now) {
      if limit >= 1 {
        assert c in ReviewQueue(cards, now);
        assert DueAt(now)(c);
      } else {
        assert c in Filter(cards, Pending);
      }
    }
  }

  /** Up to the limit, every due card is returned, in list order: the result
      is a prefix of the review queue. */
  lemma DueCardsIsPrefix(cards: seq<Card>, limit: int, now: int)
    requires limit >= 1
    ensures DueCards(cards, limit, now) <= ReviewQueue(cards, now)
    ensures |ReviewQueue(cards, now)| <= limit ==> DueCards(cards, limit, now) == ReviewQueue(cards, now)
  {
  }

  datatype Statistics = Statistics(
    totalCards: int,
    mastered: int,
    dueForReview: int,
    inProgress: int,
    masteryPercentage: real)

  /** `get_statistics` (flashcards.py:160-172). */
  function GetStatistics(cards: seq<Card>, now: int): Statistics
  {
    var total := |cards|;
    var mastered := |Filter(cards, IsMastered)|;
    var due := |DueCards(cards, StatisticsLimit, now)|;
    Statistics(total, mastered, due, total - mastered - due,
               if total > 0 then mastered as real / total as real * 100.0 else 0.0)
  }

  /** Mastered cards are never due, so the counts never overlap: the
      in-progress count is never negative, and the mastery percentage is a
      percentage. With at most 1000 cards the due count is exact. */
  lemma {:induction false} StatisticsConsistent(cards: seq<Card>, now: int)
    ensures var s := GetStatistics(cards, now);
            s.mastered + s.dueForReview <= s.totalCards && s.inProgress >= 0
            && 0.0 <= s.masteryPercentage <= 100.0
    ensures |cards| <= StatisticsLimit ==>
              GetStatistics(cards, now).dueForReview == |ReviewQueue(cards, now)|
  {
    FilterDisjoint(cards, IsMastered, DueAt(now));
    var total := |cards|;
    var mastered := |Filter(cards, IsMastered)|;
    if total > 0 {
      RatioAtMostOne(mastered as real, total as real);
    }
  }

  /** A share of a positive whole lies between 0 and 1. */
  lemma RatioAtMostOne(part: real, whole: real)
    requires 0.0 <= part <= whole && 0.0 < whole
    ensures 0.0 <= part / whole <= 1.0
  {
    var q := part / whole;
    assert q * whole == part;
    assert (1.0 - q) * whole == whole - part;
  }

  /** A card as `generate_flashcards` builds it from a draft
      (flashcards.py:63-76): missing text becomes "", a missing topic or
      subtopic becomes the requested one. */
  function NewCard(d: CardDraft, id: string, topic: string, subtopic: string, now: int): (c: Card)
    ensures Scheduled(c) && !c.mastered && c.repetitions == 0
    ensures c.intervalDays == 1 && c.easeFactor == InitialEase
  {
    Card(id, d.front.GetOr(""), d.back.GetOr(""), d.topic.GetOr(topic), d.subtopic.GetOr(subtopic),
         now, Some(now), 1, InitialEase, 0, None, false)
  }

  /** A newly generated card is due at once. */
  lemma NewCardIsDue(d: CardDraft, id: string, topic: string, subtopic: string, now: int)
    ensures DueAt(now)(NewCard(d, id, topic, subtopic, now))
  {
  }

  /** Where `get_due_cards` breaks off at card `i`, what it has collected so
      far is the whole answer. */
  lemma DueCardsStopAt(cards: seq<Card>, i: nat, limit: int, now: int)
    requires i < |cards| && !cards[i].mastered
    requires limit >= 1 ==> |Filter(cards[..i + 1], DueAt(now))| == limit
    requires limit < 1 ==> forall j :: 0 <= j < i ==> cards[j].mastered
    ensures Filter(cards[..i + 1], DueAt(now)) == DueCards(cards, limit, now)
  {
    FilterPrefix(cards, i + 1, DueAt(now));
    if limit < 1 {
      assert cards[..i + 1] == cards[..i] + [cards[i]];
      FilterNone(cards[..i], Pending);
      FilterNone(cards[..i], DueAt(now));
      FilterPrefix(cards, i + 1, Pending);
    }
  }

  /** When `get_due_cards` walks to the end of the list, what it has
      collected is the whole answer. */
  lemma DueCardsRunOut(cards: seq<Card>, limit: int, now: int)
    requires limit >= 1 ==> |Filter(cards, DueAt(now))| < limit
    requires limit < 1 ==> forall j :: 0 <= j < |cards| ==> cards[j].mastered
    ensures Filter(cards, DueAt(now)) == DueCards(cards, limit, now)
  {
    if limit < 1 {
      FilterNone(cards, Pending);
      FilterNone(cards, DueAt(now));
    }
  }

  /** One student's flashcards, as `FlashcardSystem` holds them in
      `self.flashcards`. */
  class FlashcardSystem {
    const studentId: string
    var cards: seq<Card>

    /** `__init__`: the stored list, or no cards when nothing is stored. */
    constructor (studentId: string, stored: Option<seq<Card>>)
      ensures this.studentId == studentId
      ensures cards == stored.GetOr([])
    {
      this.studentId := studentId;
      cards := stored.GetOr([]);
    }

    /** `review_card`: the first card with identifier `cardId` is reviewed in
        place; an unknown identifier changes nothing. */
    method ReviewCard(cardId: string, quality: int, now: int)
      modifies this
      ensures match FindCard(old(cards), cardId)
              case None => cards == old(cards)
              case Some(i) => cards == old(cards)[i := Review(old(cards)[i], quality, now)]
    {
      var i := 0;
      while i < |cards| && cards[i].id != cardId
        invariant 0 <= i <= |cards|
        invariant forall j :: 0 <= j < i ==> cards[j].id != cardId
      {
        i := i + 1;
      }
      if i == |cards| {
        return;
      }
      cards := cards[i := Review(cards[i], quality, now)];
    }

    /** `get_due_cards`: walk the cards in order, skip mastered ones, collect
        the due ones, and stop once `limit` is reached. */
    method GetDueCards(limit: int, now: int) returns (due: seq<Card>)
      ensures due == DueCards(cards, limit, now)
    {
      var cs := cards;
      var i := 0;
      due := [];
      while i < |cs|
        invariant 0 <= i <= |cs|
        invariant due == Filter(cs[..i], DueAt(now))
        invariant limit >= 1 ==> |due| < limit
        invariant limit < 1 ==> forall j :: 0 <= j < i ==> cs[j].mastered
      {
        var card := cs[i];
        assert cs[..i + 1][..i] == cs[..i];
        if card.mastered {
          i := i + 1;
          continue;
        }
        if TimeHasCome(card, now) {
          due := due + [card];
        }
        if |due| >= limit {
          DueCardsStopAt(cs, i, limit, now);
          return;
        }
        i := i + 1;
      }
      assert cs[..i] == cs;
      DueCardsRunOut(cs, limit, now);
    }

    /** The card-initialisation loop of `generate_flashcards`: every draft
        becomes a fresh card, appended at the end in draft order. The
        identifier of the k-th new card is `newId(k)`. */
    method AddGenerated(drafts: seq<CardDraft>, newId: nat -> string, topic: string,
                        subtopic: string, now: int) returns (created: seq<Card>)
      modifies this
      ensures |created| == |drafts|
      ensures forall k :: 0 <= k < |drafts| ==>
                created[k] == NewCard(drafts[k], newId(k), topic, subtopic, now)
      ensures cards == old(cards) + created
    {
      created := [];
      var k := 0;
      while k < |drafts|
        invariant 0 <= k <= |drafts|
        invariant |created| == k
        invariant forall j :: 0 <= j < k ==>
                    created[j] == NewCard(drafts[j], newId(j), topic, subtopic, now)
        invariant cards == old(cards) + created
      {
        var card := NewCard(drafts[k], newId(k), topic, subtopic, now);
        created := created + [card];
        cards := cards + [card];
        k := k + 1;
      }
    }
  }
}
