/** The analytics dashboard (analytics.py): daily and weekly activity,
    topic ranking, difficulty metrics, study-time patterns and the
    recommendation rules. A conversation's time stamp is abstracted to a day
    number and an hour of the day; today's date is a parameter. */
module Analytics {
  import opened Wrappers
  import opened Seqs
  import opened Text
  import Dict
  import ProgressTracker
  import Utils

  /** A `timestamp` or `date` field of a stored conversation: missing, the
      empty string, a string `fromisoformat` rejects, or a parsed date. */
  datatype Stamp = Absent | Blank | Unparsed | At(day: int, hour: int)

  datatype Conversation = Conversation(timestamp: Stamp, date: Stamp, topic: Option<string>, question: Option<string>)

  /** `conv.get("timestamp", conv.get("date", ""))`: the date field is read
      only when there is no timestamp field at all. */
  function Stamped(c: Conversation): Stamp
  {
    if c.timestamp.Absent? then c.date else c.timestamp
  }

  /** The day a conversation is counted on, if its stamp parses. */
  function DayOf(c: Conversation): Option<int>
  {
    match Stamped(c)
    case At(day, _) => Some(day)
    case _ => None
  }

  /** The hour a conversation is counted at, if its stamp parses. */
  function HourOf(c: Conversation): Option<int>
  {
    match Stamped(c)
    case At(_, hour) => Some(hour)
    case _ => None
  }

  /** The parsed days of the conversations, in order; the others are skipped. */
  function Days(convs: seq<Conversation>): seq<int>
    decreases |convs|
  {
    if convs == [] then []
    else
      Days(convs[..|convs| - 1])
      + match DayOf(convs[|convs| - 1]) case Some(d) => [d] case None => []
  }

  /** The parsed hours of the conversations, in order; the others are skipped. */
  function Hours(convs: seq<Conversation>): seq<int>
    decreases |convs|
  {
    if convs == [] then []
    else
      Hours(convs[..|convs| - 1])
      + match HourOf(convs[|convs| - 1]) case Some(h) => [h] case None => []
  }

  // ---------------------------------------------------------------------
  // Tallies: `counts[k] = counts.get(k, 0) + 1` over a list of keys

  /** One counting step, `counts[k] = counts.get(k, 0) + 1`. */
  function Counted(counts: Dict.Dict<int, nat>, k: int): Dict.Dict<int, nat>
  {
    Dict.Put(counts, k, Dict.Get(counts, k).GetOr(0) + 1)
  }

  /** The dictionary the counting loops build, keys in first-seen order. */
  function Tally(ks: seq<int>): Dict.Dict<int, nat>
    decreases |ks|
  {
    if ks == [] then [] else Counted(Tally(ks[..|ks| - 1]), ks[|ks| - 1])
  }

  /** A tally holds each key once, exactly the keys that occur, each with
      the number of times it occurs. */
  lemma {:induction false} TallyCounts(ks: seq<int>)
    ensures Dict.Valid(Tally(ks))
    ensures forall k :: Dict.Get(Tally(ks), k).GetOr(0) == multiset(ks)[k]
    ensures forall k :: k in Dict.Keys(Tally(ks)) <==> k in ks
    decreases |ks|
  {
    if ks != [] {
      var prefix := ks[..|ks| - 1];
      var k := ks[|ks| - 1];
      assert ks == prefix + [k];
      TallyCounts(prefix);
      var t := Tally(prefix);
      var v := Dict.Get(t, k).GetOr(0) + 1;
      Dict.PutValid(t, k, v);
      Dict.GetPutSame(t, k, v);
      forall k' | k' != k ensures Dict.Get(Tally(ks), k') == Dict.Get(t, k') {
        Dict.GetPutOther(t, k, v, k');
      }
    }
  }

  /** How many of `ks` lie in `[lo, hi)`. */
  function CountIn(ks: seq<int>, lo: int, hi: int): nat
    decreases |ks|
  {
    if ks == [] then 0
    else CountIn(ks[..|ks| - 1], lo, hi) + if lo <= ks[|ks| - 1] < hi then 1 else 0
  }

  /** Adjacent ranges add up. */
  lemma {:induction false} CountInTile(ks: seq<int>, a: int, b: int, c: int)
    requires a <= b <= c
    ensures CountIn(ks, a, b) + CountIn(ks, b, c) == CountIn(ks, a, c)
    decreases |ks|
  {
    if ks != [] {
      CountInTile(ks[..|ks| - 1], a, b, c);
    }
  }

  lemma {:induction false} CountInLast(ks: seq<int>, lo: int, hi: int)
    requires lo < hi
    ensures CountIn(ks, lo, hi) == CountIn(ks, lo, hi - 1) + multiset(ks)[hi - 1]
    decreases |ks|
  {
    if ks != [] {
      var prefix := ks[..|ks| - 1];
      assert ks == prefix + [ks[|ks| - 1]];
      CountInLast(prefix, lo, hi);
    }
  }

  lemma {:induction false} CountInNone(ks: seq<int>, lo: int, hi: int)
    requires hi <= lo
    ensures CountIn(ks, lo, hi) == 0
    decreases |ks|
  {
    if ks != [] {
      CountInNone(ks[..|ks| - 1], lo, hi);
    }
  }

  /** `sum(d.get(k, 0) for k in d.keys() if lo <= k < hi)`. */
  function SumKeysIn(d: Dict.Dict<int, nat>, lo: int, hi: int): nat
    decreases |d|
  {
    if d == [] then 0
    else SumKeysIn(d[..|d| - 1], lo, hi) + if lo <= d[|d| - 1].0 < hi then d[|d| - 1].1 else 0
  }

  lemma {:induction false} SumKeysInUpdate(d: Dict.Dict<int, nat>, i: nat, v: nat, lo: int, hi: int)
    requires i < |d|
    ensures SumKeysIn(d[i := (d[i].0, v)], lo, hi) + (if lo <= d[i].0 < hi then d[i].1 else 0)
            == SumKeysIn(d, lo, hi) + (if lo <= d[i].0 < hi then v else 0)
    decreases |d|
  {
    var e := d[i := (d[i].0, v)];
    if i < |d| - 1 {
      assert e[..|e| - 1] == d[..|d| - 1][i := (d[i].0, v)];
      SumKeysInUpdate(d[..|d| - 1], i, v, lo, hi);
    } else {
      assert e[..|e| - 1] == d[..|d| - 1];
    }
  }

  /** `d[k] = v` changes the sum over a range by the change of `k`'s value
      when `k` is in the range, and not at all otherwise. */
  lemma SumKeysInPut(d: Dict.Dict<int, nat>, k: int, v: nat, lo: int, hi: int)
    ensures SumKeysIn(Dict.Put(d, k, v), lo, hi) + (if lo <= k < hi then Dict.Get(d, k).GetOr(0) else 0)
            == SumKeysIn(d, lo, hi) + (if lo <= k < hi then v else 0)
  {
    match Dict.IndexOf(d, k)
    case Some(i) =>
      assert Dict.Put(d, k, v) == d[i := (d[i].0, v)];
      assert Dict.Get(d, k) == Some(d[i].1);
      SumKeysInUpdate(d, i, v, lo, hi);
    case None =>
      var r := d + [(k, v)];
      assert Dict.Put(d, k, v) == r && r[..|r| - 1] == d;
      assert Dict.Get(d, k) == None;
  }

  /** Summing a tally over the keys in a range counts the keys in that range. */
  lemma {:induction false} SumKeysInTally(ks: seq<int>, lo: int, hi: int)
    ensures SumKeysIn(Tally(ks), lo, hi) == CountIn(ks, lo, hi)
    decreases |ks|
  {
    if ks != [] {
      var prefix := ks[..|ks| - 1];
      var k := ks[|ks| - 1];
      var t := Tally(prefix);
      var v := Dict.Get(t, k).GetOr(0) + 1;
      var one := if lo <= k < hi then 1 else 0;
      calc {
        SumKeysIn(Tally(ks), lo, hi);
        { assert Tally(ks) == Dict.Put(t, k, v); }
        SumKeysIn(Dict.Put(t, k, v), lo, hi);
        { SumKeysInPut(t, k, v, lo, hi); }
        SumKeysIn(t, lo, hi) + one;
        { SumKeysInTally(prefix, lo, hi); }
        CountIn(prefix, lo, hi) + one;
        CountIn(ks, lo, hi);
      }
    }
  }

  /** `sum(d.get(h, 0) for h in range(lo, hi))`. */
  function PeriodTotal(d: Dict.Dict<int, nat>, lo: int, hi: int): nat
    decreases hi - lo
  {
    if hi <= lo then 0 else PeriodTotal(d, lo, hi - 1) + Dict.Get(d, hi - 1).GetOr(0)
  }

  /** Summing a tally over a range of keys counts the keys in that range. */
  lemma {:induction false} PeriodTotalTally(ks: seq<int>, lo: int, hi: int)
    ensures PeriodTotal(Tally(ks), lo, hi) == CountIn(ks, lo, hi)
    decreases hi - lo
  {
    if hi <= lo {
      CountInNone(ks, lo, hi);
    } else {
      PeriodTotalTally(ks, lo, hi - 1);
      TallyCounts(ks);
      CountInLast(ks, lo, hi);
    }
  }

  // ---------------------------------------------------------------------
  // _get_learning_trends

  datatype DayActivity = DayActivity(date: int, count: nat)

  datatype WeekActivity = WeekActivity(week: string, count: nat)

  /** The trends result; `NoActivity` is the two empty lists returned when
      there are no conversations. */
  datatype Trends = NoActivity | Trends(daily: seq<DayActivity>, weekly: seq<WeekActivity>, trend: string)

  lemma DaysStep(convs: seq<Conversation>, i: nat)
    requires i < |convs|
    ensures Days(convs[..i + 1]) == Days(convs[..i]) + match DayOf(convs[i]) case Some(d) => [d] case None => []
  {
    assert convs[..i + 1][..i] == convs[..i];
  }

  lemma HoursStep(convs: seq<Conversation>, i: nat)
    requires i < |convs|
    ensures Hours(convs[..i + 1]) == Hours(convs[..i]) + match HourOf(convs[i]) case Some(h) => [h] case None => []
  {
    assert convs[..i + 1][..i] == convs[..i];
  }

  lemma TallySnoc(ks: seq<int>, k: int)
    ensures Tally(ks + [k]) == Counted(Tally(ks), k)
  {
    var s := ks + [k];
    assert s[..|s| - 1] == ks && s[|s| - 1] == k;
  }

  /** The counting loop: `counts` is the tally of the parsed days of the
      conversations. */
  method TallyDays(convs: seq<Conversation>) returns (counts: Dict.Dict<int, nat>)
    ensures counts == Tally(Days(convs))
  {
    counts := [];
    var i := 0;
    while i < |convs|
      invariant 0 <= i <= |convs| && counts == Tally(Days(convs[..i]))
    {
      ghost var before := Days(convs[..i]);
      DaysStep(convs, i);
      match DayOf(convs[i]) {
        case Some(d) =>
          counts := Dict.Put(counts, d, Dict.Get(counts, d).GetOr(0) + 1);
          assert counts == Tally(Days(convs[..i + 1])) by {
            assert Days(convs[..i + 1]) == before + [d];
            TallySnoc(before, d);
          }
        case None =>
          assert Days(convs[..i + 1]) == before;
      }
      i := i + 1;
    }
    assert convs[..i] == convs;
  }

  /** `_get_learning_trends` at date `today`: 30 daily counts, oldest first
      and ending today, each the number of conversations dated that day;
      4 weekly counts, oldest first, week "Week n" covering the 7 days from
      `today - 7n` up to but excluding `today - 7(n-1)`; and "increasing"
      exactly when today's count exceeds the count 29 days ago. */
  method LearningTrends(convs: seq<Conversation>, today: int) returns (t: Trends)
    ensures convs == [] <==> t.NoActivity?
    ensures t.Trends? ==> |t.daily| == 30 && |t.weekly| == 4
    ensures t.Trends? ==> forall k :: 0 <= k < 30 ==>
              t.daily[k] == DayActivity(today - 29 + k, multiset(Days(convs))[today - 29 + k])
    ensures t.Trends? ==> forall k :: 0 <= k < 4 ==> t.weekly[k] == WeekEntry(Days(convs), today, 4 - k)
    ensures t.Trends? ==> (t.trend == "increasing" <==> t.daily[29].count > t.daily[0].count)
                          && (t.trend == "increasing" || t.trend == "stable")
  {
    if convs == [] {
      return NoActivity;
    }
    var counts := TallyDays(convs);
    ghost var days := Days(convs);
    TallyCounts(days);
    var daily := DailyActivity(counts, today, days);
    forall lo, hi ensures SumKeysIn(counts, lo, hi) == CountIn(days, lo, hi) {
      SumKeysInTally(days, lo, hi);
    }
    var weekly := WeeklyActivity(counts, today, days);
    var trend := if |daily| > 1 && daily[|daily| - 1].count > daily[0].count then "increasing" else "stable";
    t := Trends(daily, weekly, trend);
  }

  /** The 30-day loop of `_get_learning_trends`, then `reverse()`. */
  method DailyActivity(counts: Dict.Dict<int, nat>, today: int, ghost days: seq<int>) returns (daily: seq<DayActivity>)
    requires forall d :: Dict.Get(counts, d).GetOr(0) == multiset(days)[d]
    ensures |daily| == 30
    ensures forall k :: 0 <= k < 30 ==> daily[k] == DayActivity(today - 29 + k, multiset(days)[today - 29 + k])
  {
    var activity := LastThirtyDays(counts, today);
    daily := Reverse(activity);
    forall k | 0 <= k < 30
      ensures daily[k] == DayActivity(today - 29 + k, multiset(days)[today - 29 + k])
    {
      var date := today - 29 + k;
      assert daily[k] == activity[29 - k];
      assert activity[29 - k] == DayActivity(date, Dict.Get(counts, date).GetOr(0));
    }
  }

  /** The loop over `range(30)`: today first, going back one day at a time. */
  method LastThirtyDays(counts: Dict.Dict<int, nat>, today: int) returns (activity: seq<DayActivity>)
    ensures |activity| == 30
    ensures forall j :: 0 <= j < 30 ==> activity[j] == DayActivity(today - j, Dict.Get(counts, today - j).GetOr(0))
  {
    activity := [];
    var i := 0;
    while i < 30
      invariant 0 <= i <= 30 && |activity| == i
      invariant forall j :: 0 <= j < i ==> activity[j] == DayActivity(today - j, Dict.Get(counts, today - j).GetOr(0))
    {
      var date := today - i;
      activity := activity + [DayActivity(date, Dict.Get(counts, date).GetOr(0))];
      i := i + 1;
    }
  }

  /** "Week n": the number of `days` in the 7 days from `today - 7n` up to
      but excluding `today - 7(n-1)`. */
  function WeekEntry(days: seq<int>, today: int, n: nat): WeekActivity
  {
    Week(n, CountIn(days, today - n * 7, today - (n - 1) * 7))
  }

  /** The entry `{"week": f"Week {n}", "count": count}`. */
  function Week(n: nat, count: nat): WeekActivity
  {
    WeekActivity("Week " + NatToString(n), count)
  }

  /** The 4-week loop of `_get_learning_trends`, then `reverse()`. */
  method WeeklyActivity(counts: Dict.Dict<int, nat>, today: int, ghost days: seq<int>) returns (weekly: seq<WeekActivity>)
    requires forall lo, hi :: SumKeysIn(counts, lo, hi) == CountIn(days, lo, hi)
    ensures |weekly| == 4
    ensures forall k :: 0 <= k < 4 ==> weekly[k] == WeekEntry(days, today, 4 - k)
  {
    var recent := [];
    var i := 0;
    while i < 4
      invariant 0 <= i <= 4 && |recent| == i
      invariant forall j :: 0 <= j < i ==> recent[j] == WeekEntry(days, today, j + 1)
    {
      var weekStart := today - (i + 1) * 7;
      var weekEnd := today - i * 7;
      var count := WeekCount(counts, weekStart, weekEnd);
      recent := recent + [Week(i + 1, count)];
      i := i + 1;
    }
    weekly := Reverse(recent);
    forall k | 0 <= k < 4 ensures weekly[k] == WeekEntry(days, today, 4 - k) {
      assert weekly[k] == recent[3 - k];
    }
  }

  /** The sum over the tally's keys that fall in `[weekStart, weekEnd)`. */
  method WeekCount(counts: Dict.Dict<int, nat>, weekStart: int, weekEnd: int) returns (count: nat)
    ensures count == SumKeysIn(counts, weekStart, weekEnd)
  {
    count := 0;
    var j := 0;
    while j < |counts|
      invariant 0 <= j <= |counts| && count == SumKeysIn(counts[..j], weekStart, weekEnd)
    {
      assert counts[..j + 1][..j] == counts[..j];
      if weekStart <= counts[j].0 < weekEnd {
        count := count + counts[j].1;
      }
      j := j + 1;
    }
    assert counts[..j] == counts;
  }

  /** The four weeks cover the 28 days before today, and today's activity
      falls in none of them. */
  lemma WeeksCoverMonth(days: seq<int>, today: int)
    ensures CountIn(days, today - 28, today - 21) + CountIn(days, today - 21, today - 14)
            + CountIn(days, today - 14, today - 7) + CountIn(days, today - 7, today)
            == CountIn(days, today - 28, today)
    ensures CountIn(days, today - 28, today) + multiset(days)[today] == CountIn(days, today - 28, today + 1)
  {
    CountInTile(days, today - 28, today - 21, today - 14);
    CountInTile(days, today - 28, today - 14, today - 7);
    CountInTile(days, today - 28, today - 7, today);
    CountInLast(days, today - 28, today + 1);
  }

  // ---------------------------------------------------------------------
  // _get_topic_analysis

  /** A conversation counts for `topic` when its topic is that topic or its
      question mentions the topic, ignoring case. */
  predicate About(c: Conversation, topic: string)
  {
    c.topic == Some(topic) || Contains(Lower(c.question.GetOr("")), Lower(topic))
  }

  /** The number of conversations about `topic`. */
  function QuestionsAbout(convs: seq<Conversation>, topic: string): (n: nat)
    ensures n <= |convs|
    decreases |convs|
  {
    if convs == [] then 0
    else QuestionsAbout(convs[..|convs| - 1], topic) + if About(convs[|convs| - 1], topic) then 1 else 0
  }

  /** The count is the length of the list of conversations about the topic. */
  lemma {:induction false} QuestionsAboutFilter(convs: seq<Conversation>, topic: string)
    ensures QuestionsAbout(convs, topic) == |Filter(convs, c => About(c, topic))|
    decreases |convs|
  {
    if convs != [] {
      QuestionsAboutFilter(convs[..|convs| - 1], topic);
    }
  }

  datatype TopicStat = TopicStat(topic: string, subtopicsCount: nat, questionsCount: nat, subtopics: seq<string>)

  function QuestionsCount(s: TopicStat): int
  {
    s.questionsCount
  }

  /** One entry per covered topic, in the order of the progress record. */
  function TopicStats(covered: Dict.Dict<string, seq<string>>, convs: seq<Conversation>): (stats: seq<TopicStat>)
    ensures |stats| == |covered|
    ensures forall i :: 0 <= i < |covered| ==>
              stats[i] == TopicStat(covered[i].0, |covered[i].1|, QuestionsAbout(convs, covered[i].0), covered[i].1)
  {
    seq(|covered|, i requires 0 <= i < |covered| =>
      TopicStat(covered[i].0, |covered[i].1|, QuestionsAbout(convs, covered[i].0), covered[i].1))
  }

  datatype TopicAnalysis = TopicAnalysis(topics: seq<TopicStat>, mostStudied: Option<string>, totalTopics: nat)

  /** `sum(1 for conv in conversations if ...)`. */
  method CountQuestions(convs: seq<Conversation>, topic: string) returns (n: nat)
    ensures n == QuestionsAbout(convs, topic)
  {
    n := 0;
    var j := 0;
    while j < |convs|
      invariant 0 <= j <= |convs| && n == QuestionsAbout(convs[..j], topic)
    {
      assert convs[..j + 1][..j] == convs[..j];
      if convs[j].topic == Some(topic) || Contains(Lower(convs[j].question.GetOr("")), Lower(topic)) {
        n := n + 1;
      }
      j := j + 1;
    }
    assert convs[..j] == convs;
  }

  /** `_get_topic_analysis`: the per-topic entries, sorted by question count
      (highest first, ties in record order), the first topic as the most
      studied one, and the number of topics. */
  method GetTopicAnalysis(covered: Dict.Dict<string, seq<string>>, convs: seq<Conversation>) returns (r: TopicAnalysis)
    ensures r.topics == SortDesc(TopicStats(covered, convs), QuestionsCount)
    ensures r.mostStudied == if r.topics == [] then None else Some(r.topics[0].topic)
    ensures r.totalTopics == |covered|
  {
    var stats: seq<TopicStat> := [];
    var i := 0;
    while i < |covered|
      invariant 0 <= i <= |covered| && stats == TopicStats(covered[..i], convs)
    {
      var topic := covered[i].0;
      var subtopics := covered[i].1;
      var n := CountQuestions(convs, topic);
      stats := stats + [TopicStat(topic, |subtopics|, n, subtopics)];
      i := i + 1;
    }
    assert covered[..i] == covered;
    stats := SortDesc(stats, QuestionsCount);
    r := TopicAnalysis(stats, if stats == [] then None else Some(stats[0].topic), |stats|);
  }

  /** The ranking lists every topic once, by non-increasing question count;
      topics with equal counts keep their record order; the most studied
      topic has the highest count. */
  lemma TopicRanking(covered: Dict.Dict<string, seq<string>>, convs: seq<Conversation>)
    ensures var stats := TopicStats(covered, convs);
            var ranked := SortDesc(stats, QuestionsCount);
            multiset(ranked) == multiset(stats)
            && SortedDesc(ranked, QuestionsCount)
            && (forall k :: Filter(ranked, HasKey(QuestionsCount, k)) == Filter(stats, HasKey(QuestionsCount, k)))
            && (ranked != [] ==> forall s :: s in ranked ==> s.questionsCount <= ranked[0].questionsCount)
  {
    var stats := TopicStats(covered, convs);
    var ranked := SortDesc(stats, QuestionsCount);
    SortDescSorted(stats, QuestionsCount);
    forall k {
      SortDescStable(stats, QuestionsCount, k);
    }
    if ranked != [] {
      forall s | s in ranked ensures s.questionsCount <= ranked[0].questionsCount {
        var j :| 0 <= j < |ranked| && ranked[j] == s;
        assert j == 0 || QuestionsCount(ranked[0]) >= QuestionsCount(ranked[j]);
      }
    }
  }

  // ---------------------------------------------------------------------
  // _get_performance_metrics

  datatype Metrics = Metrics(averageDifficulty: string, masteryLevel: real)

  /** `1 * Basic + 2 * Intermediate + 3 * Advanced`. */
  function Weighted(b: ProgressTracker.Buckets): int
  {
    b.basic + 2 * b.intermediate + 3 * b.advanced
  }

  function MinReal(a: real, b: real): (m: real)
    ensures m <= a && m <= b && (m == a || m == b)
  {
    if a <= b then a else b
  }

  /** `_get_performance_metrics` without the improvement rate and the
      rounding: the weighted average difficulty named by thresholds 2.5 and
      1.5, and the mastery level `min(100, average / 3 * 100)`. */
  function PerformanceMetrics(b: ProgressTracker.Buckets): (m: Metrics)
    ensures b.Total() == 0 ==> m == Metrics("N/A", 0.0)
    ensures b.Total() != 0 ==> m.masteryLevel <= 100.0
    ensures b.Total() > 0 ==> (m.averageDifficulty == "Advanced" <==> 2 * Weighted(b) > 5 * b.Total())
    ensures b.Total() > 0 ==> (m.averageDifficulty == "Intermediate"
                               <==> 3 * b.Total() < 2 * Weighted(b) <= 5 * b.Total())
    ensures b.Total() > 0 ==> (m.averageDifficulty == "Basic" <==> 2 * Weighted(b) <= 3 * b.Total())
  {
    var total := b.Total();
    if total == 0 then Metrics("N/A", 0.0)
    else
      var average := Weighted(b) as real / total as real;
      assert total > 0 ==> (average > 2.5 <==> 2 * Weighted(b) > 5 * total) && (average > 1.5 <==> 2 * Weighted(b) > 3 * total) by {
        if total > 0 {
          AverageAbove(Weighted(b), total, 5, 2);
          AverageAbove(Weighted(b), total, 3, 2);
        }
      }
      var name := if average > 2.5 then "Advanced" else if average > 1.5 then "Intermediate" else "Basic";
      Metrics(name, MinReal(100.0, average / 3.0 * 100.0))
  }

  /** `w / t > p / q` exactly when `q * w > p * t`, for positive `t` and `q`. */
  lemma AverageAbove(w: int, t: int, p: int, q: int)
    requires t > 0 && q > 0
    ensures (w as real / t as real > p as real / q as real) <==> q * w > p * t
  {
    var a := w as real / t as real;
    assert a * t as real == w as real;
    var c := p as real / q as real;
    assert c * q as real == p as real;
    if a > c {
      assert a * (t * q) as real > c * (t * q) as real;
    } else {
      assert a * (t * q) as real <= c * (t * q) as real;
    }
  }

  /** `w / t < p / q` exactly when `q * w < p * t`, for positive `t` and `q`. */
  lemma AverageBelow(w: int, t: int, p: int, q: int)
    requires t > 0 && q > 0
    ensures (w as real / t as real < p as real / q as real) <==> q * w < p * t
  {
    var a := w as real / t as real;
    assert a * t as real == w as real;
    var c := p as real / q as real;
    assert c * q as real == p as real;
    if a < c {
      assert a * (t * q) as real < c * (t * q) as real;
    } else {
      assert a * (t * q) as real >= c * (t * q) as real;
    }
  }

  /** With counts that are not negative the cap of 100 never applies: the
      mastery level is the average difficulty over 3, as a percentage,
      between a third of 100 and 100. */
  lemma MasteryProportional(b: ProgressTracker.Buckets)
    requires b.basic >= 0 && b.intermediate >= 0 && b.advanced >= 0 && b.Total() > 0
    ensures var m := PerformanceMetrics(b);
            m.masteryLevel * 3.0 * b.Total() as real == 100.0 * Weighted(b) as real
            && 100.0 <= 3.0 * m.masteryLevel <= 300.0
  {
    var t := b.Total() as real;
    var w := Weighted(b) as real;
    var average := w / t;
    assert average * t == w;
    assert t <= w <= 3.0 * t;
    AverageAbove(Weighted(b), b.Total(), 3, 1);
    AverageBelow(Weighted(b), b.Total(), 1, 1);
  }

  // ---------------------------------------------------------------------
  // _get_time_analysis

  /** The counting loop of `_get_time_analysis`: `counts` is the tally of
      the parsed hours of the conversations. */
  method TallyHours(convs: seq<Conversation>) returns (counts: Dict.Dict<int, nat>)
    ensures counts == Tally(Hours(convs))
  {
    counts := [];
    var i := 0;
    while i < |convs|
      invariant 0 <= i <= |convs| && counts == Tally(Hours(convs[..i]))
    {
      ghost var before := Hours(convs[..i]);
      HoursStep(convs, i);
      match HourOf(convs[i]) {
        case Some(h) =>
          counts := Dict.Put(counts, h, Dict.Get(counts, h).GetOr(0) + 1);
          assert counts == Tally(Hours(convs[..i + 1])) by {
            assert Hours(convs[..i + 1]) == before + [h];
            TallySnoc(before, h);
          }
        case None =>
          assert Hours(convs[..i + 1]) == before;
      }
      i := i + 1;
    }
    assert convs[..i] == convs;
  }

  /** The count of a `(hour, count)` item, the sort key of `sorted_hours`. */
  function CountOf(e: (int, nat)): int
  {
    e.1
  }

  function MaxInt(a: int, b: int): int
  {
    if a >= b then a else b
  }

  /** The study pattern: the period with the most conversations, ties going
      to the first of Morning, Afternoon, Evening and Night. */
  function Pattern(morning: int, afternoon: int, evening: int, night: int): (p: string)
    ensures p == "Morning Learner" <==> morning >= afternoon && morning >= evening && morning >= night
    ensures p == "Afternoon Learner" <==> afternoon > morning && afternoon >= evening && afternoon >= night
    ensures p == "Evening Learner" <==> evening > morning && evening > afternoon && evening >= night
    ensures p == "Night Owl" <==> night > morning && night > afternoon && night > evening
  {
    var top := MaxInt(MaxInt(MaxInt(morning, afternoon), evening), night);
    if top == morning then "Morning Learner"
    else if top == afternoon then "Afternoon Learner"
    else if top == evening then "Evening Learner"
    else "Night Owl"
  }

  /** The time analysis; `NoData` is the "No data" result. */
  datatype TimeAnalysis = NoData | TimeAnalysis(peakHours: seq<int>, pattern: string, hourly: Dict.Dict<int, nat>)

  /** `_get_time_analysis`: "No data" when no conversation has a parsable
      stamp; otherwise the hour tally, the first three hours of the tally
      sorted by count (highest first, ties in first-seen order), and the
      pattern of the four six-hour periods starting at 6, 12, 18 and 0. */
  method GetTimeAnalysis(convs: seq<Conversation>) returns (r: TimeAnalysis)
    ensures Hours(convs) == [] <==> r.NoData?
    ensures r.TimeAnalysis? ==>
              var hours := Hours(convs);
              r.hourly == Tally(hours)
              && r.peakHours == PeakOf(hours)
              && r.pattern == Pattern(CountIn(hours, 6, 12), CountIn(hours, 12, 18),
                                      CountIn(hours, 18, 24), CountIn(hours, 0, 6))
  {
    if convs == [] {
      return NoData;
    }
    var counts := TallyHours(convs);
    ghost var hours := Hours(convs);
    TallyEmpty(hours);
    if counts == [] {
      return NoData;
    }
    var sorted := SortDesc(counts, CountOf);
    var peak := Dict.Keys(Take(sorted, 3));
    var morning := PeriodTotal(counts, 6, 12);
    var afternoon := PeriodTotal(counts, 12, 18);
    var evening := PeriodTotal(counts, 18, 24);
    var night := PeriodTotal(counts, 0, 6);
    PeriodTotalTally(hours, 6, 12);
    PeriodTotalTally(hours, 12, 18);
    PeriodTotalTally(hours, 18, 24);
    PeriodTotalTally(hours, 0, 6);
    r := TimeAnalysis(peak, Pattern(morning, afternoon, evening, night), counts);
  }

  lemma TallyEmpty(ks: seq<int>)
    ensures Tally(ks) == [] <==> ks == []
  {
    if ks != [] {
      var t := Tally(ks[..|ks| - 1]);
      var k := ks[|ks| - 1];
      assert |Dict.Keys(Dict.Put(t, k, Dict.Get(t, k).GetOr(0) + 1))| >= 1;
    }
  }

  /** An item of a tally pairs a key that occurs with its number of occurrences. */
  lemma TallyItem(ks: seq<int>, e: (int, nat))
    requires e in Tally(ks)
    ensures e.0 in ks && e.1 == multiset(ks)[e.0]
  {
    TallyCounts(ks);
    var t := Tally(ks);
    var i :| 0 <= i < |t| && t[i] == e;
    Dict.GetEntry(t, i);
    assert e.0 == Dict.Keys(t)[i];
  }

  /** Sorting a tally keeps its items, each a key that occurs with its
      number of occurrences, and every key that occurs has an item. */
  lemma SortedTally(hours: seq<int>)
    ensures var sorted := SortDesc(Tally(hours), CountOf);
            SortedDesc(sorted, CountOf)
            && (forall m :: 0 <= m < |sorted| ==> sorted[m].0 in hours && sorted[m].1 == multiset(hours)[sorted[m].0])
            && (forall h :: h in hours ==> exists m :: 0 <= m < |sorted| && sorted[m].0 == h)
  {
    var t := Tally(hours);
    var sorted := SortDesc(t, CountOf);
    SortDescSorted(t, CountOf);
    assert forall e :: e in sorted <==> e in t by {
      assert forall e :: e in sorted <==> e in multiset(sorted);
    }
    forall m | 0 <= m < |sorted| ensures sorted[m].0 in hours && sorted[m].1 == multiset(hours)[sorted[m].0] {
      TallyItem(hours, sorted[m]);
    }
    assert forall h :: h in hours ==> exists m :: 0 <= m < |sorted| && sorted[m].0 == h by {
      TallyCounts(hours);
      forall h | h in hours
        ensures exists m :: 0 <= m < |sorted| && sorted[m].0 == h
      {
        assert h in Dict.Keys(t);
        var i :| 0 <= i < |t| && Dict.Keys(t)[i] == h;
        assert t[i] in sorted;
        var m :| 0 <= m < |sorted| && sorted[m] == t[i];
      }
    }
  }

  /** The first three hours of the sorted tally. */
  function PeakOf(hours: seq<int>): seq<int>
  {
    Dict.Keys(Take(SortDesc(Tally(hours), CountOf), 3))
  }

  /** The peak hours are at most three hours that occur, by non-increasing
      count, and with fewer than three of them they are all the hours that
      occur. */
  lemma PeakHoursOrdered(hours: seq<int>)
    ensures var peak := PeakOf(hours);
            |peak| <= 3
            && (forall j :: 0 <= j < |peak| ==> peak[j] in hours)
            && (forall i, j :: 0 <= i < j < |peak| ==> multiset(hours)[peak[i]] >= multiset(hours)[peak[j]])
            && (|peak| < 3 ==> forall h :: h in hours ==> h in peak)
  {
    var sorted := SortDesc(Tally(hours), CountOf);
    var peak := PeakOf(hours);
    SortedTally(hours);
    assert forall j :: 0 <= j < |peak| ==> peak[j] == sorted[j].0;
    forall i, j | 0 <= i < j < |peak| ensures multiset(hours)[peak[i]] >= multiset(hours)[peak[j]] {
      assert CountOf(sorted[i]) >= CountOf(sorted[j]);
    }
    if |peak| < 3 {
      forall h | h in hours ensures h in peak {
        var m :| 0 <= m < |sorted| && sorted[m].0 == h;
        assert peak[m] == h;
      }
    }
  }

  /** No hour outside the peak hours occurs more often than any of them. */
  lemma PeakHoursDominate(hours: seq<int>, h: int, j: int)
    requires h in hours && h !in PeakOf(hours) && 0 <= j < |PeakOf(hours)|
    ensures multiset(hours)[h] <= multiset(hours)[PeakOf(hours)[j]]
  {
    var sorted := SortDesc(Tally(hours), CountOf);
    var peak := PeakOf(hours);
    SortedTally(hours);
    var m :| 0 <= m < |sorted| && sorted[m].0 == h;
    assert peak[j] == sorted[j].0;
    assert CountOf(sorted[j]) >= CountOf(sorted[m]);
  }

  // ---------------------------------------------------------------------
  // _generate_recommendations and the streak of _get_overview_stats

  /** The dates handed to `calculate_streak`: the `timestamp` of every
      conversation that has a non-empty one, `None` where it does not parse. */
  function StreakDates(convs: seq<Conversation>): seq<Option<int>>
    decreases |convs|
  {
    if convs == [] then []
    else
      StreakDates(convs[..|convs| - 1])
      + match convs[|convs| - 1].timestamp
        case At(day, _) => [Some(day)]
        case Unparsed => [None]
        case _ => []
  }

  /** The recommendations `_generate_recommendations` can make. */
  datatype Recommendation = KeepAsking | TryAdvanced | ExploreSubjects | BuildStreak | GreatStreak(days: int) | DoingGreat

  /** The text shown for each recommendation. */
  function Message(r: Recommendation): string
  {
    match r
    case KeepAsking => "Keep asking questions! You're just getting started."
    case TryAdvanced => "Try exploring more advanced topics to challenge yourself!"
    case ExploreSubjects => "Explore different subjects to broaden your knowledge."
    case BuildStreak => "Build a learning streak by studying daily!"
    case GreatStreak(days) => "Great job on your " + IntToString(days) + "-day streak! Keep it up!"
    case DoingGreat => "You're doing great! Keep up the excellent work!"
  }

  function Messages(rs: seq<Recommendation>): (ms: seq<string>)
    ensures |ms| == |rs| && forall i :: 0 <= i < |rs| ==> ms[i] == Message(rs[i])
  {
    seq(|rs|, i requires 0 <= i < |rs| => Message(rs[i]))
  }

  /** `_get_overview_stats` reduced to its counts: questions, topics, the
      streak and the difficulty buckets; `lastActive` is the phrase for the
      time since the record's last activity. */
  datatype Overview = Overview(totalQuestions: int, topicsExplored: nat, learningStreak: int,
                               difficulty: ProgressTracker.Buckets, lastActive: string)

  method GetOverviewStats(progress: ProgressTracker.ProgressRecord, convs: seq<Conversation>, now: int)
    returns (o: Overview)
    ensures o.learningStreak == Utils.Streak(StreakDates(convs))
    ensures o.totalQuestions == progress.totalQuestions && o.topicsExplored == |progress.topicsCovered|
    ensures o.difficulty == progress.difficulty
    ensures o.lastActive == Utils.FormatTimeAgo(now - progress.lastActiveDate)
  {
    var dates := StreakDates(convs);
    var streak := 0;
    if dates != [] {
      streak := Utils.CalculateStreak(dates);
    }
    o := Overview(progress.totalQuestions, |progress.topicsCovered|, streak, progress.difficulty,
                  Utils.FormatTimeAgo(now - progress.lastActiveDate));
  }

  /** The recommendations of the rules that fire, in rule order. */
  function Fired(total: int, advanced: int, topics: int, streak: int): seq<Recommendation>
  {
    (if total < 5 then [KeepAsking] else [])
    + (if advanced == 0 && total > 10 then [TryAdvanced] else [])
    + (if topics < 3 then [ExploreSubjects] else [])
    + (if streak < 3 then [BuildStreak] else if streak >= 7 then [GreatStreak(streak)] else [])
  }

  /** The recommendations of `_generate_recommendations`, one per rule that
      fires, in rule order, or the encouragement alone when none does. */
  function Advice(total: int, advanced: int, topics: int, streak: int): seq<Recommendation>
  {
    var recs := Fired(total, advanced, topics, streak);
    if recs == [] then [DoingGreat] else recs
  }

  /** Each rule's recommendation fires exactly when its threshold is met,
      the streak praise names the streak, and none is the encouragement. */
  lemma FiredRules(total: int, advanced: int, topics: int, streak: int)
    ensures |Fired(total, advanced, topics, streak)| <= 4
    ensures KeepAsking in Fired(total, advanced, topics, streak) <==> total < 5
    ensures TryAdvanced in Fired(total, advanced, topics, streak) <==> advanced == 0 && total > 10
    ensures ExploreSubjects in Fired(total, advanced, topics, streak) <==> topics < 3
    ensures BuildStreak in Fired(total, advanced, topics, streak) <==> streak < 3
    ensures GreatStreak(streak) in Fired(total, advanced, topics, streak) <==> streak >= 7
    ensures forall r :: r in Fired(total, advanced, topics, streak) && r.GreatStreak? ==> r.days == streak
    ensures DoingGreat !in Fired(total, advanced, topics, streak)
    ensures Fired(total, advanced, topics, streak) == [] <==>
              total >= 5 && !(advanced == 0 && total > 10) && topics >= 3 && 3 <= streak < 7
  {
    var a := if total < 5 then [KeepAsking] else [];
    var b := if advanced == 0 && total > 10 then [TryAdvanced] else [];
    var c := if topics < 3 then [ExploreSubjects] else [];
    var d := if streak < 3 then [BuildStreak] else if streak >= 7 then [GreatStreak(streak)] else [];
    assert Fired(total, advanced, topics, streak) == a + b + c + d;
    assert forall r :: r in a + b + c + d <==> r in a || r in b || r in c || r in d;
  }

  /** Each rule's recommendation is there exactly when its threshold is
      met, the streak praise names the streak, and the list is never empty. */
  lemma AdviceRules(total: int, advanced: int, topics: int, streak: int)
    ensures var recs := Advice(total, advanced, topics, streak); recs != [] && |recs| <= 4
    ensures KeepAsking in Advice(total, advanced, topics, streak) <==> total < 5
    ensures TryAdvanced in Advice(total, advanced, topics, streak) <==> advanced == 0 && total > 10
    ensures ExploreSubjects in Advice(total, advanced, topics, streak) <==> topics < 3
    ensures BuildStreak in Advice(total, advanced, topics, streak) <==> streak < 3
    ensures GreatStreak(streak) in Advice(total, advanced, topics, streak) <==> streak >= 7
    ensures forall r :: r in Advice(total, advanced, topics, streak) && r.GreatStreak? ==> r.days == streak
    ensures DoingGreat in Advice(total, advanced, topics, streak) <==> Advice(total, advanced, topics, streak) == [DoingGreat]
    ensures Advice(total, advanced, topics, streak) == [DoingGreat] <==>
              total >= 5 && !(advanced == 0 && total > 10) && topics >= 3 && 3 <= streak < 7
  {
    FiredRules(total, advanced, topics, streak);
    var fired := Fired(total, advanced, topics, streak);
    if fired == [] {
      assert Advice(total, advanced, topics, streak) == [DoingGreat];
    } else {
      assert Advice(total, advanced, topics, streak) == fired;
      assert [DoingGreat][0] !in fired;
    }
  }

  /** `_generate_recommendations`: the rules applied to the record's
      question count, its number of Advanced questions, its number of
      topics and the streak of the conversations. The list is built as
      recommendations and shown as their messages. */
  method GenerateRecommendations(progress: ProgressTracker.ProgressRecord, convs: seq<Conversation>)
    returns (recs: seq<string>)
    ensures recs == Messages(Advice(progress.totalQuestions, progress.difficulty.advanced, |progress.topicsCovered|,
                                    Utils.Streak(StreakDates(convs))))
  {
    var total := progress.totalQuestions;
    ghost var advanced := progress.difficulty.advanced;
    ghost var topics := |progress.topicsCovered|;
    var advice: seq<Recommendation> := [];
    if total < 5 {
      advice := advice + [KeepAsking];
    }
    ghost var a := advice;
    if progress.difficulty.advanced == 0 && total > 10 {
      advice := advice + [TryAdvanced];
    }
    ghost var ab := advice;
    assert ab == a + (if advanced == 0 && total > 10 then [TryAdvanced] else []);
    if |progress.topicsCovered| < 3 {
      advice := advice + [ExploreSubjects];
    }
    ghost var abc := advice;
    assert abc == ab + (if topics < 3 then [ExploreSubjects] else []);
    var streak := Utils.CalculateStreak(StreakDates(convs));
    if streak < 3 {
      advice := advice + [BuildStreak];
    } else if streak >= 7 {
      advice := advice + [GreatStreak(streak)];
    }
    assert advice == abc + (if streak < 3 then [BuildStreak] else if streak >= 7 then [GreatStreak(streak)] else []);
    if advice == [] {
      advice := advice + [DoingGreat];
    }
    assert advice == Advice(total, advanced, topics, streak) by {
      assert abc + (if streak < 3 then [BuildStreak] else if streak >= 7 then [GreatStreak(streak)] else [])
             == Fired(total, advanced, topics, streak);
    }
    recs := Messages(advice);
  }
}
