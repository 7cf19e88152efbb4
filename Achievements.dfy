/** The achievement system (achievements.py): a fixed catalogue, the list of
    ids a student has unlocked, a points counter and the level computed from
    it. */
module Achievements {
  import opened Wrappers
  import opened Seqs
  import Dict
  import ProgressTracker

  /** One catalogue entry. */
  datatype Achievement = Achievement(name: string, description: string, icon: string, points: nat)

  /** The keys of `ACHIEVEMENTS`, in its declaration order (achievements.py:11-84). */
  const CatalogueIds: seq<string> := [
    "first_question",
    "questions_10",
    "questions_50",
    "questions_100",
    "streak_3",
    "streak_7",
    "streak_30",
    "topics_5",
    "topics_10",
    "advanced_10",
    "quiz_perfect",
    "flashcard_master"
  ]

  /** `ACHIEVEMENTS.get(id)`: the entry declared under `id` (achievements.py:11-84). */
  function Lookup(id: string): Option<Achievement>
  {
    if id == "first_question" then Some(Achievement("First Steps", "Asked your first question", "\U{1F3AF}", 10))
    else if id == "questions_10" then Some(Achievement("Curious Mind", "Asked 10 questions", "\U{1F914}", 50))
    else if id == "questions_50" then Some(Achievement("Knowledge Seeker", "Asked 50 questions", "\U{1F50D}", 100))
    else if id == "questions_100" then Some(Achievement("Master Inquirer", "Asked 100 questions", "\U{1F4A1}", 250))
    else if id == "streak_3" then Some(Achievement("Getting Started", "3-day learning streak", "\U{1F525}", 30))
    else if id == "streak_7" then Some(Achievement("Week Warrior", "7-day learning streak", "\U{26A1}", 100))
    else if id == "streak_30" then Some(Achievement("Dedication Master", "30-day learning streak", "\U{1F31F}", 500))
    else if id == "topics_5" then Some(Achievement("Explorer", "Explored 5 different topics", "\U{1F5FA}\U{FE0F}", 75))
    else if id == "topics_10" then Some(Achievement("Renaissance Learner", "Explored 10 different topics", "\U{1F30D}", 200))
    else if id == "advanced_10" then Some(Achievement("Advanced Scholar", "Answered 10 advanced questions", "\U{1F393}", 150))
    else if id == "quiz_perfect" then Some(Achievement("Perfect Score", "Got 100% on a quiz", "\U{1F3C6}", 100))
    else if id == "flashcard_master" then Some(Achievement("Memory Master", "Mastered 50 flashcards", "\U{1F9E0}", 200))
    else None
  }

  /** `ACHIEVEMENTS.get(id, {}).get("points", 0)`: the points an id is worth,
      0 for an id outside the catalogue. */
  function PointsOf(id: string): (points: nat)
    ensures Lookup(id).Some? ==> points == Lookup(id).value.points
    ensures Lookup(id).None? ==> points == 0
  {
    match Lookup(id)
    case Some(a) => a.points
    case None => 0
  }

  /** The catalogue answers exactly for its declared ids, and every entry
      is worth points, so an id earns points iff it is in the catalogue. */
  lemma PointsOfCatalogue(id: string)
    ensures Lookup(id).Some? <==> id in CatalogueIds
    ensures PointsOf(id) > 0 <==> id in CatalogueIds
  {
    if id in CatalogueIds {
      var k :| 0 <= k < |CatalogueIds| && CatalogueIds[k] == id;
      CatalogueEntry(k);
    } else if Lookup(id).Some? {
      LookupInCatalogue(id);
    }
  }

  /** The catalogue has an entry with points for each declared id. */
  lemma CatalogueEntry(k: nat)
    requires k < |CatalogueIds|
    ensures Lookup(CatalogueIds[k]).Some? && Lookup(CatalogueIds[k]).value.points > 0
  {
  }

  /** The catalogue answers only for its declared ids. */
  lemma LookupInCatalogue(id: string)
    requires Lookup(id).Some?
    ensures id in CatalogueIds
  {
  }

  /** `_calculate_level`: 100, 300, 600, 1000 and 1500 points open levels 2
      to 6, and every further 500 points one more level. */
  function Level(points: int): (level: int)
    ensures level >= 1
  {
    if points < 100 then 1
    else if points < 300 then 2
    else if points < 600 then 3
    else if points < 1000 then 4
    else if points < 1500 then 5
    else 6 + (points - 1500) / 500
  }

  /** Each level's range of points, read in both directions: 500 points
      per level from level 6 on. */
  lemma LevelRanges(points: int, level: int)
    ensures Level(points) == 1 <==> points < 100
    ensures Level(points) == 2 <==> 100 <= points < 300
    ensures Level(points) == 3 <==> 300 <= points < 600
    ensures Level(points) == 4 <==> 600 <= points < 1000
    ensures Level(points) == 5 <==> 1000 <= points < 1500
    ensures points >= 1500 ==> Level(points) >= 6 && Level(points + 500) == Level(points) + 1
    ensures level >= 6 ==> (Level(points) == level <==> 1500 + 500 * (level - 6) <= points < 2000 + 500 * (level - 6))
  {
    if points >= 1500 && level >= 6 {
      var q := (points - 1500) / 500;
      assert 500 * q <= points - 1500 < 500 * q + 500;
      if 1500 + 500 * (level - 6) <= points < 2000 + 500 * (level - 6) {
        assert q == level - 6;
      }
    }
  }

  /** More points never mean a lower level. */
  lemma LevelMonotone(p: int, q: int)
    requires p <= q
    ensures Level(p) <= Level(q)
  {
    if p >= 1500 {
      assert (p - 1500) / 500 <= (q - 1500) / 500;
    }
  }

  /** `achievements_data`; `badges` is stored but never changed here. */
  datatype Record = Record(unlocked: seq<string>, points: int, level: int, badges: seq<string>)

  /** The record `_load_achievements` falls back to (achievements.py:100-105). */
  const Initial: Record := Record([], 0, 1, [])

  /** The entry `_unlock` reports: the catalogue data with defaults for an
      id outside the catalogue. */
  datatype Unlocked = Unlocked(id: string, name: string, description: string, icon: string, points: nat)

  function Announce(id: string): (u: Unlocked)
    ensures u.id == id && u.points == PointsOf(id)
    ensures Lookup(id).None? ==> u == Unlocked(id, "", "", "\U{1F3C5}", 0)
  {
    match Lookup(id)
    case Some(a) => Unlocked(id, a.name, a.description, a.icon, a.points)
    case None => Unlocked(id, "", "", "\U{1F3C5}", 0)
  }

  /** The record after `_unlock(id)`. */
  function AfterUnlock(r: Record, id: string): Record
  {
    if id in r.unlocked then r
    else
      var points := r.points + PointsOf(id);
      r.(unlocked := r.unlocked + [id], points := points, level := Level(points))
  }

  /** Total points of a list of ids. */
  function SumPoints(ids: seq<string>): (total: nat)
    ensures ids == [] ==> total == 0
    decreases |ids|
  {
    if ids == [] then 0 else SumPoints(ids[..|ids| - 1]) + PointsOf(ids[|ids| - 1])
  }

  /** What every record built by `_unlock` from the initial one satisfies:
      no id twice, the points are those of the unlocked ids, the level is
      the level of the points. */
  predicate Valid(r: Record)
  {
    NoDup(r.unlocked) && r.points == SumPoints(r.unlocked) && r.level == Level(r.points)
  }

  lemma InitialValid()
    ensures Valid(Initial)
  {
  }

  /** `_unlock` keeps a record valid, never loses points or an id, and
      unlocking twice is the same as unlocking once. */
  lemma {:induction false} AfterUnlockProperties(r: Record, id: string)
    ensures AfterUnlock(AfterUnlock(r, id), id) == AfterUnlock(r, id)
    ensures var s := AfterUnlock(r, id);
            r.unlocked <= s.unlocked && id in s.unlocked
            && r.points <= s.points
            && (Valid(r) ==> Valid(s))
  {
    var s := AfterUnlock(r, id);
    if id !in r.unlocked {
      assert s.unlocked[..|s.unlocked| - 1] == r.unlocked;
      if NoDup(r.unlocked) {
        NoDupAppend(r.unlocked, id);
      }
    }
  }

  /** One check of `check_achievements`: the id it may unlock and whether
      its condition holds. */
  datatype Rule = Rule(id: string, met: bool)

  /** The checks of `check_achievements`, in the order it makes them
      (achievements.py:123-143). The streak, quiz and flashcard achievements
      have no check. */
  function Rules(p: ProgressTracker.ProgressRecord): (rules: seq<Rule>)
    ensures |rules| == 7
  {
    var total := p.totalQuestions;
    var topics := |p.topicsCovered|;
    [Rule("first_question", total >= 1), Rule("questions_10", total >= 10),
     Rule("questions_50", total >= 50), Rule("questions_100", total >= 100),
     Rule("topics_5", topics >= 5), Rule("topics_10", topics >= 10),
     Rule("advanced_10", p.difficulty.advanced >= 10)]
  }

  /** One check: unlock when the condition holds and the id is not yet unlocked. */
  function Step(r: Record, rule: Rule): Record
  {
    if rule.met && rule.id !in r.unlocked then AfterUnlock(r, rule.id) else r
  }

  /** The id one check unlocks, if any. */
  function Unlocks(r: Record, rule: Rule): seq<string>
  {
    if rule.met && rule.id !in r.unlocked then [rule.id] else []
  }

  /** The record after the checks `rules`, made in order. */
  function Apply(r: Record, rules: seq<Rule>): Record
  {
    Fold(Step, r, rules)
  }

  /** The ids the checks `rules` unlock, in order. */
  function Fresh(r: Record, rules: seq<Rule>): seq<string>
  {
    Emitted(Step, Unlocks, r, rules)
  }

  /** Checks only ever append the ids they unlock and add their points; a
      check that unlocks nothing changes nothing. */
  lemma {:induction false} ApplyShape(r: Record, rules: seq<Rule>)
    ensures Apply(r, rules).unlocked == r.unlocked + Fresh(r, rules)
    ensures Apply(r, rules).points == r.points + SumPoints(Fresh(r, rules))
    ensures Fresh(r, rules) == [] ==> Apply(r, rules) == r
    decreases |rules|
  {
    if rules != [] {
      var init := rules[..|rules| - 1];
      var before := Apply(r, init);
      var last := rules[|rules| - 1];
      ApplyShape(r, init);
      if last.met && last.id !in before.unlocked {
        var f := Fresh(r, rules);
        assert f == Fresh(r, init) + [last.id];
        assert f[..|f| - 1] == Fresh(r, init);
        assert before.unlocked + [last.id] == r.unlocked + f;
      } else {
        assert Fresh(r, rules) == Fresh(r, init);
      }
    }
  }

  /** Checks keep a valid record valid. */
  lemma {:induction false} ApplyValid(r: Record, rules: seq<Rule>)
    requires Valid(r)
    ensures Valid(Apply(r, rules))
    decreases |rules|
  {
    if rules != [] {
      var init := rules[..|rules| - 1];
      ApplyValid(r, init);
      AfterUnlockProperties(Apply(r, init), rules[|rules| - 1].id);
    }
  }

  /** After the checks, every id whose condition held is unlocked, and only
      those and the ones unlocked before are. */
  lemma {:induction false} ApplyUnlocks(r: Record, rules: seq<Rule>, id: string)
    ensures id in Apply(r, rules).unlocked
            <==> id in r.unlocked || exists j :: 0 <= j < |rules| && rules[j].met && rules[j].id == id
    decreases |rules|
  {
    if rules != [] {
      var init := rules[..|rules| - 1];
      ApplyUnlocks(r, init, id);
      if exists j :: 0 <= j < |rules| && rules[j].met && rules[j].id == id {
        var j :| 0 <= j < |rules| && rules[j].met && rules[j].id == id;
        if j < |rules| - 1 {
          assert init[j] == rules[j];
          AfterUnlockProperties(Apply(r, init), rules[|rules| - 1].id);
        }
      } else {
        forall j | 0 <= j < |init| && init[j].met ensures init[j].id != id {
          assert init[j] == rules[j];
        }
      }
    }
  }

  /** When every id whose condition holds is already unlocked, the checks
      change nothing and unlock nothing. */
  lemma {:induction false} ApplySettled(r: Record, rules: seq<Rule>)
    requires forall j :: 0 <= j < |rules| && rules[j].met ==> rules[j].id in r.unlocked
    ensures Apply(r, rules) == r && Fresh(r, rules) == []
    decreases |rules|
  {
    if rules != [] {
      var init := rules[..|rules| - 1];
      forall j | 0 <= j < |init| && init[j].met ensures init[j].id in r.unlocked {
        assert init[j] == rules[j];
      }
      ApplySettled(r, init);
    }
  }

  /** `check_achievements` is idempotent: a second call with the same
      progress unlocks nothing and leaves the record as it is. */
  lemma CheckIdempotent(r: Record, rules: seq<Rule>)
    ensures Apply(Apply(r, rules), rules) == Apply(r, rules)
    ensures Fresh(Apply(r, rules), rules) == []
  {
    var s := Apply(r, rules);
    forall j | 0 <= j < |rules| && rules[j].met ensures rules[j].id in s.unlocked {
      ApplyUnlocks(r, rules, rules[j].id);
    }
    ApplySettled(s, rules);
  }

  /** Which achievements a check unlocks, by condition: questions 1, 10, 50
      and 100, topics 5 and 10, Advanced questions 10; the other ids are
      unlocked afterwards only when they were before. */
  lemma CheckConditions(r: Record, p: ProgressTracker.ProgressRecord, id: string)
    ensures var s := Apply(r, Rules(p));
            id in s.unlocked
            <==> id in r.unlocked
                 || (id == "first_question" && p.totalQuestions >= 1)
                 || (id == "questions_10" && p.totalQuestions >= 10)
                 || (id == "questions_50" && p.totalQuestions >= 50)
                 || (id == "questions_100" && p.totalQuestions >= 100)
                 || (id == "topics_5" && |p.topicsCovered| >= 5)
                 || (id == "topics_10" && |p.topicsCovered| >= 10)
                 || (id == "advanced_10" && p.difficulty.advanced >= 10)
  {
    var rules := Rules(p);
    ApplyUnlocks(r, rules, id);
    if exists j :: 0 <= j < |rules| && rules[j].met && rules[j].id == id {
      var j :| 0 <= j < |rules| && rules[j].met && rules[j].id == id;
      assert j in {0, 1, 2, 3, 4, 5, 6};
    } else {
      assert !(rules[0].met && rules[0].id == id);
      assert !(rules[1].met && rules[1].id == id);
      assert !(rules[2].met && rules[2].id == id);
      assert !(rules[3].met && rules[3].id == id);
      assert !(rules[4].met && rules[4].id == id);
      assert !(rules[5].met && rules[5].id == id);
      assert !(rules[6].met && rules[6].id == id);
    }
  }

  /** One line of `get_all_achievements`: the id and its catalogue data, if any. */
  datatype Entry = Entry(id: string, details: Option<Achievement>)

  datatype Overview = Overview(unlocked: seq<Entry>, locked: seq<Entry>, points: int, level: int)

  /** `get_all_achievements`: the unlocked ids in unlock order, then the
      catalogue entries not unlocked, in catalogue order. */
  function AllAchievements(r: Record): (o: Overview)
    ensures |o.unlocked| == |r.unlocked|
    ensures forall i :: 0 <= i < |o.unlocked| ==> o.unlocked[i] == Entry(r.unlocked[i], Lookup(r.unlocked[i]))
    ensures o.points == r.points && o.level == r.level
  {
    var unlocked := seq(|r.unlocked|, i requires 0 <= i < |r.unlocked| => Entry(r.unlocked[i], Lookup(r.unlocked[i])));
    var lockedIds := Filter(CatalogueIds, (id: string) => id !in r.unlocked);
    var locked := seq(|lockedIds|, i requires 0 <= i < |lockedIds| => Entry(lockedIds[i], Lookup(lockedIds[i])));
    Overview(unlocked, locked, r.points, r.level)
  }

  /** The locked list is the catalogue with the unlocked ids removed, in
      catalogue order, each entry with its catalogue data. */
  lemma AllAchievementsLocked(r: Record)
    ensures var o := AllAchievements(r);
            var lockedIds := Filter(CatalogueIds, (x: string) => x !in r.unlocked);
            |o.locked| == |lockedIds|
            && forall i :: 0 <= i < |o.locked| ==> o.locked[i].id == lockedIds[i] && o.locked[i].details.Some?
  {
    var p := (x: string) => x !in r.unlocked;
    var lockedIds := Filter(CatalogueIds, p);
    FilterSound(CatalogueIds, p);
    forall i | 0 <= i < |lockedIds| ensures Lookup(lockedIds[i]).Some? {
      assert lockedIds[i] in lockedIds;
    }
  }

  /** Every catalogue id is on exactly one of the two lists: the unlocked
      one when it has been unlocked, the locked one otherwise. */
  lemma AllAchievementsSplit(r: Record, id: string)
    requires id in CatalogueIds
    ensures var o := AllAchievements(r);
            (id in r.unlocked <==> exists i :: 0 <= i < |o.unlocked| && o.unlocked[i].id == id)
            && (id !in r.unlocked <==> exists i :: 0 <= i < |o.locked| && o.locked[i].id == id)
  {
    var o := AllAchievements(r);
    var p := (x: string) => x !in r.unlocked;
    var lockedIds := Filter(CatalogueIds, p);
    FilterSound(CatalogueIds, p);
    AllAchievementsLocked(r);
    if id in r.unlocked {
      var i :| 0 <= i < |r.unlocked| && r.unlocked[i] == id;
      assert o.unlocked[i].id == id;
      forall i | 0 <= i < |o.locked| ensures o.locked[i].id != id {
        assert lockedIds[i] in lockedIds;
      }
    } else {
      var k :| 0 <= k < |CatalogueIds| && CatalogueIds[k] == id;
      FilterKeeps(CatalogueIds, k, p);
      var i :| 0 <= i < |lockedIds| && lockedIds[i] == id;
      assert o.locked[i].id == id;
    }
  }

  /** `AchievementSystem`: the record it keeps in `achievements_data`. */
  class AchievementSystem {
    const studentId: string
    var data: Record

    /** `__init__` through `_load_achievements`: the stored record, or the initial one. */
    constructor (studentId: string, stored: Option<Record>)
      ensures this.studentId == studentId
      ensures data == stored.GetOr(Initial)
    {
      this.studentId := studentId;
      data := stored.GetOr(Initial);
    }

    /** `_unlock`: nothing for an id already unlocked; otherwise the id is
        appended, its points added, the level recomputed and the entry
        reported. */
    method Unlock(id: string) returns (u: Option<Unlocked>)
      modifies this
      ensures data == AfterUnlock(old(data), id)
      ensures u.None? <==> id in old(data).unlocked
      ensures u.Some? ==> u.value == Announce(id)
    {
      if id in data.unlocked {
        return None;
      }
      var points := PointsOf(id);
      var r := data.(unlocked := data.unlocked + [id]);
      r := r.(points := r.points + points);
      r := r.(level := Level(r.points));
      data := r;
      u := Some(Announce(id));
    }

    /** `check_achievements`: each check in turn, reporting what it unlocks. */
    method CheckAchievements(progress: ProgressTracker.ProgressRecord) returns (newly: seq<Unlocked>)
      modifies this
      ensures data == Apply(old(data), Rules(progress))
      ensures newly == Announcements(Fresh(old(data), Rules(progress)))
    {
      ghost var rules := Rules(progress);
      ghost var goal := Apply(data, rules);
      ghost var report := Announcements(Fresh(data, rules));
      assert [] + Announcements(Fresh(data, rules)) == report;
      newly := CheckQuestionCounts(progress.totalQuestions, [], rules, goal, report);
      newly := CheckTopicCounts(|progress.topicsCovered|, newly, rules, goal, report);
      var advanced := progress.difficulty.advanced;
      newly := Check("advanced_10", advanced >= 10, newly, rules, 6, goal, report);
      assert rules[7..] == [];
      assert newly + Announcements([]) == newly;
    }

    /** The question-count checks of `check_achievements`, the first four of `rules`. */
    method CheckQuestionCounts(total: int, newly: seq<Unlocked>, ghost rules: seq<Rule>,
                               ghost goal: Record, ghost report: seq<Unlocked>)
      returns (reported: seq<Unlocked>)
      requires 4 <= |rules|
      requires rules[0] == Rule("first_question", total >= 1) && rules[1] == Rule("questions_10", total >= 10)
      requires rules[2] == Rule("questions_50", total >= 50) && rules[3] == Rule("questions_100", total >= 100)
      requires Apply(data, rules) == goal && newly + Announcements(Fresh(data, rules)) == report
      modifies this
      ensures Apply(data, rules[4..]) == goal && reported + Announcements(Fresh(data, rules[4..])) == report
    {
      assert rules[0..] == rules;
      reported := Check("first_question", total >= 1, newly, rules, 0, goal, report);
      reported := Check("questions_10", total >= 10, reported, rules, 1, goal, report);
      reported := Check("questions_50", total >= 50, reported, rules, 2, goal, report);
      reported := Check("questions_100", total >= 100, reported, rules, 3, goal, report);
      assert rules[3 + 1..] == rules[4..];
    }

    /** The topic-count checks of `check_achievements`, the fifth and sixth of `rules`. */
    method CheckTopicCounts(topics: int, newly: seq<Unlocked>, ghost rules: seq<Rule>,
                            ghost goal: Record, ghost report: seq<Unlocked>)
      returns (reported: seq<Unlocked>)
      requires 6 <= |rules|
      requires rules[4] == Rule("topics_5", topics >= 5) && rules[5] == Rule("topics_10", topics >= 10)
      requires Apply(data, rules[4..]) == goal && newly + Announcements(Fresh(data, rules[4..])) == report
      modifies this
      ensures Apply(data, rules[6..]) == goal && reported + Announcements(Fresh(data, rules[6..])) == report
    {
      reported := Check("topics_5", topics >= 5, newly, rules, 4, goal, report);
      reported := Check("topics_10", topics >= 10, reported, rules, 5, goal, report);
      assert rules[5 + 1..] == rules[6..];
    }

    /** One check of `check_achievements`: when the condition holds and the
        id is not unlocked yet, unlock it and report it. `rules[k..]` holds
        this check and the ones after it; whatever the record and the report are
        headed for after them stays where it was. */
    method Check(id: string, met: bool, newly: seq<Unlocked>, ghost rules: seq<Rule>, ghost k: nat,
                 ghost goal: Record, ghost report: seq<Unlocked>)
      returns (reported: seq<Unlocked>)
      requires k < |rules| && rules[k] == Rule(id, met)
      requires Apply(data, rules[k..]) == goal && newly + Announcements(Fresh(data, rules[k..])) == report
      modifies this
      ensures Apply(data, rules[k + 1..]) == goal && reported + Announcements(Fresh(data, rules[k + 1..])) == report
    {
      ghost var rest := rules[k..];
      assert rest[0] == Rule(id, met) && rest[1..] == rules[k + 1..];
      ghost var before := data;
      ghost var now := Announcements(Unlocks(before, rest[0]));
      ghost var later := Announcements(Fresh(Step(before, rest[0]), rest[1..]));
      FoldFront(Step, before, rest);
      EmittedFront(Step, Unlocks, before, rest);
      MapAppend(Announce, Unlocks(before, rest[0]), Fresh(Step(before, rest[0]), rest[1..]));
      assert report == newly + (now + later);
      reported := newly;
      if met && id !in data.unlocked {
        var u := Unlock(id);
        reported := newly + [u.value];
      }
      assert data == Step(before, rest[0]);
      assert reported == newly + now;
      AppendAssoc(newly, now, later);
    }
  }

  /** The entries `check_achievements` reports for the ids it unlocks. */
  function Announcements(ids: seq<string>): (us: seq<Unlocked>)
    ensures |us| == |ids|
    ensures forall i :: 0 <= i < |ids| ==> us[i] == Announce(ids[i])
  {
    Map(Announce, ids)
  }
}
