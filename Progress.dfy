/** A student's progress record (progress_tracker.py): how many questions
    were asked, which topics and subtopics they touched, and how many
    questions fell in each difficulty bucket. Times are whole seconds; `now`
    is a parameter. */
module ProgressTracker {
  import opened Wrappers
  import opened Seqs
  import opened Text
  import Dict

  datatype Difficulty = Basic | Intermediate | Advanced

  /** The label a difficulty is stored and shown under; reading it back
      gives the same difficulty. */
  function Label(d: Difficulty): (name: string)
    ensures Normalize(name) == d
  {
    match d
    case Basic => "Basic"
    case Intermediate => "Intermediate"
    case Advanced => "Advanced"
  }

  /** The label check of `update_progress` and `analyze_difficulty`: one of
      the three labels, exactly as spelled, or else "Basic". A name is kept
      exactly when it is one of the labels. */
  function Normalize(name: string): (d: Difficulty)
    ensures name != "Intermediate" && name != "Advanced" ==> d == Basic
    ensures (match d
             case Basic => "Basic"
             case Intermediate => "Intermediate"
             case Advanced => "Advanced") == name
            <==> name == "Basic" || name == "Intermediate" || name == "Advanced"
  {
    if name == "Intermediate" then Intermediate
    else if name == "Advanced" then Advanced
    else Basic
  }

  /** `analyze_difficulty` once the model has answered: the answer text,
      stripped and checked against the three labels. `None` stands for a
      reply without candidates or parts, which also yields "Basic". */
  function AnalyzeDifficulty(reply: Option<string>): (name: string)
    ensures name == "Basic" || name == "Intermediate" || name == "Advanced"
    ensures reply.None? ==> name == "Basic"
    ensures reply.Some? && Strip(reply.value) in {"Basic", "Intermediate", "Advanced"} ==> name == Strip(reply.value)
    ensures reply.Some? && Strip(reply.value) !in {"Basic", "Intermediate", "Advanced"} ==> name == "Basic"
  {
    match reply
    case None => "Basic"
    case Some(text) => Label(Normalize(Strip(text)))
  }

  /** `difficulty_distribution`: one counter per difficulty. */
  datatype Buckets = Buckets(basic: int, intermediate: int, advanced: int) {

    function Count(d: Difficulty): int
    {
      match d
      case Basic => basic
      case Intermediate => intermediate
      case Advanced => advanced
    }

    function Total(): int
    {
      basic + intermediate + advanced
    }

    /** `dist[name] += 1`. */
    function Bump(d: Difficulty): (b: Buckets)
      ensures b.Count(d) == Count(d) + 1
      ensures forall e :: e != d ==> b.Count(e) == Count(e)
      ensures b.Total() == Total() + 1
    {
      match d
      case Basic => this.(basic := basic + 1)
      case Intermediate => this.(intermediate := intermediate + 1)
      case Advanced => this.(advanced := advanced + 1)
    }
  }

  datatype ProgressRecord = ProgressRecord(
    studentId: string,
    totalQuestions: int,
    topicsCovered: Dict.Dict<string, seq<string>>,
    lastActiveDate: int,
    difficulty: Buckets)

  /** The record `get_progress` starts a student with (progress_tracker.py:19-26). */
  function FreshRecord(studentId: string, now: int): (p: ProgressRecord)
    ensures p.totalQuestions == 0 && p.topicsCovered == []
    ensures p.difficulty == Buckets(0, 0, 0) && p.studentId == studentId && p.lastActiveDate == now
  {
    ProgressRecord(studentId, 0, [], now, Buckets(0, 0, 0))
  }

  /** A subtopic list after `update_progress` sees `subtopic`: appended when
      non-empty and new. */
  function AddSubtopic(subtopics: seq<string>, subtopic: string): seq<string>
  {
    if subtopic != "" && subtopic !in subtopics then subtopics + [subtopic] else subtopics
  }

  /** The record after `update_progress(topic, subtopic, difficulty)` at time `now`. */
  function Updated(p: ProgressRecord, topic: string, subtopic: string, difficulty: string, now: int): ProgressRecord
  {
    var subtopics := Dict.Get(p.topicsCovered, topic).GetOr([]);
    p.(totalQuestions := p.totalQuestions + 1,
       lastActiveDate := now,
       topicsCovered := Dict.Put(p.topicsCovered, topic, AddSubtopic(subtopics, subtopic)),
       difficulty := p.difficulty.Bump(Normalize(difficulty)))
  }

  /** The subtopic list stays duplicate-free and in insertion order: the new
      subtopic is appended exactly when it is non-empty and not yet there. */
  lemma AddSubtopicKeepsList(subtopics: seq<string>, subtopic: string)
    requires NoDup(subtopics)
    ensures NoDup(AddSubtopic(subtopics, subtopic))
    ensures subtopics <= AddSubtopic(subtopics, subtopic)
    ensures subtopic in AddSubtopic(subtopics, subtopic) <==> subtopic != "" || subtopic in subtopics
    ensures |AddSubtopic(subtopics, subtopic)| <= |subtopics| + 1
  {
    if subtopic != "" && subtopic !in subtopics {
      NoDupAppend(subtopics, subtopic);
    }
  }

  /** One update counts one question, marks `topic` as covered, leaves every
      other topic's subtopics alone, and bumps exactly one difficulty bucket,
      the normalised one. */
  lemma {:induction false} UpdatedEffect(p: ProgressRecord, topic: string, subtopic: string,
                                         difficulty: string, now: int, other: string)
    requires other != topic
    ensures var q := Updated(p, topic, subtopic, difficulty, now);
            q.totalQuestions == p.totalQuestions + 1
            && topic in Dict.Keys(q.topicsCovered)
            && Dict.Get(q.topicsCovered, topic)
               == Some(AddSubtopic(Dict.Get(p.topicsCovered, topic).GetOr([]), subtopic))
            && Dict.Get(q.topicsCovered, other) == Dict.Get(p.topicsCovered, other)
            && q.difficulty.Count(Normalize(difficulty)) == p.difficulty.Count(Normalize(difficulty)) + 1
            && q.difficulty.Total() == p.difficulty.Total() + 1
  {
    var subtopics := Dict.Get(p.topicsCovered, topic).GetOr([]);
    Dict.GetPutSame(p.topicsCovered, topic, AddSubtopic(subtopics, subtopic));
    Dict.GetPutOther(p.topicsCovered, topic, AddSubtopic(subtopics, subtopic), other);
  }

  /** What every record built by `get_progress` and `update_progress`
      satisfies: distinct topics, duplicate-free subtopic lists, non-negative
      buckets that add up to the question count. */
  predicate Consistent(p: ProgressRecord)
  {
    Dict.Valid(p.topicsCovered)
    && (forall i :: 0 <= i < |p.topicsCovered| ==> NoDup(p.topicsCovered[i].1))
    && p.difficulty.basic >= 0 && p.difficulty.intermediate >= 0 && p.difficulty.advanced >= 0
    && p.difficulty.Total() == p.totalQuestions
  }

  /** The record `get_progress` starts a new student with is consistent. */
  lemma FreshRecordConsistent(studentId: string, now: int)
    ensures Consistent(FreshRecord(studentId, now))
  {
    NoTopicsConsistent(FreshRecord(studentId, now));
  }

  /** A record without topics is consistent when its buckets are
      non-negative and add up to its question count. */
  lemma NoTopicsConsistent(p: ProgressRecord)
    requires p.topicsCovered == [] && p.difficulty.Total() == p.totalQuestions
    requires p.difficulty.basic >= 0 && p.difficulty.intermediate >= 0 && p.difficulty.advanced >= 0
    ensures Consistent(p)
  {
    assert Dict.Valid(p.topicsCovered);
  }

  /** Updates keep a record consistent; in particular, from the fresh record
      the buckets always add up to the number of questions asked. */
  lemma {:induction false} UpdatedConsistent(p: ProgressRecord, topic: string, subtopic: string,
                                             difficulty: string, now: int)
    requires Consistent(p)
    ensures Consistent(Updated(p, topic, subtopic, difficulty, now))
  {
    var d := p.topicsCovered;
    var subtopics := Dict.Get(d, topic).GetOr([]);
    var added := AddSubtopic(subtopics, subtopic);
    assert NoDup(subtopics) by {
      match Dict.IndexOf(d, topic)
      case Some(i) =>
      case None =>
    }
    AddSubtopicKeepsList(subtopics, subtopic);
    Dict.PutValid(d, topic, added);
    var d' := Dict.Put(d, topic, added);
    forall i | 0 <= i < |d'| ensures NoDup(d'[i].1) {
      match Dict.IndexOf(d, topic)
      case Some(j) =>
        if i != j {
          assert d'[i] == d[i];
        }
      case None =>
        if i < |d| {
          assert d'[i] == d[i];
        }
    }
  }

  /** `StudentProgressTracker`: the progress record it keeps in `self.progress`. */
  class StudentProgressTracker {
    const studentId: string
    var progress: ProgressRecord

    /** `__init__` through `get_progress`: the stored record when there is
        one, the fresh record otherwise. */
    constructor (studentId: string, stored: Option<ProgressRecord>, now: int)
      ensures this.studentId == studentId
      ensures progress == match stored
                          case Some(p) => p
                          case None => FreshRecord(studentId, now)
    {
      this.studentId := studentId;
      progress := match stored
                  case Some(p) => p
                  case None => FreshRecord(studentId, now);
    }

    /** `update_progress`: the record is changed field by field, in place. */
    method UpdateProgress(topic: string, subtopic: string, difficulty: string, now: int)
      modifies this
      ensures progress == Updated(old(progress), topic, subtopic, difficulty, now)
    {
      var topics := CoverTopic(progress.topicsCovered, topic, subtopic);
      progress := progress.(totalQuestions := progress.totalQuestions + 1,
                            lastActiveDate := now,
                            topicsCovered := topics,
                            difficulty := progress.difficulty.Bump(Normalize(difficulty)));
    }
  }

  /** The two writes `update_progress` makes to `topics_covered`: an empty
      list for a new topic, then the subtopic appended when it is non-empty
      and new. Together they are one write of the topic's updated list. */
  method CoverTopic(d: Dict.Dict<string, seq<string>>, topic: string, subtopic: string)
    returns (r: Dict.Dict<string, seq<string>>)
    ensures r == Dict.Put(d, topic, AddSubtopic(Dict.Get(d, topic).GetOr([]), subtopic))
  {
    r := d;
    if topic !in Dict.Keys(r) {
      r := Dict.Put(r, topic, []);
      Dict.IndexOfLast(d, topic, []);
      Dict.GetPutSame(d, topic, []);
      assert Dict.IndexOf(r, topic) == Some(|d|);
    } else {
      var i := Dict.IndexOf(d, topic).value;
      assert Dict.Put(d, topic, d[i].1) == d;
    }
    var subtopics := Dict.Get(r, topic).GetOr([]);
    if subtopic != "" && subtopic !in subtopics {
      r := Dict.Put(r, topic, subtopics + [subtopic]);
    }
  }
}
