/** Exports (export.py): the conversation history and the progress report,
    as JSON or as text. `json.dumps` is a library call, so the JSON result is
    the structure that would be serialised; the text result is the report's
    lines joined by "\n". The clock reading is the `generated` parameter. */
module Export {
  import opened Wrappers
  import opened Seqs
  import opened Text
  import Dict
  import ProgressTracker
  import Analytics
  import Utils

  /** What an export returns: the structure `json.dumps` serialises, or text. */
  datatype Exported<T> = JsonDump(value: T) | Plain(text: string)

  /** A stored conversation as the export reads it; a missing field is `None`. */
  datatype ConversationRecord = ConversationRecord(
    timestamp: Option<string>, topic: Option<string>, question: Option<string>, response: Option<string>)

  /** `c * 80`. */
  function Bar(c: char): (s: string)
    ensures |s| == 80 && forall i :: 0 <= i < 80 ==> s[i] == c
  {
    seq(80, _ => c)
  }

  // ---------------------------------------------------------------------
  // export_conversation_history

  /** The four lines that open the conversation history. */
  function HistoryHeader(studentId: string, generated: string): seq<string>
  {
    ["Conversation History for Student: " + studentId, "Generated: " + generated, Bar('='), ""]
  }

  /** The seven lines of conversation number `n`, with the defaults of the
      missing fields. */
  function Block(n: nat, c: ConversationRecord): seq<string>
  {
    ["Conversation " + NatToString(n),
     "Date: " + c.timestamp.GetOr("Unknown"),
     "Topic: " + c.topic.GetOr("General"),
     "Question: " + c.question.GetOr(""),
     "Answer: " + c.response.GetOr(""),
     Bar('-'),
     ""]
  }

  /** The lines of the text history. */
  function HistoryLines(studentId: string, generated: string, convs: seq<ConversationRecord>): seq<string>
    decreases |convs|
  {
    if convs == [] then HistoryHeader(studentId, generated)
    else HistoryLines(studentId, generated, convs[..|convs| - 1]) + Block(|convs|, convs[|convs| - 1])
  }

  /** The text history is the header and then exactly seven lines per
      conversation, numbered from 1 in input order. */
  lemma {:induction false} HistoryLinesShape(studentId: string, generated: string, convs: seq<ConversationRecord>)
    ensures |HistoryLines(studentId, generated, convs)| == 4 + 7 * |convs|
    ensures HistoryLines(studentId, generated, convs)[..4] == HistoryHeader(studentId, generated)
    ensures forall i :: 0 <= i < |convs| ==>
              HistoryLines(studentId, generated, convs)[4 + 7 * i..4 + 7 * i + 7] == Block(i + 1, convs[i])
    decreases |convs|
  {
    if convs != [] {
      var prefix := convs[..|convs| - 1];
      HistoryLinesShape(studentId, generated, prefix);
      var before := HistoryLines(studentId, generated, prefix);
      var last := Block(|convs|, convs[|convs| - 1]);
      var lines := before + last;
      assert HistoryLines(studentId, generated, convs) == lines;
      assert |before| == 4 + 7 * |prefix|;
      assert lines[..4] == before[..4];
      forall i | 0 <= i < |convs| ensures lines[4 + 7 * i..4 + 7 * i + 7] == Block(i + 1, convs[i]) {
        if i < |prefix| {
          assert 4 + 7 * i + 7 <= |before|;
          assert lines[4 + 7 * i..4 + 7 * i + 7] == before[4 + 7 * i..4 + 7 * i + 7];
          assert convs[i] == prefix[i];
        } else {
          assert 4 + 7 * i == |before|;
          assert lines[4 + 7 * i..4 + 7 * i + 7] == last;
        }
      }
    }
  }

  /** `export_conversation_history`: text for a format that lower-cases to
      "txt", the conversations as JSON for "json" and for any other format. */
  method ExportConversationHistory(studentId: string, convs: seq<ConversationRecord>, format: string, generated: string)
    returns (out: Exported<seq<ConversationRecord>>)
    ensures Lower(format) == "txt" ==> out == Plain(Join(HistoryLines(studentId, generated, convs), "\n"))
    ensures Lower(format) != "txt" ==> out == JsonDump(convs)
  {
    if Lower(format) == "json" {
      return JsonDump(convs);
    } else if Lower(format) == "txt" {
      var lines := HistoryHeader(studentId, generated);
      var i := 0;
      while i < |convs|
        invariant 0 <= i <= |convs| && lines == HistoryLines(studentId, generated, convs[..i])
      {
        assert convs[..i + 1][..i] == convs[..i];
        var c := convs[i];
        lines := lines + ["Conversation " + NatToString(i + 1)];
        lines := lines + ["Date: " + c.timestamp.GetOr("Unknown")];
        lines := lines + ["Topic: " + c.topic.GetOr("General")];
        lines := lines + ["Question: " + c.question.GetOr("")];
        lines := lines + ["Answer: " + c.response.GetOr("")];
        lines := lines + [Bar('-')];
        lines := lines + [""];
        i := i + 1;
      }
      assert convs[..i] == convs;
      return Plain(Join(lines, "\n"));
    } else {
      return JsonDump(convs);
    }
  }

  // ---------------------------------------------------------------------
  // export_progress_report

  datatype Summary = Summary(totalQuestions: int, topicsCovered: nat, learningStreak: int, masteryLevel: real)

  /** The report: the student, the generation time, the progress record,
      the summary and the recommendations of the analytics. */
  datatype Report = Report(studentId: string, generatedAt: string, progress: ProgressTracker.ProgressRecord,
                           summary: Summary, recommendations: seq<string>)

  /** The report `export_progress_report` assembles: the summary takes the
      question and topic counts from the progress record and the streak and
      mastery level from the analytics. */
  function ReportOf(studentId: string, progress: ProgressTracker.ProgressRecord,
                    convs: seq<Analytics.Conversation>, generated: string): (r: Report)
    ensures r.summary.totalQuestions == progress.totalQuestions
    ensures r.summary.topicsCovered == |progress.topicsCovered|
    ensures r.summary.learningStreak == Utils.Streak(Analytics.StreakDates(convs))
    ensures r.summary.masteryLevel == Analytics.PerformanceMetrics(progress.difficulty).masteryLevel
    ensures progress.difficulty.Total() != 0 ==> r.summary.masteryLevel <= 100.0
  {
    var streak := Utils.Streak(Analytics.StreakDates(convs));
    Report(studentId, generated, progress,
           Summary(progress.totalQuestions, |progress.topicsCovered|, streak,
                   Analytics.PerformanceMetrics(progress.difficulty).masteryLevel),
           Analytics.Messages(Analytics.Advice(progress.totalQuestions, progress.difficulty.advanced,
                                               |progress.topicsCovered|, streak)))
  }

  /** The fourteen lines before the topics: the banner, the four summary
      lines, and the heading of the topics. */
  function ReportHead(r: Report, show: real -> string): (head: seq<string>)
    ensures |head| == 14
    ensures head[1] == "PROGRESS REPORT - " + r.studentId && head[2] == "Generated: " + r.generatedAt
    ensures head[7] == "Total Questions Asked: " + IntToString(r.summary.totalQuestions)
    ensures head[8] == "Topics Explored: " + NatToString(r.summary.topicsCovered)
    ensures head[9] == "Learning Streak: " + IntToString(r.summary.learningStreak) + " days"
    ensures head[10] == "Mastery Level: " + show(r.summary.masteryLevel) + "%"
  {
    ReportBanner(r) + SummaryLines(r.summary, show) + ["", "TOPICS COVERED", Bar('-')]
  }

  /** The seven lines that open the report. */
  function ReportBanner(r: Report): (lines: seq<string>)
    ensures |lines| == 7
    ensures lines[1] == "PROGRESS REPORT - " + r.studentId && lines[2] == "Generated: " + r.generatedAt
  {
    [Bar('='), "PROGRESS REPORT - " + r.studentId, "Generated: " + r.generatedAt, Bar('='), "",
     "SUMMARY", Bar('-')]
  }

  /** The four summary lines; `show` is how Python prints the mastery level. */
  function SummaryLines(s: Summary, show: real -> string): (lines: seq<string>)
    ensures |lines| == 4
  {
    ["Total Questions Asked: " + IntToString(s.totalQuestions),
     "Topics Explored: " + NatToString(s.topicsCovered),
     "Learning Streak: " + IntToString(s.learningStreak) + " days",
     "Mastery Level: " + show(s.masteryLevel) + "%"]
  }

  /** `f"{topic}: {', '.join(subtopics) if subtopics else 'None'}"`. */
  function TopicLine(entry: (string, seq<string>)): string
  {
    entry.0 + ": " + if entry.1 == [] then "None" else Join(entry.1, ", ")
  }

  function TopicLines(topics: Dict.Dict<string, seq<string>>): (ls: seq<string>)
    ensures |ls| == |topics| && forall i :: 0 <= i < |topics| ==> ls[i] == TopicLine(topics[i])
  {
    seq(|topics|, i requires 0 <= i < |topics| => TopicLine(topics[i]))
  }

  function RecommendationLines(recs: seq<string>): (ls: seq<string>)
    ensures |ls| == |recs| && forall i :: 0 <= i < |recs| ==> ls[i] == "- " + recs[i]
  {
    seq(|recs|, i requires 0 <= i < |recs| => "- " + recs[i])
  }

  /** The lines of the text report. */
  function ReportLines(r: Report, show: real -> string): seq<string>
  {
    ReportHead(r, show) + TopicLines(r.progress.topicsCovered)
    + ["", "RECOMMENDATIONS", Bar('-')] + RecommendationLines(r.recommendations)
  }

  /** The text report has the fourteen head lines, one line per topic in
      record order ("None" for a topic without subtopics), three lines, and
      one "- " line per recommendation, in order. */
  lemma ReportLinesShape(r: Report, show: real -> string)
    ensures var lines := ReportLines(r, show);
            var n := |r.progress.topicsCovered|;
            |lines| == 17 + n + |r.recommendations|
            && lines[1] == "PROGRESS REPORT - " + r.studentId
            && lines[2] == "Generated: " + r.generatedAt
            && lines[7] == "Total Questions Asked: " + IntToString(r.summary.totalQuestions)
            && lines[8] == "Topics Explored: " + NatToString(r.summary.topicsCovered)
            && lines[9] == "Learning Streak: " + IntToString(r.summary.learningStreak) + " days"
            && lines[10] == "Mastery Level: " + show(r.summary.masteryLevel) + "%"
            && (forall i :: 0 <= i < n ==> lines[14 + i] == TopicLine(r.progress.topicsCovered[i]))
            && (forall i :: 0 <= i < n && r.progress.topicsCovered[i].1 == [] ==>
                  lines[14 + i] == r.progress.topicsCovered[i].0 + ": None")
            && lines[14 + n + 1] == "RECOMMENDATIONS"
            && (forall j :: 0 <= j < |r.recommendations| ==> lines[17 + n + j] == "- " + r.recommendations[j])
  {
  }

  /** The `for topic, subtopics in ...` loop: one line per topic. */
  method AppendTopicLines(lines: seq<string>, topics: Dict.Dict<string, seq<string>>) returns (r: seq<string>)
    ensures r == lines + TopicLines(topics)
  {
    r := lines;
    var i := 0;
    while i < |topics|
      invariant 0 <= i <= |topics| && r == lines + TopicLines(topics[..i])
    {
      assert TopicLines(topics[..i + 1]) == TopicLines(topics[..i]) + [TopicLine(topics[i])];
      r := r + [TopicLine(topics[i])];
      i := i + 1;
    }
    assert topics[..i] == topics;
  }

  /** The `for rec in recommendations` loop: one "- " line per recommendation. */
  method AppendRecommendationLines(lines: seq<string>, recs: seq<string>) returns (r: seq<string>)
    ensures r == lines + RecommendationLines(recs)
  {
    r := lines;
    var j := 0;
    while j < |recs|
      invariant 0 <= j <= |recs| && r == lines + RecommendationLines(recs[..j])
    {
      assert RecommendationLines(recs[..j + 1]) == RecommendationLines(recs[..j]) + ["- " + recs[j]];
      r := r + ["- " + recs[j]];
      j := j + 1;
    }
    assert recs[..j] == recs;
  }

  /** The text of the report: the head, the topic lines, three lines, the
      recommendation lines. */
  method ReportText(report: Report, show: real -> string) returns (text: string)
    ensures text == Join(ReportLines(report, show), "\n")
  {
    var lines := ReportHead(report, show);
    lines := AppendTopicLines(lines, report.progress.topicsCovered);
    lines := lines + ["", "RECOMMENDATIONS", Bar('-')];
    lines := AppendRecommendationLines(lines, report.recommendations);
    text := Join(lines, "\n");
  }

  /** `export_progress_report` for the student's record and conversations:
      text for a format that lower-cases to "txt", the report as JSON for
      "json" and for any other format. */
  method ExportProgressReport(studentId: string, progress: ProgressTracker.ProgressRecord,
                              convs: seq<Analytics.Conversation>, format: string, generated: string,
                              now: int, show: real -> string)
    returns (out: Exported<Report>)
    ensures Lower(format) == "txt" ==>
              out == Plain(Join(ReportLines(ReportOf(studentId, progress, convs, generated), show), "\n"))
    ensures Lower(format) != "txt" ==> out == JsonDump(ReportOf(studentId, progress, convs, generated))
  {
    var overview := Analytics.GetOverviewStats(progress, convs, now);
    var metrics := Analytics.PerformanceMetrics(progress.difficulty);
    var recs := Analytics.GenerateRecommendations(progress, convs);
    var summary := Summary(progress.totalQuestions, |progress.topicsCovered|, overview.learningStreak,
                           metrics.masteryLevel);
    var report := Report(studentId, generated, progress, summary, recs);
    assert report == ReportOf(studentId, progress, convs, generated);
    if Lower(format) == "json" {
      return JsonDump(report);
    } else if Lower(format) == "txt" {
      var text := ReportText(report, show);
      return Plain(text);
    } else {
      return JsonDump(report);
    }
  }
}
