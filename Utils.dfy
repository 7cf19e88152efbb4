/** Text and date helpers (utils.py): whitespace cleaning, the day streak,
    "time ago" phrases, student-id validation, word chunking and file-name
    sanitising. Dates are day numbers; a date that does not parse is `None`. */
module Utils {
  import opened Wrappers
  import opened Seqs
  import opened Text

  // ---------------------------------------------------------------------
  // clean_text

  /** `re.sub(r'\s+', ' ', s)`: every maximal run of whitespace becomes one space. */
  function Collapse(s: string): string
    decreases |s|
  {
    if s == [] then []
    else if IsSpace(s[0]) then [' '] + Collapse(TrimLeft(s[1..], IsSpace))
    else [s[0]] + Collapse(s[1..])
  }

  /** Two neighbouring characters are not both whitespace. */
  predicate Apart(a: char, b: char)
  {
    !(IsSpace(a) && IsSpace(b))
  }

  /** The only whitespace is single spaces, never two in a row. */
  ghost predicate Collapsed(s: string)
  {
    && (forall i :: 0 <= i < |s| && IsSpace(s[i]) ==> s[i] == ' ')
    && (forall i, j {:trigger Apart(s[i], s[j])} :: 0 <= i < j < |s| && j == i + 1 ==> Apart(s[i], s[j]))
  }

  /** Collapsing leaves no run of whitespace and brings in no character
      other than the space. */
  lemma {:induction false} CollapseProperties(s: string)
    ensures Collapsed(Collapse(s))
    ensures forall c :: c in Collapse(s) ==> c == ' ' || c in s
    decreases |s|, 1
  {
    if s != [] {
      if IsSpace(s[0]) {
        CollapseSpaceProperties(s);
      } else {
        CollapseCharProperties(s);
      }
    }
  }

  /** A whitespace run at the front becomes one space before the collapse
      of the rest, which opens with a non-whitespace character if anything. */
  lemma {:induction false} CollapseSpaceProperties(s: string)
    requires s != [] && IsSpace(s[0])
    ensures Collapsed(Collapse(s))
    ensures forall c :: c in Collapse(s) ==> c == ' ' || c in s
    decreases |s|, 0
  {
    var t := TrimLeft(s[1..], IsSpace);
    var c := Collapse(t);
    assert Collapse(s) == [' '] + c;
    CollapseProperties(t);
    assert c == [] || !IsSpace(c[0]) by {
      if t != [] {
        assert c[0] == t[0];
      }
    }
    SpaceBeforeCollapsed(c);
    assert forall x :: x in t ==> x in s by {
      assert t == s[1..][|s[1..]| - |t|..];
      SuffixIn(s, |s| - |t|);
    }
  }

  /** One space before a collapsed text that does not open with whitespace
      keeps it collapsed. */
  lemma SpaceBeforeCollapsed(c: string)
    requires Collapsed(c) && (c == [] || !IsSpace(c[0]))
    ensures Collapsed([' '] + c)
  {
    var r := [' '] + c;
    forall i, j | 0 <= i < j < |r| && j == i + 1 ensures Apart(r[i], r[j]) {
      if i > 0 {
        assert r[i] == c[i - 1] && r[j] == c[j - 1];
      }
    }
    forall i | 0 < i < |r| ensures r[i] == c[i - 1] {
    }
  }

  /** The characters of a suffix are characters of the text. */
  lemma SuffixIn(s: string, k: nat)
    requires k <= |s|
    ensures forall x :: x in s[k..] ==> x in s
  {
    forall x | x in s[k..] ensures x in s {
      var i :| 0 <= i < |s[k..]| && s[k..][i] == x;
      assert s[k + i] == x;
    }
  }

  /** A non-whitespace character at the front is kept before the collapse
      of the rest. */
  lemma {:induction false} CollapseCharProperties(s: string)
    requires s != [] && !IsSpace(s[0])
    ensures Collapsed(Collapse(s))
    ensures forall c :: c in Collapse(s) ==> c == ' ' || c in s
    decreases |s|, 0
  {
    CollapseProperties(s[1..]);
    var r := Collapse(s);
    var c := Collapse(s[1..]);
    assert r == [s[0]] + c;
    forall i, j | 0 <= i < j < |r| && j == i + 1 ensures Apart(r[i], r[j]) {
      if i > 0 {
        assert r[i] == c[i - 1] && r[j] == c[j - 1];
      }
    }
    forall i | 0 < i < |r| ensures r[i] == c[i - 1] {
    }
  }

  /** The characters `clean_text` keeps in its last step. */
  function NotNul(c: char): bool
  {
    c != '\U{0}'
  }

  /** `clean_text`: whitespace runs collapsed, the ends stripped, then NUL
      characters removed. The result never holds a NUL. */
  function CleanText(text: string): (r: string)
    ensures text == "" ==> r == ""
    ensures forall i :: 0 <= i < |r| ==> r[i] != '\U{0}'
  {
    if text == "" then ""
    else
      var stripped := Strip(Collapse(text));
      FilterSound(stripped, NotNul);
      assert forall i :: 0 <= i < |Filter(stripped, NotNul)| ==> Filter(stripped, NotNul)[i] in Filter(stripped, NotNul);
      Filter(stripped, NotNul)
  }

  /** On a text without NUL, the result has no whitespace at either end, only
      single spaces inside, and no two whitespace characters in a row. */
  lemma CleanTextShape(text: string)
    requires forall i :: 0 <= i < |text| ==> text[i] != '\U{0}'
    ensures var r := CleanText(text);
            (r == [] || (!IsSpace(r[0]) && !IsSpace(r[|r| - 1])))
            && Collapsed(r)
  {
    if text != "" {
      var c := Collapse(text);
      CollapseNoNul(text);
      TrimKeeps(c, IsSpace, NotNul);
      FilterKeepsAll(Strip(c), NotNul);
      assert CleanText(text) == Strip(c);
      CollapseProperties(text);
      TrimCollapsed(c, IsSpace);
    }
  }

  /** `clean_text` is the words of the text joined by single spaces, with
      NUL characters then removed; on a text without NUL, cleaning keeps the
      words of `str.split()` as they were. */
  lemma CleanTextWords(text: string)
    ensures CleanText(text) == Filter(Join(Words(text), " "), NotNul)
    ensures (forall i :: 0 <= i < |text| ==> text[i] != '\U{0}') ==> Words(CleanText(text)) == Words(text)
  {
    if text != "" {
      StripCollapse(text);
    }
    if forall i :: 0 <= i < |text| ==> text[i] != '\U{0}' {
      var j := Join(Words(text), " ");
      if text != "" {
        CollapseNoNul(text);
        TrimKeeps(Collapse(text), IsSpace, NotNul);
      }
      FilterKeepsAll(j, NotNul);
      WordsOfJoin(Words(text));
    }
  }

  /** Collapsing then stripping joins the words by single spaces. */
  lemma {:induction false} StripCollapse(s: string)
    ensures Strip(Collapse(s)) == Join(Words(s), " ")
    decreases |s|, 3
  {
    if s != [] && IsSpace(s[0]) {
      StripCollapseSpace(s);
    } else if s != [] {
      StripCollapseWord(s);
    }
  }

  /** Leading whitespace collapses to one space, which stripping drops. */
  lemma {:induction false} StripCollapseSpace(s: string)
    requires s != [] && IsSpace(s[0])
    ensures Strip(Collapse(s)) == Join(Words(s), " ")
    decreases |s|, 2
  {
    var t := TrimLeft(s[1..], IsSpace);
    calc {
      Strip(Collapse(s));
      { assert Collapse(s) == [' '] + Collapse(t); }
      Trim([' '] + Collapse(t), IsSpace);
      { TrimDropsHead(' ', Collapse(t), IsSpace); }
      Strip(Collapse(t));
      { StripCollapse(t); }
      Join(Words(t), " ");
      { WordsTrimLeft(s[1..]); }
      Join(Words(s), " ");
    }
  }

  /** A leading word is kept whole, followed by one space when more words
      come after it. */
  lemma {:induction false} StripCollapseWord(s: string)
    requires s != [] && !IsSpace(s[0])
    ensures Strip(Collapse(s)) == Join(Words(s), " ")
    decreases |s|, 2
  {
    var w := WordPrefix(s);
    var rest := s[|w|..];
    assert s == w + rest;
    CollapseWord(w, rest);
    assert Words(s) == [w] + Words(rest);
    StripWordRest(w, rest);
  }

  /** A word followed by what comes after it, which opens with whitespace
      if anything. */
  lemma {:induction false} StripWordRest(w: string, rest: string)
    requires IsWord(w) && (rest == [] || IsSpace(rest[0]))
    ensures Strip(w + Collapse(rest)) == Join([w] + Words(rest), " ")
    decreases |w| + |rest|, 1
  {
    if rest == [] {
      assert w + Collapse(rest) == w && [w] + Words(rest) == [w];
      TrimWhole(w, IsSpace);
    } else {
      var t := TrimLeft(rest[1..], IsSpace);
      assert Collapse(rest) == [' '] + Collapse(t);
      assert Words(rest) == Words(t) by {
        WordsTrimLeft(rest[1..]);
      }
      if t == [] {
        assert w + Collapse(rest) == w + [' '] && [w] + Words(rest) == [w];
        TrimDropsLast(w, ' ', IsSpace);
      } else {
        assert w + Collapse(rest) == w + [' '] + Collapse(t);
        StripWordThen(w, t);
      }
    }
  }

  /** A word, one space and a text that opens with a word. */
  lemma {:induction false} StripWordThen(w: string, t: string)
    requires IsWord(w) && t != [] && !IsSpace(t[0])
    ensures Strip(w + [' '] + Collapse(t)) == Join([w] + Words(t), " ")
    decreases |w| + |t|, 0
  {
    var c := Collapse(t);
    assert c != [] && c[0] == t[0];
    calc {
      Strip(w + [' '] + c);
      { TrimAfter(w + [' '], c, IsSpace); }
      w + [' '] + Strip(c);
      { StripCollapse(t); }
      w + [' '] + Join(Words(t), " ");
      { assert |[w] + Words(t)| > 1 && ([w] + Words(t))[1..] == Words(t); }
      Join([w] + Words(t), " ");
    }
  }

  /** Collapsing passes over a word unchanged. */
  lemma {:induction false} CollapseWord(w: string, rest: string)
    requires IsWord(w)
    ensures Collapse(w + rest) == w + Collapse(rest)
    decreases |w|
  {
    var u := w[1..] + rest;
    assert w + rest == [w[0]] + u;
    CollapseHead(w[0], u);
    if |w| == 1 {
      assert u == rest && [w[0]] == w;
    } else {
      assert IsWord(w[1..]) by {
        forall i | 0 <= i < |w[1..]| ensures !IsSpace(w[1..][i]) {
          assert w[1..][i] == w[i + 1];
        }
      }
      CollapseWord(w[1..], rest);
      assert [w[0]] + (w[1..] + Collapse(rest)) == w + Collapse(rest);
    }
  }

  /** A non-whitespace character is kept in front of the collapse of the rest. */
  lemma CollapseHead(x: char, u: string)
    requires !IsSpace(x)
    ensures Collapse([x] + u) == [x] + Collapse(u)
  {
    assert ([x] + u)[0] == x && ([x] + u)[1..] == u;
  }

  /** Collapsing brings in no NUL. */
  lemma CollapseNoNul(text: string)
    requires forall i :: 0 <= i < |text| ==> text[i] != '\U{0}'
    ensures forall i :: 0 <= i < |Collapse(text)| ==> NotNul(Collapse(text)[i])
  {
    var c := Collapse(text);
    CollapseProperties(text);
    forall i | 0 <= i < |c| ensures NotNul(c[i]) {
      assert c[i] in c;
    }
  }

  /** Trimming a collapsed text at either end leaves it collapsed. */
  lemma TrimCollapsed(s: string, drop: char -> bool)
    requires Collapsed(s)
    ensures Collapsed(Trim(s, drop))
  {
    var single := (c: char) => IsSpace(c) ==> c == ' ';
    assert forall i :: 0 <= i < |s| ==> single(s[i]);
    TrimKeeps(s, drop, single);
    TrimKeepsNeighbours(s, drop, Apart);
  }

  /** Stripping happens before NUL removal, so a NUL shields the space
      behind it: "\x00 a" cleans to " a". */
  lemma CleanTextNulFirst()
    ensures CleanText("\U{0} a") == " a"
  {
    var s := "\U{0} a";
    assert "a"[1..] == [];
    assert Collapse("a") == "a";
    assert " a"[1..] == "a";
    assert TrimLeft("a", IsSpace) == "a";
    assert Collapse(" a") == " a";
    assert s[1..] == " a";
    assert Collapse(s) == s;
    assert TrimLeft(s, IsSpace) == s;
    assert TrimRight(s, IsSpace) == s;
    assert s[..2][..1] == "\U{0}";
    assert Filter(s[..1], NotNul) == [];
    assert Filter(s[..2], NotNul) == " ";
  }

  // ---------------------------------------------------------------------
  // calculate_streak

  /** The largest day of a non-empty list. */
  function Max(days: seq<int>): (m: int)
    requires days != []
    ensures m in days && forall d :: d in days ==> d <= m
    decreases |days|
  {
    if |days| == 1 then days[0]
    else
      var rest := Max(days[1..]);
      assert forall d :: d in days[1..] ==> d in days;
      assert forall d :: d in days ==> d == days[0] || d in days[1..];
      if days[0] >= rest then days[0] else rest
  }

  /** `streak` is the length of the run of consecutive days ending at
      `latest`: those days all occur, the one before them does not. */
  predicate IsStreak(days: seq<int>, latest: int, streak: int)
  {
    streak >= 1 && (forall d :: latest - streak < d <= latest ==> d in days) && latest - streak !in days
  }

  /** There is only one such run. */
  lemma StreakUnique(days: seq<int>, latest: int, a: int, b: int)
    requires IsStreak(days, latest, a) && IsStreak(days, latest, b)
    ensures a == b
  {
  }

  /** The days `latest`, `latest - 1`, ..., `latest - (n - 1)`. */
  function DaysBack(latest: int, n: nat): (s: set<int>)
    ensures |s| == n
    ensures forall d :: d in s <==> latest - n < d <= latest
  {
    if n == 0 then {} else DaysBack(latest, n - 1) + {latest - (n - 1)}
  }

  /** A streak never exceeds the number of distinct days. */
  lemma StreakBound(days: seq<int>, latest: int, streak: int)
    requires IsStreak(days, latest, streak)
    ensures streak <= |set d | d in days|
  {
    var back := DaysBack(latest, streak);
    SubsetCardinality(back, set d | d in days);
  }

  lemma SubsetCardinality<T>(a: set<T>, b: set<T>)
    requires a <= b
    ensures |a| <= |b|
    decreases |a|
  {
    if a != {} {
      var x :| x in a;
      SubsetCardinality(a - {x}, b - {x});
    }
  }

  /** What the scan leaves behind makes a streak of the unsorted days: the
      first sorted day is their maximum, and the run read off `sorted` is a
      run of `days`. */
  lemma StreakResult(days: seq<int>, sorted: seq<int>, streak: int, current: int)
    requires sorted != [] && forall d :: d in sorted <==> d in days
    requires forall k :: 0 <= k < |sorted| ==> sorted[k] <= sorted[0]
    requires streak >= 1 && current == sorted[0] - (streak - 1)
    requires forall d :: current <= d <= sorted[0] ==> d in sorted
    requires current - 1 !in sorted
    ensures days != [] && IsStreak(days, Max(days), streak)
  {
    assert sorted[0] in days;
    var m := Max(days);
    assert m in sorted;
    assert m == sorted[0];
  }

  function Id(d: int): int
  {
    d
  }

  /** After the scan stops at `i`: the day before the run is missing. The
      list is sorted, the days before `i` are all at least `current` and
      the first day not scanned, if any, is at least two days earlier. */
  lemma StreakScanEnd(sorted: seq<int>, i: nat, current: int)
    requires 1 <= i <= |sorted| && SortedDesc(sorted, Id)
    requires forall k :: 0 <= k < i ==> sorted[k] >= current
    requires i < |sorted| ==> sorted[i] < current - 1
    ensures current - 1 !in sorted
  {
    forall k | 0 <= k < |sorted| ensures sorted[k] != current - 1 {
      if k >= i {
        assert Id(sorted[i]) >= Id(sorted[k]) || k == i;
      }
    }
  }

  /** The scan of `calculate_streak` over the parsed days: sort them, newest
      first, and count back from the newest day while the next day is the
      same day or the day before. */
  method StreakOf(days: seq<int>) returns (streak: int)
    requires days != []
    ensures IsStreak(days, Max(days), streak)
  {
    var sorted := SortDesc(days, Id);
    SortDescSorted(days, Id);
    assert forall d :: d in sorted <==> d in days by {
      assert forall d :: d in sorted <==> d in multiset(sorted);
    }
    streak := 1;
    var current := sorted[0];
    var i := 1;
    while i < |sorted|
      invariant 1 <= i <= |sorted| && streak >= 1
      invariant current == sorted[0] - (streak - 1) && sorted[i - 1] == current
      invariant forall d :: current <= d <= sorted[0] ==> d in sorted
      invariant forall k :: 0 <= k < i ==> sorted[k] >= current
    {
      assert Id(sorted[i - 1]) >= Id(sorted[i]);
      var gap := current - sorted[i];
      if gap == 1 {
        streak := streak + 1;
        current := sorted[i];
      } else if gap == 0 {
      } else {
        break;
      }
      i := i + 1;
    }
    StreakScanEnd(sorted, i, current);
    forall k | 0 <= k < |sorted| ensures sorted[k] <= sorted[0] {
      assert k == 0 || Id(sorted[0]) >= Id(sorted[k]);
    }
    StreakResult(days, sorted, streak, current);
  }

  /** The number of consecutive days in `days` counting back from
      `latest`, looking at no more than `bound` days. */
  function RunLength(days: seq<int>, latest: int, bound: nat): (n: nat)
    ensures n <= bound
    decreases bound
  {
    if bound == 0 || latest !in days then 0 else 1 + RunLength(days, latest - 1, bound - 1)
  }

  /** The parsed days, when every date parses. */
  function ParsedDays(dates: seq<Option<int>>): seq<int>
    requires forall i :: 0 <= i < |dates| ==> dates[i].Some?
  {
    seq(|dates|, i requires 0 <= i < |dates| => dates[i].value)
  }

  /** What `calculate_streak` returns. */
  function Streak(dates: seq<Option<int>>): nat
  {
    if dates == [] || exists i :: 0 <= i < |dates| && dates[i].None? then 0
    else
      var days := ParsedDays(dates);
      RunLength(days, Max(days), |days| + 1)
  }

  lemma {:induction false} RunLengthRun(days: seq<int>, latest: int, bound: nat)
    ensures var n := RunLength(days, latest, bound);
            (forall d :: latest - n < d <= latest ==> d in days)
            && (n < bound ==> latest - n !in days)
    decreases bound
  {
    if bound != 0 && latest in days {
      RunLengthRun(days, latest - 1, bound - 1);
    }
  }

  lemma {:induction false} DistinctAtMostLength(days: seq<int>)
    ensures |set d | d in days| <= |days|
    decreases |days|
  {
    if days != [] {
      var prefix := days[..|days| - 1];
      DistinctAtMostLength(prefix);
      assert (set d | d in days) == (set d | d in prefix) + {days[|days| - 1]} by {
        assert days == prefix + [days[|days| - 1]];
      }
    }
  }

  /** `calculate_streak` counts back from the latest date: 0 for no dates
      or a date that does not parse, otherwise the length of the run of
      consecutive days that ends at the latest day, between 1 and the
      number of distinct days. */
  lemma StreakMeaning(dates: seq<Option<int>>)
    ensures dates == [] ==> Streak(dates) == 0
    ensures (exists i :: 0 <= i < |dates| && dates[i].None?) ==> Streak(dates) == 0
    ensures dates != [] && (forall i :: 0 <= i < |dates| ==> dates[i].Some?) ==>
              var days := ParsedDays(dates);
              IsStreak(days, Max(days), Streak(dates))
              && 1 <= Streak(dates) <= |set d | d in days|
  {
    if dates != [] && forall i :: 0 <= i < |dates| ==> dates[i].Some? {
      var days := ParsedDays(dates);
      var latest := Max(days);
      var n := Streak(dates);
      RunLengthRun(days, latest, |days| + 1);
      DistinctAtMostLength(days);
      if n == |days| + 1 {
        SubsetCardinality(DaysBack(latest, n), set d | d in days);
        assert false;
      }
      assert IsStreak(days, latest, n);
      StreakBound(days, latest, n);
    }
  }

  /** `calculate_streak`. */
  method CalculateStreak(dates: seq<Option<int>>) returns (streak: int)
    ensures streak == Streak(dates)
  {
    if |dates| == 0 {
      return 0;
    }
    var days: seq<int> := [];
    var i := 0;
    while i < |dates|
      invariant 0 <= i <= |dates| && |days| == i
      invariant forall j :: 0 <= j < i ==> dates[j].Some? && days[j] == dates[j].value
    {
      if dates[i].None? {
        assert dates[i].None?;
        return 0;
      }
      days := days + [dates[i].value];
      i := i + 1;
    }
    assert days == ParsedDays(dates);
    streak := StreakOf(days);
    StreakMeaning(dates);
    StreakUnique(days, Max(days), streak, Streak(dates));
  }

  // ---------------------------------------------------------------------
  // format_time_ago

  /** What `format_time_ago` reports: a count of some unit, or "just now". */
  datatype Ago = JustNow | Ago(count: int, unit: string)

  /** The bucket for a difference of `elapsed` seconds (now minus then).
      As Python's `timedelta`, the difference splits into whole days,
      rounded down, and the seconds left over, in 0..86399. */
  function TimeAgoOf(elapsed: int): (a: Ago)
    ensures a.Ago? ==> a.count >= 1
    ensures (a.Ago? && a.unit == "year") <==> elapsed / 86400 > 365
    ensures (a.Ago? && a.unit == "month") <==> 30 < elapsed / 86400 <= 365
    ensures (a.Ago? && a.unit == "day") <==> 0 < elapsed / 86400 <= 30
    ensures (a.Ago? && a.unit == "hour") <==> elapsed / 86400 <= 0 && elapsed % 86400 > 3600
    ensures (a.Ago? && a.unit == "minute") <==> elapsed / 86400 <= 0 && 60 < elapsed % 86400 <= 3600
    ensures a.JustNow? <==> elapsed / 86400 <= 0 && elapsed % 86400 <= 60
    ensures a.Ago? && a.unit == "year" ==> a.count == (elapsed / 86400) / 365
    ensures a.Ago? && a.unit == "month" ==> a.count == (elapsed / 86400) / 30
    ensures a.Ago? && a.unit == "day" ==> a.count == elapsed / 86400
    ensures a.Ago? && a.unit == "hour" ==> a.count == (elapsed % 86400) / 3600
    ensures a.Ago? && a.unit == "minute" ==> a.count == (elapsed % 86400) / 60
  {
    var days := elapsed / 86400;
    var seconds := elapsed % 86400;
    if days > 365 then Ago(days / 365, "year")
    else if days > 30 then Ago(days / 30, "month")
    else if days > 0 then Ago(days, "day")
    else if seconds > 3600 then Ago(seconds / 3600, "hour")
    else if seconds > 60 then Ago(seconds / 60, "minute")
    else JustNow
  }

  /** `f"{n} {unit}{'s' if n > 1 else ''} ago"`, or "just now". */
  function Phrase(a: Ago): string
  {
    match a
    case JustNow => "just now"
    case Ago(n, unit) => IntToString(n) + " " + unit + (if n > 1 then "s" else "") + " ago"
  }

  /** `format_time_ago` for a datetime `elapsed` seconds in the past. */
  function FormatTimeAgo(elapsed: int): string
  {
    Phrase(TimeAgoOf(elapsed))
  }

  /** The unit gets an "s" exactly when the count is above 1. */
  lemma PluralExactlyAboveOne(elapsed: int)
    ensures var a := TimeAgoOf(elapsed);
            var s := FormatTimeAgo(elapsed);
            a.Ago? ==> (s[..|s| - 4] == IntToString(a.count) + " " + a.unit + "s" <==> a.count > 1)
  {
    var a := TimeAgoOf(elapsed);
    if a.Ago? {
      var s := FormatTimeAgo(elapsed);
      var stem := IntToString(a.count) + " " + a.unit;
      if a.count > 1 {
        assert s == stem + "s" + " ago";
      } else {
        assert s == stem + "" + " ago";
        assert |s[..|s| - 4]| == |stem|;
      }
    }
  }

  /** Up to a minute ago reads "just now"; an hour or less, minutes; less
      than a day, hours. */
  lemma RecentPhrases(elapsed: int)
    requires 0 <= elapsed < 86400
    ensures elapsed <= 60 ==> FormatTimeAgo(elapsed) == "just now"
    ensures 60 < elapsed <= 3600 ==> TimeAgoOf(elapsed) == Ago(elapsed / 60, "minute")
    ensures 3600 < elapsed ==> TimeAgoOf(elapsed) == Ago(elapsed / 3600, "hour")
  {
  }

  /** A datetime one second in the future is a difference of -1 day plus
      86399 seconds, which reads "23 hours ago". */
  lemma OneSecondAhead()
    ensures FormatTimeAgo(-1) == "23 hours ago"
  {
    assert -1 / 86400 == -1 && -1 % 86400 == 86399;
    assert TimeAgoOf(-1) == Ago(23, "hour");
    assert NatToString(23) == "23" by {
      assert NatToString(2) == "2";
      assert NatToString(23) == NatToString(2) + [Digit(3)];
    }
  }

  // ---------------------------------------------------------------------
  // validate_student_id

  /** A character of the class `[a-zA-Z0-9_-]`. */
  predicate IdChar(c: char)
  {
    'a' <= c <= 'z' || 'A' <= c <= 'Z' || '0' <= c <= '9' || c == '_' || c == '-'
  }

  /** How many characters the greedy `[a-zA-Z0-9_-]+` takes from the front of `s`. */
  function IdRun(s: string): (n: nat)
    ensures n <= |s| && forall i :: 0 <= i < n ==> IdChar(s[i])
    ensures n < |s| ==> !IdChar(s[n])
    decreases |s|
  {
    if s == [] || !IdChar(s[0]) then 0 else 1 + IdRun(s[1..])
  }

  /** `validate_student_id`: at least three characters, and a match of
      `^[a-zA-Z0-9_-]+$`. The run must reach the end of the text or stop
      right before a final "\n", where Python's `$` also matches. */
  function ValidateStudentId(id: string): (ok: bool)
    ensures ok <==> |id| >= 3
                    && ((forall i :: 0 <= i < |id| ==> IdChar(id[i]))
                        || (id[|id| - 1] == '\n' && forall i :: 0 <= i < |id| - 1 ==> IdChar(id[i])))
  {
    if |id| < 3 then false
    else
      var n := IdRun(id);
      n >= 1 && (n == |id| || (n == |id| - 1 && id[n] == '\n'))
  }

  /** Ids of plain letters, digits, `_` and `-` pass from three characters
      on; a space fails; a trailing newline slips through. */
  lemma StudentIdExamples()
    ensures ValidateStudentId("ab_-9")
    ensures !ValidateStudentId("ab")
    ensures !ValidateStudentId("a b")
    ensures ValidateStudentId("abc\n")
    ensures !ValidateStudentId("ab\nc")
  {
    assert !IdChar("a b"[1]);
    assert !IdChar("ab\nc"[2]);
  }

  // ---------------------------------------------------------------------
  // chunk_text

  /** The state of the `chunk_text` loop: the chunks closed so far, as word
      lists, the words of the open chunk and `current_length`. */
  datatype Chunking = Chunking(groups: seq<seq<string>>, current: seq<string>, length: int)

  /** One pass of the loop body for `word`. */
  function ChunkStep(st: Chunking, word: string, size: int): Chunking
  {
    if st.length + |word| + 1 > size then Chunking(st.groups + [st.current], [word], |word|)
    else Chunking(st.groups, st.current + [word], st.length + |word| + 1)
  }

  /** The loop state after the words `words`. */
  function Chunked(words: seq<string>, size: int): Chunking
    decreases |words|
  {
    if words == [] then Chunking([], [], 0)
    else ChunkStep(Chunked(words[..|words| - 1], size), words[|words| - 1], size)
  }

  /** The word lists of all chunks, the open one included when non-empty. */
  function ChunkGroups(words: seq<string>, size: int): seq<seq<string>>
  {
    var st := Chunked(words, size);
    st.groups + if st.current != [] then [st.current] else []
  }

  /** `' '.join` applied to every word list. */
  function JoinAll(groups: seq<seq<string>>): (r: seq<string>)
    ensures |r| == |groups| && forall k :: 0 <= k < |groups| ==> r[k] == Join(groups[k], " ")
  {
    seq(|groups|, k requires 0 <= k < |groups| => Join(groups[k], " "))
  }

  /** What `chunk_text(text, size)` returns. */
  function ChunksOf(text: string, size: int): seq<string>
  {
    JoinAll(ChunkGroups(Words(text), size))
  }

  predicate AllWords(ws: seq<string>)
  {
    forall j :: 0 <= j < |ws| ==> IsWord(ws[j])
  }

  /** What the loop keeps true: the chunks and the open chunk hold the
      words in order; a chunk of two or more words fits in `size` (the
      first chunk counts one extra character, because its length starts at
      0 and every word adds its length plus one); only the first chunk can
      be empty, and it is exactly when the first word alone does not fit. */
  predicate ChunkInvariant(words: seq<string>, size: int, st: Chunking)
  {
    Flatten(st.groups) + st.current == words
    && (forall k :: 0 <= k < |st.groups| ==> AllWords(st.groups[k]))
    && AllWords(st.current)
    && (forall k :: 0 <= k < |st.groups| && |st.groups[k]| >= 2 ==> |Join(st.groups[k], " ")| <= size)
    && st.length == |Join(st.current, " ")| + (if st.groups == [] && st.current != [] then 1 else 0)
    && (|st.current| >= 2 ==> st.length <= size)
    && (st.groups != [] ==> st.current != [])
    && (forall k :: 0 < k < |st.groups| ==> st.groups[k] != [])
    && ((st.groups != [] && st.groups[0] == []) <==> (words != [] && |words[0]| + 1 > size))
  }

  lemma FlattenSnoc<T>(ss: seq<seq<T>>, s: seq<T>)
    ensures Flatten(ss + [s]) == Flatten(ss) + s
  {
    assert (ss + [s])[..|ss|] == ss;
  }

  /** The open chunk grows by one word and one space. */
  lemma JoinGrows(current: seq<string>, word: string)
    ensures |Join(current + [word], " ")| == if current == [] then |word| else |Join(current, " ")| + 1 + |word|
  {
    if current != [] {
      JoinSnoc(current, word, " ");
    } else {
      assert current + [word] == [word];
    }
  }

  /** Closing the open chunk and starting a new one with `word` keeps the invariant. */
  lemma FlushKeepsInvariant(prefix: seq<string>, word: string, size: int, st: Chunking)
    requires ChunkInvariant(prefix, size, st) && IsWord(word)
    requires st.length + |word| + 1 > size
    ensures ChunkInvariant(prefix + [word], size, ChunkStep(st, word, size))
  {
    var words := prefix + [word];
    var next := ChunkStep(st, word, size);
    assert next == Chunking(st.groups + [st.current], [word], |word|);
    FlattenSnoc(st.groups, st.current);
    assert Flatten(next.groups) + next.current == words;
    if prefix != [] {
      assert words[0] == prefix[0];
    } else {
      assert st.current == [] && st.groups == [];
    }
    assert forall k :: 0 <= k < |st.groups| ==> next.groups[k] == st.groups[k];
  }

  /** Adding `word` to the open chunk keeps the invariant. */
  lemma AppendKeepsInvariant(prefix: seq<string>, word: string, size: int, st: Chunking)
    requires ChunkInvariant(prefix, size, st) && IsWord(word)
    requires st.length + |word| + 1 <= size
    ensures ChunkInvariant(prefix + [word], size, ChunkStep(st, word, size))
  {
    var words := prefix + [word];
    var next := ChunkStep(st, word, size);
    assert next == Chunking(st.groups, st.current + [word], st.length + |word| + 1);
    JoinGrows(st.current, word);
    assert Flatten(next.groups) + next.current == words;
    if prefix != [] {
      assert words[0] == prefix[0];
    }
  }

  lemma {:induction false} ChunkedInvariant(words: seq<string>, size: int)
    requires AllWords(words)
    ensures ChunkInvariant(words, size, Chunked(words, size))
    decreases |words|
  {
    if words != [] {
      var prefix := words[..|words| - 1];
      var word := words[|words| - 1];
      assert AllWords(prefix);
      ChunkedInvariant(prefix, size);
      var st := Chunked(prefix, size);
      assert prefix + [word] == words;
      if st.length + |word| + 1 > size {
        FlushKeepsInvariant(prefix, word, size, st);
      } else {
        AppendKeepsInvariant(prefix, word, size, st);
      }
    }
  }

  /** The word lists of the chunks, read in order, are the words. */
  lemma ChunkGroupsProperties(words: seq<string>, size: int)
    requires AllWords(words)
    ensures var gs := ChunkGroups(words, size);
            Flatten(gs) == words
            && (forall k :: 0 <= k < |gs| ==> AllWords(gs[k]))
            && (forall k :: 0 <= k < |gs| && |gs[k]| >= 2 ==> |Join(gs[k], " ")| <= size)
            && (forall k :: 0 < k < |gs| ==> gs[k] != [])
            && ((gs != [] && gs[0] == []) <==> (words != [] && |words[0]| + 1 > size))
            && (gs == [] <==> words == [])
  {
    var st := Chunked(words, size);
    ChunkedInvariant(words, size);
    if st.current != [] {
      FlattenSnoc(st.groups, st.current);
    } else {
      assert st.groups + [] == st.groups;
    }
  }

  /** `chunk_text`: the words of the chunks, read in order, are the words of
      the text; a chunk of two or more words is at most `size` characters
      long; the only empty chunk is a first one, there exactly when the first
      word has `size` characters or more. */
  lemma {:induction false} ChunkTextProperties(text: string, size: int)
    ensures var chunks := ChunksOf(text, size);
            Flatten(seq(|chunks|, k requires 0 <= k < |chunks| => Words(chunks[k]))) == Words(text)
            && (forall k :: 0 <= k < |chunks| && |Words(chunks[k])| >= 2 ==> |chunks[k]| <= size)
            && (forall k :: 0 <= k < |chunks| && chunks[k] == "" ==> k == 0)
            && ((chunks != [] && chunks[0] == "") <==> (Words(text) != [] && |Words(text)[0]| >= size))
            && (chunks == [] <==> Words(text) == [])
  {
    var words := Words(text);
    var gs := ChunkGroups(words, size);
    ChunkGroupsProperties(words, size);
    var chunks := ChunksOf(text, size);
    forall k | 0 <= k < |gs| ensures Words(chunks[k]) == gs[k] {
      WordsOfJoin(gs[k]);
    }
    assert seq(|chunks|, k requires 0 <= k < |chunks| => Words(chunks[k])) == gs;
    forall k | 0 <= k < |chunks| && chunks[k] == "" ensures k == 0 {
      assert Words(chunks[k]) == [];
    }
    if gs != [] && gs[0] == [] {
      assert chunks[0] == "";
    }
  }

  /** The `chunk_text` loop, with the closed chunks as word lists kept on
      the side. */
  method ChunkText(text: string, size: int) returns (chunks: seq<string>)
    ensures chunks == ChunksOf(text, size)
  {
    var words := Words(text);
    chunks := [];
    var current: seq<string> := [];
    var length := 0;
    ghost var groups: seq<seq<string>> := [];
    var i := 0;
    while i < |words|
      invariant 0 <= i <= |words|
      invariant Chunked(words[..i], size) == Chunking(groups, current, length)
      invariant chunks == JoinAll(groups)
    {
      var word := words[i];
      assert words[..i + 1][..i] == words[..i];
      if length + |word| + 1 > size {
        chunks := chunks + [Join(current, " ")];
        groups := groups + [current];
        current := [word];
        length := |word|;
      } else {
        current := current + [word];
        length := length + |word| + 1;
      }
      i := i + 1;
    }
    assert words[..i] == words;
    if current != [] {
      chunks := chunks + [Join(current, " ")];
    }
  }

  // ---------------------------------------------------------------------
  // sanitize_filename

  /** The characters `[<>:"/\\|?*]` replaces with `_`. */
  predicate Forbidden(c: char)
  {
    c == '<' || c == '>' || c == ':' || c == '"' || c == '/' || c == '\\' || c == '|' || c == '?' || c == '*'
  }

  function ReplaceForbidden(s: string): (r: string)
    ensures |r| == |s|
    ensures forall i :: 0 <= i < |s| ==> r[i] == if Forbidden(s[i]) then '_' else s[i]
    ensures forall i :: 0 <= i < |r| ==> !Forbidden(r[i])
    ensures (forall i :: 0 <= i < |s| ==> !Forbidden(s[i])) ==> r == s
  {
    seq(|s|, i requires 0 <= i < |s| => if Forbidden(s[i]) then '_' else s[i])
  }

  /** The characters `strip('. ')` removes. */
  predicate DotOrSpace(c: char)
  {
    c == '.' || c == ' '
  }

  /** `sanitize_filename` as written: replace, strip, then cut to 255 characters. */
  function SanitizeFilename(name: string): string
  {
    Take(Trim(ReplaceForbidden(name), DotOrSpace), 255)
  }

  /** Stripping keeps only replaced characters, so none is forbidden. */
  lemma StrippedNotForbidden(name: string)
    ensures var t := Trim(ReplaceForbidden(name), DotOrSpace);
            forall i :: 0 <= i < |t| ==> !Forbidden(t[i])
  {
    var replaced := ReplaceForbidden(name);
    var allowed := (c: char) => !Forbidden(c);
    assert forall i :: 0 <= i < |replaced| ==> allowed(replaced[i]);
    TrimKeeps(replaced, DotOrSpace, allowed);
  }

  /** The result is at most 255 characters, has none of the forbidden
      characters and does not start with a dot or a space. */
  lemma SanitizeFilenameProperties(name: string)
    ensures var r := SanitizeFilename(name);
            |r| <= 255
            && (forall i :: 0 <= i < |r| ==> !Forbidden(r[i]))
            && (r == [] || !DotOrSpace(r[0]))
  {
    var t := Trim(ReplaceForbidden(name), DotOrSpace);
    StrippedNotForbidden(name);
    var r := Take(t, 255);
    forall i | 0 <= i < |r| ensures !Forbidden(r[i]) {
      assert r[i] == t[i];
    }
  }

  /** The cut comes after the strip, so a name whose 255th character is a
      dot keeps it at the end. */
  lemma SanitizeFilenameTrailingDot()
    ensures var name := seq(254, _ => 'a') + ".b";
            var r := SanitizeFilename(name);
            |r| == 255 && r[254] == '.'
  {
    var name := seq(254, _ => 'a') + ".b";
    assert ReplaceForbidden(name) == name;
    assert TrimLeft(name, DotOrSpace) == name;
    assert TrimRight(name, DotOrSpace) == name;
  }

  /** `sanitize_filename` with its evident intent: the result also does not
      end with a dot or a space, even after the cut. */
  function SanitizeFilenameFixed(name: string): (r: string)
    ensures |r| <= 255
    ensures forall i :: 0 <= i < |r| ==> !Forbidden(r[i])
    ensures r == [] || (!DotOrSpace(r[0]) && !DotOrSpace(r[|r| - 1]))
  {
    SanitizeFilenameProperties(name);
    TrimRightKeeps(SanitizeFilename(name), DotOrSpace, c => !Forbidden(c));
    TrimRight(SanitizeFilename(name), DotOrSpace)
  }

  /** The fix changes nothing for names that fit in 255 characters once
      stripped, and sanitising twice is sanitising once. */
  lemma SanitizeFilenameFixedAgrees(name: string)
    ensures |Trim(ReplaceForbidden(name), DotOrSpace)| <= 255 ==>
              SanitizeFilenameFixed(name) == SanitizeFilename(name)
    ensures SanitizeFilenameFixed(SanitizeFilenameFixed(name)) == SanitizeFilenameFixed(name)
  {
    var r := SanitizeFilenameFixed(name);
    assert ReplaceForbidden(r) == r;
    assert TrimLeft(r, DotOrSpace) == r;
    assert TrimRight(r, DotOrSpace) == r;
  }
}
