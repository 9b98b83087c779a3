/** The scorer of the daily priority agent: the urgency curve, the weighted
    score with its itemised breakdown, the reason labels, and the two field
    parsers used when tasks are read. Dates are day numbers and "today" is an
    explicit parameter. */
module Scoring {
  import opened Text

  // ---------------------------------------------------------------------------
  // Configuration
  // ---------------------------------------------------------------------------

  const EffortDefaultsMin: map<string, int> := map["S" := 15, "M" := 45, "L" := 90]
  const ImpactMap: map<string, int> := map["low" := 1, "medium" := 2, "high" := 3]

  const UrgencyWeight: real := 2.0
  const ImportanceWeight: real := 3.0
  const QuickwinWeight: real := 1.0
  const BlockedPenaltyWeight: real := 5.0

  /** Efforts of at most this many minutes are quick wins. */
  const QuickWinMaxMin: int := 15

  // ---------------------------------------------------------------------------
  // Data model
  // ---------------------------------------------------------------------------

  datatype Task = Task(
    title: string,
    description: string,
    deadline: Option<int>,   // a day number, or no deadline
    effortMin: int,
    impact: int,
    blocked: bool,
    tags: seq<string>)

  datatype Breakdown = Breakdown(
    urgency: real,
    importance: real,
    quickwin: real,
    blockedPenalty: real,
    finalScore: real)

  // ---------------------------------------------------------------------------
  // Scoring
  // ---------------------------------------------------------------------------

  /** Whole days from `today` to the deadline; negative once it has passed. */
  function DaysUntil(deadline: Option<int>, today: int): (r: Option<int>)
    ensures r.Some? <==> deadline.Some?
    ensures r.Some? ==> today + r.value == deadline.value
  {
    match deadline
    case None => None
    case Some(d) => Some(d - today)
  }

  /** The urgency curve: 0.5 without a deadline, otherwise a step function of
      the days left that falls from 5 (due or overdue) to 1 (more than a week). */
  function UrgencyScore(daysLeft: Option<int>): (r: real)
    ensures daysLeft.None? <==> r == 0.5
    ensures daysLeft.Some? ==> 1.0 <= r <= 5.0
    ensures r == 5.0 <==> daysLeft.Some? && daysLeft.value <= 0
  {
    match daysLeft
    case None => 0.5
    case Some(d) =>
      if d < 0 then 5.0
      else if d == 0 then 5.0
      else if d == 1 then 4.0
      else if d <= 3 then 3.0
      else if d <= 7 then 2.0
      else 1.0
  }

  /** A later deadline is never more urgent. */
  lemma UrgencyMonotone(a: int, b: int)
    requires a <= b
    ensures UrgencyScore(Some(b)) <= UrgencyScore(Some(a))
  {
  }

  /** Urgency is at most 1 exactly when there is no deadline or it is more
      than a week away. */
  lemma UrgencyLowIffFar(daysLeft: Option<int>)
    ensures UrgencyScore(daysLeft) <= 1.0 <==> daysLeft.None? || daysLeft.value > 7
  {
  }

  function QuickwinBonus(effortMin: int): (r: real)
    ensures r == 1.0 <==> effortMin <= QuickWinMaxMin
    ensures r == 0.0 <==> effortMin > QuickWinMaxMin
  {
    if effortMin <= QuickWinMaxMin then 1.0 else 0.0
  }

  /** The score of one task and the breakdown of its terms. */
  function ComputeScore(task: Task, today: int): (r: (real, Breakdown))
    ensures r.1.finalScore == r.0
    ensures r.0 == UrgencyWeight * r.1.urgency + ImportanceWeight * r.1.importance
                   + r.1.quickwin - r.1.blockedPenalty
    ensures r.1.urgency == UrgencyScore(DaysUntil(task.deadline, today))
    ensures r.1.importance == task.impact as real
    ensures r.1.quickwin == (if task.effortMin <= QuickWinMaxMin then 1.0 else 0.0)
    ensures r.1.blockedPenalty == (if task.blocked then 5.0 else 0.0)
  {
    var urg := UrgencyScore(DaysUntil(task.deadline, today));
    var imp := task.impact as real;
    var qwb := QuickwinBonus(task.effortMin) * QuickwinWeight;
    var bpen := if task.blocked then BlockedPenaltyWeight else 0.0;
    var score := UrgencyWeight * urg + ImportanceWeight * imp + qwb - bpen;
    (score, Breakdown(urg, imp, qwb, bpen, score))
  }

  /** For an impact of low, medium or high the score lies in [-1, 20]; an
      unblocked task scores at least 4 and a blocked one at most 15. */
  lemma ScoreBounds(task: Task, today: int)
    requires 1 <= task.impact <= 3
    ensures var s := ComputeScore(task, today).0;
      -1.0 <= s <= 20.0 &&
      (task.blocked ==> s <= 15.0) &&
      (!task.blocked ==> 4.0 <= s)
  {
  }

  /** Every score is a whole number of halves, so rounding it to two decimals
      changes nothing. */
  lemma ScoreIsWholeHalves(task: Task, today: int)
    ensures var s := ComputeScore(task, today).0;
      (2.0 * s).Floor as real == 2.0 * s
  {
    var n := ScoreHalves(task, today);
    assert (n as real).Floor == n;
  }

  /** Twice the urgency is a whole number. */
  lemma UrgencyHalves(daysLeft: Option<int>) returns (u: int)
    ensures 2.0 * UrgencyScore(daysLeft) == u as real
  {
    match daysLeft
    case None => u := 1;
    case Some(d) =>
      u := if d <= 0 then 10 else if d == 1 then 8 else if d <= 3 then 6 else if d <= 7 then 4 else 2;
  }

  /** Twice the score is a whole number. */
  lemma ScoreHalves(task: Task, today: int) returns (n: int)
    ensures 2.0 * ComputeScore(task, today).0 == n as real
  {
    var u := UrgencyHalves(DaysUntil(task.deadline, today));
    var q: int := if task.effortMin <= QuickWinMaxMin then 1 else 0;
    var p: int := if task.blocked then 5 else 0;
    n := 2 * u + 6 * task.impact + 2 * q - 2 * p;
  }

  /** Being blocked costs exactly the penalty and changes no other term. */
  lemma BlockedCostsPenalty(task: Task, today: int)
    ensures ComputeScore(task.(blocked := true), today).0
         == ComputeScore(task.(blocked := false), today).0 - BlockedPenaltyWeight
  {
  }

  /** A task due today that is a quick win of high impact and not blocked
      scores 2*5 + 3*3 + 1 - 0 = 20, the highest score there is. */
  lemma DueTodayQuickHighScore(task: Task, today: int)
    requires task.deadline == Some(today) && task.effortMin == 15
    requires task.impact == 3 && !task.blocked
    ensures ComputeScore(task, today).1 == Breakdown(5.0, 3.0, 1.0, 0.0, 20.0)
  {
  }

  // ---------------------------------------------------------------------------
  // Reason string
  // ---------------------------------------------------------------------------

  const Overdue: string := "Overdue"
  const DueToday: string := "Due today"
  const DueSoon: string := "Due soon"
  const NoDeadline: string := "No deadline"
  const HighImpact: string := "High impact"
  const MediumImpact: string := "Medium impact"
  const QuickWin: string := "Quick win"
  const BlockedLabel: string := "Blocked (needs unblock step)"

  /** The deadline label: overdue, due today, due within three days, or no deadline. */
  function DeadlineLabels(task: Task, today: int): seq<string> {
    match DaysUntil(task.deadline, today)
    case None => [NoDeadline]
    case Some(d) =>
      if d < 0 then [Overdue] else if d == 0 then [DueToday] else if d <= 3 then [DueSoon] else []
  }

  function ImpactLabels(task: Task): seq<string> {
    if task.impact == 3 then [HighImpact] else if task.impact == 2 then [MediumImpact] else []
  }

  /** The labels explaining a task's rank, in the order they are emitted. */
  function ReasonLabels(task: Task, today: int): seq<string> {
    DeadlineLabels(task, today)
      + ImpactLabels(task)
      + (if task.effortMin <= QuickWinMaxMin then [QuickWin] else [])
      + (if task.blocked then [BlockedLabel] else [])
  }

  /** The comma-joined reason for a task. The breakdown is accepted but not
      consulted: the labels are derived again from `task`. */
  method Reason(task: Task, breakdown: Breakdown, today: int) returns (text: string)
    ensures text == Join(ReasonLabels(task, today), ", ")
  {
    var reasons: seq<string> := [];
    var dleft := DaysUntil(task.deadline, today);
    if dleft.Some? {
      if dleft.value < 0 {
        reasons := reasons + [Overdue];
      } else if dleft.value == 0 {
        reasons := reasons + [DueToday];
      } else if dleft.value <= 3 {
        reasons := reasons + [DueSoon];
      }
    } else {
      reasons := reasons + [NoDeadline];
    }
    assert reasons == DeadlineLabels(task, today);
    if task.impact == 3 {
      reasons := reasons + [HighImpact];
    } else if task.impact == 2 {
      reasons := reasons + [MediumImpact];
    }
    assert reasons == DeadlineLabels(task, today) + ImpactLabels(task);
    if task.effortMin <= QuickWinMaxMin {
      reasons := reasons + [QuickWin];
    }
    if task.blocked {
      reasons := reasons + [BlockedLabel];
    }
    assert reasons == ReasonLabels(task, today);
    text := Join(reasons, ", ");
  }

  /** The reason labels never contradict the breakdown: each label appears
      exactly when the matching score term takes its value. */
  lemma ReasonAgreesWithBreakdown(task: Task, today: int)
    ensures var labels, b := ReasonLabels(task, today), ComputeScore(task, today).1;
      var dleft := DaysUntil(task.deadline, today);
      (Overdue in labels <==> dleft.Some? && dleft.value < 0) &&
      (Overdue in labels ==> b.urgency == 5.0) &&
      (Overdue in labels || DueToday in labels <==> b.urgency == 5.0) &&
      (DueSoon in labels <==> b.urgency == 4.0 || b.urgency == 3.0) &&
      (NoDeadline in labels <==> b.urgency == 0.5) &&
      (HighImpact in labels <==> b.importance == 3.0) &&
      (MediumImpact in labels <==> b.importance == 2.0) &&
      (QuickWin in labels <==> b.quickwin == 1.0) &&
      (BlockedLabel in labels <==> b.blockedPenalty == 5.0)
  {
  }

  // ---------------------------------------------------------------------------
  // Field parsers
  // ---------------------------------------------------------------------------

  function Max(a: int, b: int): int {
    if a < b then b else a
  }

  /** The number left once a lower-cased effort text loses "min" and "m". */
  function EffortDigits(s: string): string {
    Strip(Replace(Replace(Lower(s), "min", ""), "m", ""))
  }

  /** The minutes an effort text stands for: blank is medium (45), a size
      letter S/M/L in any case is 15/45/90, a number of minutes (with an
      optional "m" or "min") is raised to at least 5, anything else is 45. */
  function EffortMinutes(raw: string): (minutes: int)
    ensures minutes >= 5
  {
    SizeDefaults();
    var s := Strip(raw);
    if s == [] then EffortDefaultsMin["M"]
    else if Upper(s) in EffortDefaultsMin then EffortDefaultsMin[Upper(s)]
    else NumberEffort(EffortDigits(s))
  }

  /** Every size default is at least 15 minutes, and the medium one is 45. */
  lemma SizeDefaults()
    ensures forall u :: u in EffortDefaultsMin ==> EffortDefaultsMin[u] >= 15
    ensures "M" in EffortDefaultsMin && EffortDefaultsMin["M"] == 45
  {
  }

  /** The minutes a number text stands for: at least 5, or 45 when `int()` rejects it. */
  function NumberEffort(digits: string): (minutes: int)
    ensures minutes >= 5
  {
    match ParseInt(digits)
    case Some(v) => Max(5, v)
    case None => EffortDefaultsMin["M"]
  }

  /** The effort parser, rebinding its text step by step. */
  method ParseEffort(raw: string) returns (minutes: int)
    ensures minutes == EffortMinutes(raw)
    ensures minutes >= 5
    ensures Strip(raw) == [] ==> minutes == 45
  {
    SizeDefaults();
    var s := Strip(raw);
    if s == [] {
      return EffortDefaultsMin["M"];
    }
    if Upper(s) in EffortDefaultsMin {
      return EffortDefaultsMin[Upper(s)];
    }
    s := Lower(s);
    s := Replace(s, "min", "");
    s := Replace(s, "m", "");
    s := Strip(s);
    var val := ParseInt(s);
    if val.Some? {
      minutes := Max(5, val.value);
    } else {
      minutes := EffortDefaultsMin["M"];
    }
  }

  /** Whitespace around an effort text is ignored. */
  lemma EffortPadded(w1: string, raw: string, w2: string)
    requires AllSpace(w1) && AllSpace(w2)
    ensures EffortMinutes(w1 + raw + w2) == EffortMinutes(raw)
  {
    StripPadded(w1, raw, w2);
  }

  /** A size letter in either case reads as its default minutes. */
  lemma SizeLetterEffort(c: char)
    requires UpperChar(c) == 'S' || UpperChar(c) == 'M' || UpperChar(c) == 'L'
    ensures EffortMinutes([c]) == EffortDefaultsMin[[UpperChar(c)]]
    ensures EffortMinutes([c]) == (if UpperChar(c) == 'S' then 15 else if UpperChar(c) == 'M' then 45 else 90)
  {
    var s := [c];
    assert !IsSpace(c);
    StripUnpadded(s);
    var u := [UpperChar(c)];
    assert Upper(s) == u;
    assert u == "S" || u == "M" || u == "L";
    assert u in EffortDefaultsMin;
  }

  predicate IsNumeral(d: string) {
    |d| >= 1 && forall i :: 0 <= i < |d| ==> IsDigit(d[i])
  }

  lemma NumeralCase(d: string)
    requires IsNumeral(d)
    ensures Lower(d) == d && Upper(d) == d
  {
  }

  lemma NumeralNotSize(d: string)
    requires IsNumeral(d)
    ensures Upper(d) !in EffortDefaultsMin
  {
    NumeralCase(d);
    assert d[0] != 'S' && d[0] != 'M' && d[0] != 'L';
  }

  /** A numeral holds neither an "m" nor an "i", so neither replacement touches it. */
  lemma NumeralReplaceFree(d: string, tail: string, pat: string)
    requires IsNumeral(d) && (pat == "min" || pat == "m")
    ensures Replace(d + tail, pat, "") == d + Replace(tail, pat, "")
  {
    assert pat[0] == 'm';
    assert 'm' !in d;
    ReplaceSkipsPrefix(d, tail, pat, "");
  }

  lemma NumeralEffortDigits(d: string)
    requires IsNumeral(d)
    ensures EffortDigits(d) == d
  {
    NumeralCase(d);
    NumeralReplaceFree(d, [], "min");
    NumeralReplaceFree(d, [], "m");
    assert d + [] == d;
    assert Replace([], "min", "") == [] && Replace([], "m", "") == [];
    StripUnpadded(d);
  }

  lemma NumeralEffort(d: string)
    requires IsNumeral(d)
    ensures EffortMinutes(d) == NumberEffort(d)
  {
    StripUnpadded(d);
    NumeralNotSize(d);
    NumeralEffortDigits(d);
  }

  lemma UnitEffortDigits(d: string, unit: string)
    requires IsNumeral(d) && (unit == "m" || unit == "min")
    ensures EffortDigits(d + unit) == d
  {
    var s := d + unit;
    assert Lower(s) == s by {
      NumeralCase(d);
      assert forall i :: 0 <= i < |s| ==> LowerChar(s[i]) == s[i];
    }
    NumeralReplaceFree(d, unit, "min");
    var once := d + Replace(unit, "min", "");
    if unit == "min" {
      assert Replace(unit, "min", "") == [];
      assert once == d + [];
    } else {
      assert Replace(unit, "min", "") == unit;
    }
    NumeralReplaceFree(d, Replace(unit, "min", ""), "m");
    assert Replace(Replace(unit, "min", ""), "m", "") == [];
    assert d + [] == d;
    StripUnpadded(d);
  }

  lemma UnitEffort(d: string, unit: string)
    requires IsNumeral(d) && (unit == "m" || unit == "min")
    ensures EffortMinutes(d + unit) == EffortMinutes(d)
  {
    WordEffort(d + unit);
    UnitEffortDigits(d, unit);
    NumeralEffort(d);
  }

  /** A text of two or more characters with no whitespace at its ends is read as a number. */
  lemma WordEffort(s: string)
    requires |s| >= 2 && !IsSpace(s[0]) && !IsSpace(s[|s| - 1])
    ensures EffortMinutes(s) == NumberEffort(EffortDigits(s))
  {
    StripUnpadded(s);
    LongTextNotSize(Upper(s));
    StrippedWordEffort(s);
  }

  lemma LongTextNotSize(u: string)
    requires |u| >= 2
    ensures u !in EffortDefaultsMin
  {
  }

  lemma StrippedWordEffort(s: string)
    requires s != [] && Strip(s) == s && Upper(s) !in EffortDefaultsMin
    ensures EffortMinutes(s) == NumberEffort(EffortDigits(s))
  {
  }

  /** A whole number of minutes written as "<n>", "<n>m" or "<n>min" reads
      back as that number, raised to at least 5, as long as it has at most
      `MaxStrDigits` digits; a longer numeral is refused by `int()` and the
      effort falls back to 45. */
  lemma EffortRoundTrip(n: nat)
    ensures |DecimalString(n)| <= MaxStrDigits ==>
      EffortMinutes(DecimalString(n)) == Max(5, n) &&
      EffortMinutes(DecimalString(n) + "m") == Max(5, n) &&
      EffortMinutes(DecimalString(n) + "min") == Max(5, n)
    ensures |DecimalString(n)| > MaxStrDigits ==>
      EffortMinutes(DecimalString(n)) == 45 &&
      EffortMinutes(DecimalString(n) + "m") == 45 &&
      EffortMinutes(DecimalString(n) + "min") == 45
  {
    var d := DecimalString(n);
    ParseDecimal(n);
    NumeralEffort(d);
    UnitEffort(d, "m");
    UnitEffort(d, "min");
  }

  /** A character that can appear neither in a numeral `int()` accepts nor in
      the "m"/"min" unit suffixes, in either letter case. */
  predicate NotEffortChar(c: char) {
    NotNumeral(c) && LowerChar(c) != 'm' && LowerChar(c) != 'i' && LowerChar(c) != 'n'
  }

  lemma LowerNotEffortChar(c: char)
    requires NotEffortChar(c)
    ensures NotNumeral(LowerChar(c)) && LowerChar(c) !in "min"
  {
  }

  /** An effort text that is not a size letter and holds a character foreign to
      numerals and to the unit suffixes cannot be read as a number, so it falls
      back to 45 minutes. */
  lemma UnparseableEffort(raw: string, c: char)
    requires Upper(Strip(raw)) !in EffortDefaultsMin
    requires c in raw && NotEffortChar(c)
    ensures EffortMinutes(raw) == 45
  {
    var s := Strip(raw);
    StripKeeps(raw, c);
    var j :| 0 <= j < |s| && s[j] == c;
    var lc := LowerChar(c);
    LowerNotEffortChar(c);
    assert Lower(s)[j] == lc;
    ReplaceKeeps(Lower(s), "min", "", lc);
    var once := Replace(Lower(s), "min", "");
    assert lc !in "m";
    ReplaceKeeps(once, "m", "", lc);
    StripKeeps(Replace(once, "m", ""), lc);
    assert EffortDigits(s) == Strip(Replace(once, "m", ""));
    ParseIntRejects(EffortDigits(s), lc);
    SizeDefaults();
  }

  /** A blocked-flag text is true when, stripped and lower-cased, it is one of
      "yes", "true", "1" or "y". A blank or missing flag is therefore false,
      and a true one is a short word that starts with y, t or 1 in either case. */
  predicate ParseBool(s: string)
    ensures ParseBool(s) ==> 1 <= |Strip(s)| <= 4
    ensures ParseBool(s) ==> Strip(s)[0] in "yYtT1"
  {
    var l := Lower(Strip(s));
    assert l != [] ==> l[0] == LowerChar(Strip(s)[0]);
    l in {"yes", "true", "1", "y"}
  }

  /** The blocked flag ignores surrounding whitespace and letter case. */
  lemma ParseBoolIgnoresCaseAndSpace(w1: string, s: string, w2: string)
    requires AllSpace(w1) && AllSpace(w2)
    ensures ParseBool(w1 + s + w2) == ParseBool(s)
    ensures ParseBool(Upper(s)) == ParseBool(s)
  {
    StripPadded(w1, s, w2);
    StripUpper(s);
    LowerOfUpper(Strip(s));
  }
}
