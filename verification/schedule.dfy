/** A league's reports grouped by kickoff date for presentation: ascending
    day buckets, each with its matches in kickoff order, plus an index from
    match id to summary. */
module Schedule {
  import opened Probability
  import opened Timestamps
  import opened Reports
  import Sorting
  import TextUtils
  import Batches

  /** A report as the presentation layer sees it. */
  datatype MatchOddsSummary = MatchOddsSummary(report: MatchProbabilityReport) {

    function MatchId(): string {
      report.matchId
    }

    function HomeCode(): string {
      TextUtils.ShortTeamCode(report.homeTeam)
    }

    function AwayCode(): string {
      TextUtils.ShortTeamCode(report.awayTeam)
    }

    /** The label of an outcome name: the home or away team code, "Draw" otherwise. */
    function OutcomeLabel(outcome: string): string {
      if outcome == "home" then HomeCode()
      else if outcome == "away" then AwayCode()
      else "Draw"
    }
  }

  datatype MatchDaySchedule = MatchDaySchedule(date: int, matches: seq<MatchOddsSummary>)

  datatype LeagueSchedule = LeagueSchedule(
    league: string,
    matchDays: seq<MatchDaySchedule>,
    matchIndex: map<string, MatchOddsSummary>)

  /** A team code is never the draw label, so the label of a recommendation
      names the draw exactly when the draw is recommended. */
  lemma OutcomeLabelDistinguishesDraw(s: MatchOddsSummary, o: Outcome)
    ensures s.OutcomeLabel(o.Key()) == "Draw" <==> o == Draw
    ensures o == Home ==> s.OutcomeLabel(o.Key()) == s.HomeCode()
    ensures o == Away ==> s.OutcomeLabel(o.Key()) == s.AwayCode()
  {
    CodeIsNotDraw(s.HomeCode());
    CodeIsNotDraw(s.AwayCode());
  }

  /** A code of four letters is upper-case, unlike the draw label. */
  lemma CodeIsNotDraw(code: string)
    requires |code| <= 3 || forall i :: 0 <= i < |code| ==> !TextUtils.IsLowerLetter(code[i])
    ensures code != "Draw"
  {
    if |code| == 4 {
      assert !TextUtils.IsLowerLetter(code[1]);
      assert TextUtils.IsLowerLetter("Draw"[1]);
    }
  }

  // ---------------------------------------------------------------------------
  // Eligible reports
  // ---------------------------------------------------------------------------

  /** Both team names present. A kickoff datetime is always truthy, so the
      kickoff does not take part in the test. */
  predicate Schedulable(r: MatchProbabilityReport) {
    r.homeTeam != "" && r.awayTeam != ""
  }

  /** The summaries of the schedulable reports, in input order. */
  function Summaries(reports: seq<MatchProbabilityReport>): (r: seq<MatchOddsSummary>)
    ensures forall i :: 0 <= i < |r| ==> Schedulable(r[i].report)
  {
    if |reports| == 0 then []
    else (if Schedulable(reports[0]) then [MatchOddsSummary(reports[0])] else []) + Summaries(reports[1..])
  }

  /** Summarizing distributes over concatenation, so input order is kept. */
  lemma {:induction false} SummariesAppend(a: seq<MatchProbabilityReport>, b: seq<MatchProbabilityReport>)
    ensures Summaries(a + b) == Summaries(a) + Summaries(b)
  {
    if |a| == 0 {
      assert a + b == b;
    } else {
      assert (a + b)[0] == a[0];
      assert (a + b)[1..] == a[1..] + b;
      SummariesAppend(a[1..], b);
      var head := if Schedulable(a[0]) then [MatchOddsSummary(a[0])] else [];
      assert head + (Summaries(a[1..]) + Summaries(b)) == (head + Summaries(a[1..])) + Summaries(b);
    }
  }

  lemma {:induction false} SummariesMembers(reports: seq<MatchProbabilityReport>)
    ensures forall s :: s in Summaries(reports) <==> s.report in reports && Schedulable(s.report)
  {
    if |reports| > 0 {
      SummariesMembers(reports[1..]);
      assert reports == [reports[0]] + reports[1..];
    }
  }

  // ---------------------------------------------------------------------------
  // Grouping by date
  // ---------------------------------------------------------------------------

  function DateOf(s: MatchOddsSummary): int {
    s.report.commenceTime.Date()
  }

  /** Kicking off on date `d`, as a test on one summary. */
  function OnDay(d: int): MatchOddsSummary -> bool {
    s => DateOf(s) == d
  }

  /** The summaries of `xs` whose kickoff date is `d`, in input order. */
  function OnDate(xs: seq<MatchOddsSummary>, d: int): seq<MatchOddsSummary> {
    Batches.Filter(OnDay(d), xs)
  }

  lemma OnDateAppend(xs: seq<MatchOddsSummary>, s: MatchOddsSummary, d: int)
    ensures OnDate(xs + [s], d) == OnDate(xs, d) + (if DateOf(s) == d then [s] else [])
  {
    Batches.FilterAppend(OnDay(d), xs, [s]);
    assert [s][1..] == [];
  }

  predicate DistinctDates(days: seq<MatchDaySchedule>) {
    forall i, j :: 0 <= i < j < |days| ==> days[i].date != days[j].date
  }

  /** The dates of the buckets. */
  function DaySet(days: seq<MatchDaySchedule>): set<int> {
    if |days| == 0 then {} else {days[0].date} + DaySet(days[1..])
  }

  /** The kickoff dates of the summaries. */
  function DateSet(xs: seq<MatchOddsSummary>): set<int> {
    if |xs| == 0 then {} else DateSet(xs[..|xs| - 1]) + {DateOf(xs[|xs| - 1])}
  }

  lemma {:induction false} DaySetIndex(days: seq<MatchDaySchedule>, d: int)
    ensures d in DaySet(days) <==> exists i :: 0 <= i < |days| && days[i].date == d
  {
    if |days| > 0 {
      DaySetIndex(days[1..], d);
      assert forall i :: 1 <= i < |days| ==> days[i] == days[1..][i - 1];
    }
  }

  lemma {:induction false} DateSetIndex(xs: seq<MatchOddsSummary>, d: int)
    ensures d in DateSet(xs) <==> exists k :: 0 <= k < |xs| && DateOf(xs[k]) == d
  {
    if |xs| > 0 {
      var prefix := xs[..|xs| - 1];
      DateSetIndex(prefix, d);
      assert forall k :: 0 <= k < |prefix| ==> prefix[k] == xs[k];
    }
  }

  /** The position of the bucket for date `d`, or -1 when there is none. */
  function FindDay(days: seq<MatchDaySchedule>, d: int): (r: int)
    ensures -1 <= r < |days|
    ensures r >= 0 ==> days[r].date == d
    ensures r == -1 ==> forall i :: 0 <= i < |days| ==> days[i].date != d
  {
    if |days| == 0 then -1
    else if days[0].date == d then 0
    else
      var k := FindDay(days[1..], d);
      assert forall i :: 1 <= i < |days| ==> days[i] == days[1..][i - 1];
      if k < 0 then -1 else k + 1
  }

  /** `days` after `s` is appended to the bucket of its date, which is
      opened at the end when there is none yet. */
  function AddToDay(days: seq<MatchDaySchedule>, s: MatchOddsSummary): (r: seq<MatchDaySchedule>)
    requires DistinctDates(days)
    ensures DistinctDates(r)
  {
    var k := FindDay(days, DateOf(s));
    if k >= 0 then days[k := MatchDaySchedule(days[k].date, days[k].matches + [s])]
    else days + [MatchDaySchedule(DateOf(s), [s])]
  }

  lemma {:induction false} DaySetAppend(days: seq<MatchDaySchedule>, x: MatchDaySchedule)
    ensures DaySet(days + [x]) == DaySet(days) + {x.date}
  {
    if |days| == 0 {
      assert days + [x] == [x];
      assert [x][1..] == [];
    } else {
      DaySetAppend(days[1..], x);
      assert (days + [x])[1..] == days[1..] + [x];
    }
  }

  /** Adding a summary appends it to the end of the bucket of its date, and
      opens that bucket at the end when its date is new; every other bucket
      is unchanged. */
  lemma AddToDaySpec(days: seq<MatchDaySchedule>, s: MatchOddsSummary)
    requires DistinctDates(days)
    ensures var r := AddToDay(days, s);
            && DaySet(r) == DaySet(days) + {DateOf(s)}
            && |r| == (if DateOf(s) in DaySet(days) then |days| else |days| + 1)
            && (forall i :: 0 <= i < |days| ==>
                  r[i] == MatchDaySchedule(days[i].date, days[i].matches + if days[i].date == DateOf(s) then [s] else []))
            && (DateOf(s) !in DaySet(days) ==> r[|days|] == MatchDaySchedule(DateOf(s), [s]))
  {
    var r := AddToDay(days, s);
    var k := FindDay(days, DateOf(s));
    DaySetIndex(days, DateOf(s));
    if k >= 0 {
      DaySetPointwise(r, days);
      assert DateOf(s) in DaySet(days);
    } else {
      DaySetAppend(days, MatchDaySchedule(DateOf(s), [s]));
    }
  }

  /** Every bucket holds exactly the summaries of its date, in input order. */
  ghost predicate Grouped(days: seq<MatchDaySchedule>, xs: seq<MatchOddsSummary>) {
    && DistinctDates(days)
    && DaySet(days) == DateSet(xs)
    && forall i :: 0 <= i < |days| ==> days[i].matches == OnDate(xs, days[i].date)
  }

  /** The buckets in order of first appearance of their date. */
  function Group(xs: seq<MatchOddsSummary>): (r: seq<MatchDaySchedule>)
    ensures Grouped(r, xs)
  {
    if |xs| == 0 then []
    else
      var prefix := xs[..|xs| - 1];
      var s := xs[|xs| - 1];
      assert xs == prefix + [s];
      GroupStep(Group(prefix), prefix, s);
      AddToDay(Group(prefix), s)
  }

  lemma GroupStep(g: seq<MatchDaySchedule>, prefix: seq<MatchOddsSummary>, s: MatchOddsSummary)
    requires Grouped(g, prefix)
    ensures Grouped(AddToDay(g, s), prefix + [s])
  {
    var xs := prefix + [s];
    var r := AddToDay(g, s);
    AddToDaySpec(g, s);
    assert xs[..|xs| - 1] == prefix;
    assert DateSet(xs) == DateSet(prefix) + {DateOf(s)};
    forall i | 0 <= i < |r| ensures r[i].matches == OnDate(xs, r[i].date) {
      OnDateAppend(prefix, s, r[i].date);
      if i == |g| {
        NewDateIsEmpty(prefix, DateOf(s));
      }
    }
  }

  /** A date no summary has selects nothing. */
  lemma NewDateIsEmpty(xs: seq<MatchOddsSummary>, d: int)
    requires d !in DateSet(xs)
    ensures OnDate(xs, d) == []
  {
    DateSetIndex(xs, d);
    OnDateNone(xs, d);
  }

  lemma {:induction false} OnDateNone(xs: seq<MatchOddsSummary>, d: int)
    requires forall k :: 0 <= k < |xs| ==> DateOf(xs[k]) != d
    ensures OnDate(xs, d) == []
  {
    if |xs| > 0 {
      OnDateNone(xs[1..], d);
    }
  }

  // ---------------------------------------------------------------------------
  // Sorting and indexing
  // ---------------------------------------------------------------------------

  /** The sort key of a match: its kickoff moment. */
  function Kickoff(s: MatchOddsSummary): real {
    s.report.commenceTime.Moment()
  }

  /** The sort key of a bucket: its date. */
  function DayKey(d: MatchDaySchedule): real {
    d.date as real
  }

  function SortMatches(days: seq<MatchDaySchedule>): (r: seq<MatchDaySchedule>)
    ensures |r| == |days|
    ensures forall i :: 0 <= i < |days| ==>
              r[i] == MatchDaySchedule(days[i].date, Sorting.Sort(days[i].matches, Kickoff))
  {
    if |days| == 0 then []
    else [MatchDaySchedule(days[0].date, Sorting.Sort(days[0].matches, Kickoff))] + SortMatches(days[1..])
  }

  /** Match id to summary; a later summary with the same id replaces an earlier one. */
  function Index(xs: seq<MatchOddsSummary>): map<string, MatchOddsSummary> {
    if |xs| == 0 then map[]
    else Index(xs[..|xs| - 1])[xs[|xs| - 1].MatchId() := xs[|xs| - 1]]
  }

  /** Groups the schedulable reports by kickoff date. */
  function BuildSchedule(league: string, reports: seq<MatchProbabilityReport>): LeagueSchedule {
    var summaries := Summaries(reports);
    var days := Sorting.Sort(SortMatches(Group(summaries)), DayKey);
    LeagueSchedule(league, days, Index(summaries))
  }

  // ---------------------------------------------------------------------------
  // Properties of the schedule
  // ---------------------------------------------------------------------------

  /** Buckets with the same contents have the same dates. */
  lemma SameDays(a: seq<MatchDaySchedule>, b: seq<MatchDaySchedule>)
    requires multiset(a) == multiset(b)
    ensures DaySet(a) == DaySet(b)
  {
    forall d ensures d in DaySet(a) ==> d in DaySet(b) {
      DaySetIndex(a, d);
      DaySetIndex(b, d);
      if d in DaySet(a) {
        var i :| 0 <= i < |a| && a[i].date == d;
        assert a[i] in multiset(b);
      }
    }
    forall d ensures d in DaySet(b) ==> d in DaySet(a) {
      DaySetIndex(a, d);
      DaySetIndex(b, d);
      if d in DaySet(b) {
        var i :| 0 <= i < |b| && b[i].date == d;
        assert b[i] in multiset(a);
      }
    }
  }

  /** A date some summary has selects at least one summary. */
  lemma OnDateNonEmpty(xs: seq<MatchOddsSummary>, d: int)
    requires d in DateSet(xs)
    ensures |OnDate(xs, d)| > 0
  {
    DateSetIndex(xs, d);
    var k :| 0 <= k < |xs| && DateOf(xs[k]) == d;
    assert xs[k] in OnDate(xs, d);
  }

  /** Each bucket of the schedule is one date's matches in kickoff order. */
  lemma {:induction false} ScheduleBuckets(league: string, reports: seq<MatchProbabilityReport>)
    ensures var days := BuildSchedule(league, reports).matchDays;
            forall i :: 0 <= i < |days| ==>
              && days[i].matches == Sorting.Sort(OnDate(Summaries(reports), days[i].date), Kickoff)
              && |days[i].matches| > 0
              && days[i].date in DateSet(Summaries(reports))
  {
    var xs := Summaries(reports);
    var g := Group(xs);
    var sm := SortMatches(g);
    var days := Sorting.Sort(sm, DayKey);
    assert days == BuildSchedule(league, reports).matchDays;
    forall i | 0 <= i < |days|
      ensures days[i].matches == Sorting.Sort(OnDate(xs, days[i].date), Kickoff)
      ensures |days[i].matches| > 0
      ensures days[i].date in DateSet(xs)
    {
      assert days[i] in multiset(sm);
      var j :| 0 <= j < |sm| && sm[j] == days[i];
      assert days[i].date == g[j].date;
      DaySetIndex(g, g[j].date);
      OnDateNonEmpty(xs, days[i].date);
    }
  }

  /** Buckets with the same dates position by position have the same date set. */
  lemma {:induction false} DaySetPointwise(a: seq<MatchDaySchedule>, b: seq<MatchDaySchedule>)
    requires |a| == |b|
    requires forall i :: 0 <= i < |a| ==> a[i].date == b[i].date
    ensures DaySet(a) == DaySet(b)
  {
    if |a| > 0 {
      DaySetPointwise(a[1..], b[1..]);
    }
  }

  /** The buckets are in strictly ascending date order. */
  lemma {:induction false} ScheduleAscending(league: string, reports: seq<MatchProbabilityReport>)
    ensures var days := BuildSchedule(league, reports).matchDays;
            forall i, j :: 0 <= i < j < |days| ==> days[i].date < days[j].date
  {
    var g := Group(Summaries(reports));
    var sm := SortMatches(g);
    assert Sorting.DistinctKeys(sm, DayKey) by {
      forall i, j | 0 <= i < j < |sm| ensures DayKey(sm[i]) != DayKey(sm[j]) {
        assert sm[i].date == g[i].date && sm[j].date == g[j].date;
      }
    }
    Sorting.SortStrict(sm, DayKey);
  }

  /** There is one bucket for each date that some schedulable report has. */
  lemma {:induction false} ScheduleDates(league: string, reports: seq<MatchProbabilityReport>)
    ensures DaySet(BuildSchedule(league, reports).matchDays) == DateSet(Summaries(reports))
  {
    var g := Group(Summaries(reports));
    var sm := SortMatches(g);
    SameDays(Sorting.Sort(sm, DayKey), sm);
    DaySetPointwise(sm, g);
  }

  /** A report's summary is in a bucket exactly when the report is
      schedulable and kicks off on the bucket's date. */
  lemma ScheduleMembership(league: string, reports: seq<MatchProbabilityReport>, r: MatchProbabilityReport, i: nat)
    requires i < |BuildSchedule(league, reports).matchDays|
    ensures var day := BuildSchedule(league, reports).matchDays[i];
            MatchOddsSummary(r) in day.matches <==>
              r in reports && Schedulable(r) && r.commenceTime.Date() == day.date
  {
    var day := BuildSchedule(league, reports).matchDays[i];
    var xs := Summaries(reports);
    var s := MatchOddsSummary(r);
    ScheduleBuckets(league, reports);
    var on := OnDate(xs, day.date);
    assert day.matches == Sorting.Sort(on, Kickoff);
    Sorting.SortMember(on, Kickoff, s);
    OnDateMember(xs, day.date, s);
    SummaryMember(reports, s);
  }

  lemma OnDateMember(xs: seq<MatchOddsSummary>, d: int, s: MatchOddsSummary)
    ensures s in OnDate(xs, d) <==> s in xs && DateOf(s) == d
  {
  }

  lemma SummaryMember(reports: seq<MatchProbabilityReport>, s: MatchOddsSummary)
    ensures s in Summaries(reports) <==> s.report in reports && Schedulable(s.report)
  {
    SummariesMembers(reports);
  }

  /** Every schedulable report is in the bucket of its date. */
  lemma EveryReportScheduled(league: string, reports: seq<MatchProbabilityReport>, r: MatchProbabilityReport)
    requires r in reports && Schedulable(r)
    ensures var days := BuildSchedule(league, reports).matchDays;
            exists i :: 0 <= i < |days| && days[i].date == r.commenceTime.Date() && MatchOddsSummary(r) in days[i].matches
  {
    var days := BuildSchedule(league, reports).matchDays;
    var xs := Summaries(reports);
    SummariesMembers(reports);
    var s := MatchOddsSummary(r);
    assert s in xs;
    var k :| 0 <= k < |xs| && xs[k] == s;
    DateSetIndex(xs, DateOf(s));
    ScheduleDates(league, reports);
    DaySetIndex(days, DateOf(s));
    var i :| 0 <= i < |days| && days[i].date == DateOf(s);
    ScheduleMembership(league, reports, r, i);
  }

  /** The number of matches over all buckets. */
  function TotalMatches(days: seq<MatchDaySchedule>): nat {
    if |days| == 0 then 0 else |days[0].matches| + TotalMatches(days[1..])
  }

  lemma {:induction false} TotalAppend(days: seq<MatchDaySchedule>, x: MatchDaySchedule)
    ensures TotalMatches(days + [x]) == TotalMatches(days) + |x.matches|
  {
    if |days| == 0 {
      assert days + [x] == [x];
      assert [x][1..] == [];
    } else {
      TotalAppend(days[1..], x);
      assert (days + [x])[1..] == days[1..] + [x];
    }
  }

  lemma {:induction false} TotalUpdate(days: seq<MatchDaySchedule>, k: nat, x: MatchDaySchedule)
    requires k < |days|
    ensures TotalMatches(days[k := x]) == TotalMatches(days) - |days[k].matches| + |x.matches|
  {
    if k > 0 {
      TotalUpdate(days[1..], k - 1, x);
      assert days[k := x][1..] == days[1..][k - 1 := x];
    } else {
      assert days[k := x][1..] == days[1..];
    }
  }

  lemma AddToDayTotal(days: seq<MatchDaySchedule>, s: MatchOddsSummary)
    requires DistinctDates(days)
    ensures TotalMatches(AddToDay(days, s)) == TotalMatches(days) + 1
  {
    var k := FindDay(days, DateOf(s));
    if k >= 0 {
      TotalUpdate(days, k, MatchDaySchedule(days[k].date, days[k].matches + [s]));
    } else {
      TotalAppend(days, MatchDaySchedule(DateOf(s), [s]));
    }
  }

  lemma {:induction false} GroupTotal(xs: seq<MatchOddsSummary>)
    ensures TotalMatches(Group(xs)) == |xs|
  {
    if |xs| > 0 {
      GroupTotal(xs[..|xs| - 1]);
      AddToDayTotal(Group(xs[..|xs| - 1]), xs[|xs| - 1]);
    }
  }

  lemma {:induction false} SortMatchesTotal(days: seq<MatchDaySchedule>)
    ensures TotalMatches(SortMatches(days)) == TotalMatches(days)
  {
    if |days| > 0 {
      SortMatchesTotal(days[1..]);
      assert SortMatches(days)[1..] == SortMatches(days[1..]);
    }
  }

  lemma {:induction false} InsertTotal(d: MatchDaySchedule, days: seq<MatchDaySchedule>)
    ensures TotalMatches(Sorting.Insert(d, days, DayKey)) == |d.matches| + TotalMatches(days)
  {
    if |days| > 0 && DayKey(d) > DayKey(days[0]) {
      InsertTotal(d, days[1..]);
      assert Sorting.Insert(d, days, DayKey)[1..] == Sorting.Insert(d, days[1..], DayKey);
    } else {
      assert Sorting.Insert(d, days, DayKey)[1..] == days;
    }
  }

  lemma {:induction false} SortTotal(days: seq<MatchDaySchedule>)
    ensures TotalMatches(Sorting.Sort(days, DayKey)) == TotalMatches(days)
  {
    if |days| > 0 {
      SortTotal(days[1..]);
      InsertTotal(days[0], Sorting.Sort(days[1..], DayKey));
    }
  }

  /** Every schedulable report is counted exactly once over all buckets. */
  lemma ScheduleTotal(league: string, reports: seq<MatchProbabilityReport>)
    ensures TotalMatches(BuildSchedule(league, reports).matchDays) == |Summaries(reports)|
  {
    var g := Group(Summaries(reports));
    GroupTotal(Summaries(reports));
    SortMatchesTotal(g);
    SortTotal(SortMatches(g));
  }

  // ---------------------------------------------------------------------------
  // The match index
  // ---------------------------------------------------------------------------

  /** `k` is the last position of `xs` whose match id is `id`. */
  predicate LastWithId(xs: seq<MatchOddsSummary>, id: string, k: int) {
    && 0 <= k < |xs|
    && xs[k].MatchId() == id
    && forall j :: k < j < |xs| ==> xs[j].MatchId() != id
  }

  /** The index has a key for every match id that occurs, and no other. */
  lemma {:induction false} IndexKeys(xs: seq<MatchOddsSummary>, id: string)
    ensures id in Index(xs) <==> exists k :: 0 <= k < |xs| && xs[k].MatchId() == id
  {
    if |xs| > 0 {
      var prefix := xs[..|xs| - 1];
      IndexKeys(prefix, id);
      assert forall k :: 0 <= k < |prefix| ==> prefix[k] == xs[k];
    }
  }

  /** The index maps an id to the last summary that has it. */
  lemma {:induction false} IndexLastWins(xs: seq<MatchOddsSummary>, id: string, k: int)
    requires LastWithId(xs, id, k)
    ensures id in Index(xs) && Index(xs)[id] == xs[k]
  {
    var prefix := xs[..|xs| - 1];
    if k < |xs| - 1 {
      assert LastWithId(prefix, id, k);
      IndexLastWins(prefix, id, k);
    }
  }

  /** The schedule's index, stated over the input reports. */
  lemma ScheduleIndex(league: string, reports: seq<MatchProbabilityReport>, id: string)
    ensures var index := BuildSchedule(league, reports).matchIndex;
            var xs := Summaries(reports);
            && (id in index <==> exists r :: r in reports && Schedulable(r) && r.matchId == id)
            && (forall k :: LastWithId(xs, id, k) ==> id in index && index[id] == xs[k])
  {
    var xs := Summaries(reports);
    IndexKeys(xs, id);
    SummariesMembers(reports);
    forall k | LastWithId(xs, id, k) ensures id in Index(xs) && Index(xs)[id] == xs[k] {
      IndexLastWins(xs, id, k);
    }
    if exists r :: r in reports && Schedulable(r) && r.matchId == id {
      var r :| r in reports && Schedulable(r) && r.matchId == id;
      assert MatchOddsSummary(r) in xs;
    }
  }
}
