/** The per-event report builder: typed raw payloads from the odds provider
    in, one consensus report per complete event out. */
module Reports {
  import opened Wrappers
  import opened Probability
  import opened Timestamps
  import opened Consensus
  import TextUtils
  import Batches

  // ---------------------------------------------------------------------------
  // Raw payloads
  // ---------------------------------------------------------------------------

  /** One quoted outcome: its name and decimal price, either possibly missing. */
  datatype RawOutcome = RawOutcome(name: Option<string>, price: Option<real>)

  datatype RawMarket = RawMarket(key: Option<string>, lastUpdate: Option<string>, outcomes: seq<RawOutcome>)

  datatype RawBookmaker = RawBookmaker(key: Option<string>, markets: seq<RawMarket>)

  datatype RawEvent = RawEvent(
    id: Option<string>,
    homeTeam: Option<string>,
    awayTeam: Option<string>,
    commenceTime: Option<string>,
    bookmakers: seq<RawBookmaker>)

  /** An ISO 8601 parser; `None` stands for the parser raising. */
  type Parser = string -> Option<Instant>

  /** What a build can raise: a timestamp the parser rejects. */
  datatype BuildError = UnparsableTimestamp(text: string)

  /** The consensus artifact for one fixture. */
  datatype MatchProbabilityReport = MatchProbabilityReport(
    league: string,
    sportKey: string,
    matchId: string,
    commenceTime: Instant,
    homeTeam: string,
    awayTeam: string,
    sources: seq<SourceProbabilities>,
    averages: Triple,
    recommendation: Option<Outcome>,
    recommendationConfidence: Option<real>)

  const H2h := "h2h"
  const UnknownSource := "unknown"

  // ---------------------------------------------------------------------------
  // Event level
  // ---------------------------------------------------------------------------

  /** Python truthiness of an optional string: present and non-empty. */
  predicate Truthy(s: Option<string>) {
    s.Some? && s.value != ""
  }

  /** An event carrying an id, both team names and a kickoff time. */
  predicate Complete(e: RawEvent) {
    Truthy(e.id) && Truthy(e.homeTeam) && Truthy(e.awayTeam) && Truthy(e.commenceTime)
  }

  /** The complete events, in input order. */
  function Kept(events: seq<RawEvent>): (r: seq<RawEvent>)
    ensures forall i :: 0 <= i < |r| ==> Complete(r[i])
    ensures |r| <= |events|
    ensures forall e :: e in r <==> e in events && Complete(e)
  {
    Batches.Filter(Complete, events)
  }

  /** Keeping distributes over concatenation: the kept events stay in input order. */
  lemma KeptAppend(a: seq<RawEvent>, b: seq<RawEvent>)
    ensures Kept(a + b) == Kept(a) + Kept(b)
  {
    Batches.FilterAppend(Complete, a, b);
  }

  // ---------------------------------------------------------------------------
  // Bookmaker level
  // ---------------------------------------------------------------------------

  /** The first market keyed "h2h", if any. */
  function FirstH2h(markets: seq<RawMarket>): (r: Option<RawMarket>)
    ensures r.None? <==> forall i :: 0 <= i < |markets| ==> markets[i].key != Some(H2h)
    ensures r.Some? ==> exists i :: 0 <= i < |markets| && markets[i] == r.value && r.value.key == Some(H2h)
                          && forall j :: 0 <= j < i ==> markets[j].key != Some(H2h)
  {
    if |markets| == 0 then None
    else if markets[0].key == Some(H2h) then Some(markets[0])
    else
      var r := FirstH2h(markets[1..]);
      assert forall i :: 1 <= i < |markets| ==> markets[i] == markets[1..][i - 1];
      r
  }

  /** Which slot an outcome name fills: the home team, else the away team,
      else "draw" or "tie" in any letter case. */
  function Classify(name: Option<string>, home: string, away: string): (r: Option<Outcome>)
    ensures r == Some(Home) <==> name == Some(home)
    ensures r == Some(Away) <==> name == Some(away) && name != Some(home)
    ensures r == Some(Draw) <==> name.Some? && name != Some(home) && name != Some(away)
                                 && (TextUtils.Lower(name.value) == "draw" || TextUtils.Lower(name.value) == "tie")
  {
    if name == Some(home) then Some(Home)
    else if name == Some(away) then Some(Away)
    else if name.Some? && (TextUtils.Lower(name.value) == "draw" || TextUtils.Lower(name.value) == "tie") then Some(Draw)
    else None
  }

  /** `t` with the slot of `o` replaced by `p`. */
  function Assign(t: Triple, o: Outcome, p: Option<real>): (r: Triple)
    ensures r.Get(o) == p
    ensures forall o' :: o' != o ==> r.Get(o') == t.Get(o')
  {
    match o
    case Home => t.(home := p)
    case Draw => t.(draw := p)
    case Away => t.(away := p)
  }

  /** `t` after reading one outcome: a recognised name overwrites its slot
      with the implied probability of the price, absent for an invalid price. */
  function Fill(t: Triple, x: RawOutcome, home: string, away: string): (r: Triple)
    requires PositivePresent(t)
    ensures PositivePresent(r)
    ensures forall o :: r.Get(o) == if Classify(x.name, home, away) == Some(o) then ImpliedProbability(x.price) else t.Get(o)
  {
    match Classify(x.name, home, away)
    case None => t
    case Some(o) => Assign(t, o, ImpliedProbability(x.price))
  }

  /** The implied probabilities read from a market's outcomes, in order. */
  function ReadOutcomes(outcomes: seq<RawOutcome>, home: string, away: string): (t: Triple)
    ensures PositivePresent(t)
  {
    if |outcomes| == 0 then Absent
    else Fill(ReadOutcomes(outcomes[..|outcomes| - 1], home, away), outcomes[|outcomes| - 1], home, away)
  }

  /** The kickoff or last-update timestamp: absent when missing or empty, a
      failure when the parser rejects it. */
  function ParseOptional(raw: Option<string>, parse: Parser): (r: Result<Option<Instant>, BuildError>)
    ensures r.Failure? <==> Truthy(raw) && parse(raw.value).None?
    ensures r == Success(None) <==> !Truthy(raw)
    ensures r.Success? && r.value.Some? ==> Truthy(raw) && parse(raw.value) == r.value
  {
    if raw.None? || raw.value == "" then Success(None)
    else
      match parse(raw.value)
      case None => Failure(UnparsableTimestamp(raw.value))
      case Some(t) => Success(Some(t))
  }

  /** One bookmaker's source, or none when it has no h2h market. */
  function BuildSource(bm: RawBookmaker, home: string, away: string, parse: Parser)
    : (r: Result<Option<SourceProbabilities>, BuildError>)
    ensures r.Failure? <==> FirstH2h(bm.markets).Some? && ParseOptional(FirstH2h(bm.markets).value.lastUpdate, parse).Failure?
    ensures r.Failure? ==> r == Failure(UnparsableTimestamp(FirstH2h(bm.markets).value.lastUpdate.value))
    ensures r.Success? ==> (r.value.None? <==> FirstH2h(bm.markets).None?)
    ensures r.Success? && r.value.Some? ==>
              var m := FirstH2h(bm.markets).value;
              r.value.value.source == bm.key.GetOr(UnknownSource)
              && r.value.value.probabilities == Normalize(ReadOutcomes(m.outcomes, home, away))
              && ParseOptional(m.lastUpdate, parse) == Success(r.value.value.lastUpdate)
  {
    match FirstH2h(bm.markets)
    case None => Success(None)
    case Some(m) =>
      var probabilities := Normalize(ReadOutcomes(m.outcomes, home, away));
      match ParseOptional(m.lastUpdate, parse)
      case Failure(e) => Failure(e)
      case Success(lastUpdate) =>
        Success(Some(SourceProbabilities(bm.key.GetOr(UnknownSource), probabilities, lastUpdate)))
  }

  /** The bookmaker has a market keyed "h2h". */
  predicate Quotes(bm: RawBookmaker) {
    FirstH2h(bm.markets).Some?
  }

  /** The bookmakers that quote an h2h market, in input order. */
  function Quoting(bms: seq<RawBookmaker>): (r: seq<RawBookmaker>)
    ensures |r| <= |bms|
    ensures forall i :: 0 <= i < |r| ==> FirstH2h(r[i].markets).Some?
    ensures forall bm :: bm in r <==> bm in bms && FirstH2h(bm.markets).Some?
  {
    Batches.Filter(Quotes, bms)
  }

  /** `BuildSource` for a fixed fixture, as a function of the bookmaker. */
  function SourceBuilder(home: string, away: string, parse: Parser): RawBookmaker -> Result<Option<SourceProbabilities>, BuildError> {
    bm => BuildSource(bm, home, away, parse)
  }

  /** The sources of one event, in bookmaker order; the first last-update
      timestamp the parser rejects aborts the event. */
  function BuildSources(bms: seq<RawBookmaker>, home: string, away: string, parse: Parser)
    : Result<seq<SourceProbabilities>, BuildError>
  {
    Batches.Collect(SourceBuilder(home, away, parse), bms)
  }

  // ---------------------------------------------------------------------------
  // Reports
  // ---------------------------------------------------------------------------

  /** The report of one event: none for an incomplete event. */
  function BuildReport(league: string, sportKey: string, e: RawEvent, parse: Parser)
    : (r: Result<Option<MatchProbabilityReport>, BuildError>)
    ensures r.Success? ==> (r.value.None? <==> !Complete(e))
  {
    if !Complete(e) then Success(None)
    else
      match parse(e.commenceTime.value)
      case None => Failure(UnparsableTimestamp(e.commenceTime.value))
      case Some(kickoff) =>
        var home := e.homeTeam.value;
        var away := e.awayTeam.value;
        match BuildSources(e.bookmakers, home, away, parse)
        case Failure(err) => Failure(err)
        case Success(sources) => Success(Some(ReportFrom(league, sportKey, e, kickoff, sources)))
  }

  /** The report of the complete event `e` with the given kickoff and sources:
      the consensus of the sources and the recommendation drawn from it. */
  function ReportFrom(league: string, sportKey: string, e: RawEvent, kickoff: Instant, sources: seq<SourceProbabilities>)
    : (r: MatchProbabilityReport)
    requires Complete(e)
    ensures r.averages == Averages(sources)
    ensures Recommendation(r.recommendation, r.recommendationConfidence) == Recommend(r.averages)
  {
    var averages := Averages(sources);
    var rec := Recommend(averages);
    MatchProbabilityReport(
      league, sportKey, e.id.value, kickoff, e.homeTeam.value, e.awayTeam.value, sources,
      averages, rec.outcome, rec.confidence)
  }

  /** `BuildReport` for a fixed league and parser, as a function of the event. */
  function ReportBuilder(league: string, sportKey: string, parse: Parser): RawEvent -> Result<Option<MatchProbabilityReport>, BuildError> {
    e => BuildReport(league, sportKey, e, parse)
  }

  /** The reports of a batch of events, in input order; the first timestamp
      the parser rejects aborts the whole batch. */
  function BuildReports(league: string, sportKey: string, events: seq<RawEvent>, parse: Parser)
    : Result<seq<MatchProbabilityReport>, BuildError>
  {
    Batches.Collect(ReportBuilder(league, sportKey, parse), events)
  }

  // ---------------------------------------------------------------------------
  // Properties
  // ---------------------------------------------------------------------------

  /** Outcome `i` is the last one that fills slot `o`. */
  predicate LastFilling(outcomes: seq<RawOutcome>, home: string, away: string, o: Outcome, i: int) {
    && 0 <= i < |outcomes|
    && Classify(outcomes[i].name, home, away) == Some(o)
    && forall j :: i < j < |outcomes| ==> Classify(outcomes[j].name, home, away) != Some(o)
  }

  /** A slot holds the implied probability of the last outcome that fills it,
      and is absent when no outcome fills it. */
  lemma {:induction false} ReadOutcomesLastWins(outcomes: seq<RawOutcome>, home: string, away: string, o: Outcome)
    ensures (forall i :: 0 <= i < |outcomes| ==> Classify(outcomes[i].name, home, away) != Some(o))
              ==> ReadOutcomes(outcomes, home, away).Get(o).None?
    ensures forall i :: LastFilling(outcomes, home, away, o, i)
              ==> ReadOutcomes(outcomes, home, away).Get(o) == ImpliedProbability(outcomes[i].price)
  {
    if forall i :: 0 <= i < |outcomes| ==> Classify(outcomes[i].name, home, away) != Some(o) {
      ReadOutcomesUnfilled(outcomes, home, away, o);
    }
    if |outcomes| > 0 {
      var n := |outcomes| - 1;
      var prefix := outcomes[..n];
      ReadOutcomesLastWins(prefix, home, away, o);
      ReadOutcomesStep(outcomes, home, away, o);
      forall i | LastFilling(outcomes, home, away, o, i)
        ensures ReadOutcomes(outcomes, home, away).Get(o) == ImpliedProbability(outcomes[i].price)
      {
        if i < n {
          LastFillingPrefix(outcomes, home, away, o, i);
        }
      }
    }
  }

  lemma ReadOutcomesStep(outcomes: seq<RawOutcome>, home: string, away: string, o: Outcome)
    requires |outcomes| > 0
    ensures var last := outcomes[|outcomes| - 1];
            ReadOutcomes(outcomes, home, away).Get(o) ==
              if Classify(last.name, home, away) == Some(o) then ImpliedProbability(last.price)
              else ReadOutcomes(outcomes[..|outcomes| - 1], home, away).Get(o)
  {
  }

  lemma LastFillingPrefix(outcomes: seq<RawOutcome>, home: string, away: string, o: Outcome, i: int)
    requires LastFilling(outcomes, home, away, o, i) && i < |outcomes| - 1
    ensures LastFilling(outcomes[..|outcomes| - 1], home, away, o, i)
    ensures Classify(outcomes[|outcomes| - 1].name, home, away) != Some(o)
  {
    var prefix := outcomes[..|outcomes| - 1];
    assert forall j :: 0 <= j < |prefix| ==> prefix[j] == outcomes[j];
  }

  lemma {:induction false} ReadOutcomesUnfilled(outcomes: seq<RawOutcome>, home: string, away: string, o: Outcome)
    requires forall i :: 0 <= i < |outcomes| ==> Classify(outcomes[i].name, home, away) != Some(o)
    ensures ReadOutcomes(outcomes, home, away).Get(o).None?
  {
    if |outcomes| > 0 {
      var prefix := outcomes[..|outcomes| - 1];
      assert forall j :: 0 <= j < |prefix| ==> prefix[j] == outcomes[j];
      ReadOutcomesUnfilled(prefix, home, away, o);
      ReadOutcomesStep(outcomes, home, away, o);
    }
  }

  /** `s` is the source built from bookmaker `bm`. */
  ghost predicate SourceFrom(s: SourceProbabilities, bm: RawBookmaker, home: string, away: string, parse: Parser) {
    && FirstH2h(bm.markets).Some?
    && s.source == bm.key.GetOr(UnknownSource)
    && s.probabilities == Normalize(ReadOutcomes(FirstH2h(bm.markets).value.outcomes, home, away))
    && ParseOptional(FirstH2h(bm.markets).value.lastUpdate, parse) == Success(s.lastUpdate)
  }

  /** A bookmaker with an h2h market yields the source built from it. */
  lemma BuildSourceFrom(bm: RawBookmaker, home: string, away: string, parse: Parser)
    requires BuildSource(bm, home, away, parse).Success? && FirstH2h(bm.markets).Some?
    ensures BuildSource(bm, home, away, parse).value.Some?
    ensures SourceFrom(BuildSource(bm, home, away, parse).value.value, bm, home, away, parse)
  {
  }

  /** `SourceFrom` as a relation, for a fixed fixture. */
  ghost function SourcesOf(home: string, away: string, parse: Parser): (SourceProbabilities, RawBookmaker) -> bool {
    (s, bm) => SourceFrom(s, bm, home, away, parse)
  }

  /** One source per bookmaker with an h2h market, in bookmaker order. */
  lemma BuildSourcesShape(bms: seq<RawBookmaker>, home: string, away: string, parse: Parser)
    requires BuildSources(bms, home, away, parse).Success?
    ensures Batches.Pairwise(SourcesOf(home, away, parse), BuildSources(bms, home, away, parse).value, Quoting(bms))
  {
    var f := SourceBuilder(home, away, parse);
    forall bm | f(bm).Success?
      ensures (f(bm).value.Some? <==> Quotes(bm)) && (f(bm).value.Some? ==> SourcesOf(home, away, parse)(f(bm).value.value, bm))
    {
      if Quotes(bm) {
        BuildSourceFrom(bm, home, away, parse);
      }
    }
    Batches.CollectShape(f, Quotes, SourcesOf(home, away, parse), bms);
  }

  /** A parser that accepts every string never makes the sources fail. */
  lemma BuildSourcesTotal(bms: seq<RawBookmaker>, home: string, away: string, parse: Parser)
    requires forall s :: parse(s).Some?
    ensures BuildSources(bms, home, away, parse).Success?
  {
    Batches.CollectTotal(SourceBuilder(home, away, parse), bms);
  }

  /** Every source of a built event has its present probabilities in (0, 1],
      summing to exactly one when any is present. */
  lemma BuildSourcesNormalized(bms: seq<RawBookmaker>, home: string, away: string, parse: Parser)
    requires BuildSources(bms, home, away, parse).Success?
    ensures forall s :: s in BuildSources(bms, home, away, parse).value ==>
              UnitPresent(s.probabilities) && (NonePresent(s.probabilities) || PresentSum(s.probabilities) == 1.0)
  {
    var ss := BuildSources(bms, home, away, parse).value;
    BuildSourcesShape(bms, home, away, parse);
    forall s | s in ss
      ensures UnitPresent(s.probabilities) && (NonePresent(s.probabilities) || PresentSum(s.probabilities) == 1.0)
    {
      var i :| 0 <= i < |ss| && ss[i] == s;
      assert SourcesOf(home, away, parse)(s, Quoting(bms)[i]);
      SourceFromNormalized(s, Quoting(bms)[i], home, away, parse);
    }
  }

  lemma SourceFromNormalized(s: SourceProbabilities, bm: RawBookmaker, home: string, away: string, parse: Parser)
    requires SourceFrom(s, bm, home, away, parse)
    ensures UnitPresent(s.probabilities) && (NonePresent(s.probabilities) || PresentSum(s.probabilities) == 1.0)
  {
    NormalizePositiveIsUnit(ReadOutcomes(FirstH2h(bm.markets).value.outcomes, home, away));
  }

  /** `r` is the report of the complete event `e`: its identity, its sources
      built from the event's own bookmakers, and the consensus and
      recommendation computed from those sources. */
  ghost predicate Describes(r: MatchProbabilityReport, e: RawEvent, league: string, sportKey: string, parse: Parser)
    requires Complete(e)
  {
    && parse(e.commenceTime.value) == Some(r.commenceTime)
    && BuildSources(e.bookmakers, e.homeTeam.value, e.awayTeam.value, parse) == Success(r.sources)
    && r == ReportFrom(league, sportKey, e, r.commenceTime, r.sources)
  }

  /** A complete event that builds yields a report describing it. */
  lemma BuildReportDescribes(league: string, sportKey: string, e: RawEvent, parse: Parser)
    requires Complete(e) && BuildReport(league, sportKey, e, parse).Success?
    ensures BuildReport(league, sportKey, e, parse).value.Some?
    ensures Describes(BuildReport(league, sportKey, e, parse).value.value, e, league, sportKey, parse)
  {
  }

  /** `Describes` as a relation, for a fixed league and parser. */
  ghost function ReportsOf(league: string, sportKey: string, parse: Parser): (MatchProbabilityReport, RawEvent) -> bool {
    (r, e) => Complete(e) && Describes(r, e, league, sportKey, parse)
  }

  /** Exactly one report per complete event, in input order. */
  lemma BuildReportsShape(league: string, sportKey: string, events: seq<RawEvent>, parse: Parser)
    requires BuildReports(league, sportKey, events, parse).Success?
    ensures Batches.Pairwise(ReportsOf(league, sportKey, parse), BuildReports(league, sportKey, events, parse).value, Kept(events))
  {
    var f := ReportBuilder(league, sportKey, parse);
    forall e | f(e).Success?
      ensures (f(e).value.Some? <==> Complete(e)) && (f(e).value.Some? ==> ReportsOf(league, sportKey, parse)(f(e).value.value, e))
    {
      if Complete(e) {
        BuildReportDescribes(league, sportKey, e, parse);
      }
    }
    Batches.CollectShape(f, Complete, ReportsOf(league, sportKey, parse), events);
  }

  /** Building a concatenation is building each part: the first failure wins,
      otherwise the reports are concatenated. */
  lemma BuildReportsAppend(league: string, sportKey: string, a: seq<RawEvent>, b: seq<RawEvent>, parse: Parser)
    ensures var ra := BuildReports(league, sportKey, a, parse);
            var rb := BuildReports(league, sportKey, b, parse);
            BuildReports(league, sportKey, a + b, parse) ==
              if ra.Failure? then ra
              else if rb.Failure? then rb
              else Success(ra.value + rb.value)
  {
    Batches.CollectAppend(ReportBuilder(league, sportKey, parse), a, b);
  }

  /** An incomplete event is dropped without affecting any other event. */
  lemma SkipIncomplete(league: string, sportKey: string, a: seq<RawEvent>, e: RawEvent, b: seq<RawEvent>, parse: Parser)
    requires !Complete(e)
    ensures BuildReports(league, sportKey, a + [e] + b, parse) == BuildReports(league, sportKey, a + b, parse)
  {
    Batches.CollectSkip(ReportBuilder(league, sportKey, parse), a, e, b);
  }

  /** A complete event whose kickoff the parser rejects aborts the whole
      batch, whatever surrounds it, unless an earlier event already failed. */
  lemma UnparsableKickoffAborts(league: string, sportKey: string, a: seq<RawEvent>, e: RawEvent, b: seq<RawEvent>, parse: Parser)
    requires Complete(e) && parse(e.commenceTime.value).None?
    ensures BuildReports(league, sportKey, a + [e] + b, parse).Failure?
    ensures BuildReports(league, sportKey, a, parse).Success? ==>
              BuildReports(league, sportKey, a + [e] + b, parse) == Failure(UnparsableTimestamp(e.commenceTime.value))
  {
    Batches.CollectAbort(ReportBuilder(league, sportKey, parse), a, e, b);
  }

  /** A complete event with a parsable kickoff, one of whose bookmakers has an
      h2h market whose last-update timestamp the parser rejects, aborts the
      whole batch; the failure names that timestamp unless an earlier event or
      an earlier bookmaker of the event already failed. */
  lemma UnparsableLastUpdateAborts(league: string, sportKey: string, a: seq<RawEvent>, e: RawEvent, b: seq<RawEvent>,
                                   p: seq<RawBookmaker>, bm: RawBookmaker, q: seq<RawBookmaker>, parse: Parser)
    requires Complete(e) && parse(e.commenceTime.value).Some?
    requires e.bookmakers == p + [bm] + q
    requires FirstH2h(bm.markets).Some? && ParseOptional(FirstH2h(bm.markets).value.lastUpdate, parse).Failure?
    ensures BuildReports(league, sportKey, a + [e] + b, parse).Failure?
    ensures BuildReports(league, sportKey, a, parse).Success? && BuildSources(p, e.homeTeam.value, e.awayTeam.value, parse).Success? ==>
              BuildReports(league, sportKey, a + [e] + b, parse) == Failure(UnparsableTimestamp(FirstH2h(bm.markets).value.lastUpdate.value))
  {
    var home, away := e.homeTeam.value, e.awayTeam.value;
    var g := SourceBuilder(home, away, parse);
    assert g(bm).Failure?;
    Batches.CollectAbort(g, p, bm, q);
    var f := ReportBuilder(league, sportKey, parse);
    assert f(e) == BuildReport(league, sportKey, e, parse);
    assert f(e).Failure?;
    Batches.CollectAbort(f, a, e, b);
  }

  /** The bookmaker's first h2h market has a last-update timestamp the parser rejects. */
  predicate RejectsLastUpdate(bm: RawBookmaker, parse: Parser) {
    FirstH2h(bm.markets).Some? && ParseOptional(FirstH2h(bm.markets).value.lastUpdate, parse).Failure?
  }

  /** A complete event whose kickoff, or one of whose bookmakers' h2h last
      update, the parser rejects. */
  predicate Unparsable(e: RawEvent, parse: Parser) {
    Complete(e)
    && (parse(e.commenceTime.value).None? || exists bm :: bm in e.bookmakers && RejectsLastUpdate(bm, parse))
  }

  /** The build fails exactly when some event is complete and has a kickoff
      or an h2h last-update timestamp the parser rejects. */
  lemma BuildReportsFails(league: string, sportKey: string, events: seq<RawEvent>, parse: Parser)
    ensures BuildReports(league, sportKey, events, parse).Failure? <==> exists e :: e in events && Unparsable(e, parse)
  {
    var f := ReportBuilder(league, sportKey, parse);
    forall e ensures f(e).Failure? <==> Unparsable(e, parse) {
      BuildReportFails(league, sportKey, e, parse);
    }
    Batches.CollectFails(f, events);
  }

  lemma BuildReportFails(league: string, sportKey: string, e: RawEvent, parse: Parser)
    ensures BuildReport(league, sportKey, e, parse).Failure? <==> Unparsable(e, parse)
  {
    if Complete(e) {
      var g := SourceBuilder(e.homeTeam.value, e.awayTeam.value, parse);
      forall bm ensures g(bm).Failure? <==> RejectsLastUpdate(bm, parse) {
      }
      Batches.CollectFails(g, e.bookmakers);
    }
  }

  /** The only thing that can make a build fail is a timestamp the parser rejects. */
  lemma BuildReportsTotal(league: string, sportKey: string, events: seq<RawEvent>, parse: Parser)
    requires forall s :: parse(s).Some?
    ensures BuildReports(league, sportKey, events, parse).Success?
  {
    var f := ReportBuilder(league, sportKey, parse);
    forall e | e in events ensures f(e).Success? {
      if Complete(e) {
        BuildSourcesTotal(e.bookmakers, e.homeTeam.value, e.awayTeam.value, parse);
      }
    }
    Batches.CollectTotal(f, events);
  }

  /** Every built report has its consensus in (0, 1] and its confidence in [0, 1). */
  lemma ReportsInUnit(league: string, sportKey: string, events: seq<RawEvent>, parse: Parser)
    requires BuildReports(league, sportKey, events, parse).Success?
    ensures forall r :: r in BuildReports(league, sportKey, events, parse).value ==>
              UnitPresent(r.averages)
              && (r.recommendationConfidence.Some? ==> 0.0 <= r.recommendationConfidence.value < 1.0)
  {
    var rs := BuildReports(league, sportKey, events, parse).value;
    BuildReportsShape(league, sportKey, events, parse);
    forall r | r in rs
      ensures UnitPresent(r.averages)
      ensures r.recommendationConfidence.Some? ==> 0.0 <= r.recommendationConfidence.value < 1.0
    {
      var i :| 0 <= i < |rs| && rs[i] == r;
      assert ReportsOf(league, sportKey, parse)(r, Kept(events)[i]);
      ReportInUnit(r, Kept(events)[i], league, sportKey, parse);
    }
  }

  lemma ReportInUnit(r: MatchProbabilityReport, e: RawEvent, league: string, sportKey: string, parse: Parser)
    requires Complete(e) && Describes(r, e, league, sportKey, parse)
    ensures UnitPresent(r.averages)
    ensures r.recommendationConfidence.Some? ==> 0.0 <= r.recommendationConfidence.value < 1.0
  {
    BuildSourcesNormalized(e.bookmakers, e.homeTeam.value, e.awayTeam.value, parse);
    AveragesInUnit(r.sources);
    if r.recommendationConfidence.Some? {
      ConfidenceBelowOne(r.averages);
    }
  }

  /** With averages in (0, 1], the margin of the leader is below one. */
  lemma ConfidenceBelowOne(t: Triple)
    requires UnitPresent(t)
    requires Recommend(t).confidence.Some?
    ensures 0.0 <= Recommend(t).confidence.value < 1.0
  {
    RecommendGap(t);
  }

  const ExampleOutcomes := [
    RawOutcome(Some("Arsenal"), Some(2.0)),
    RawOutcome(Some("Draw"), Some(3.0)),
    RawOutcome(Some("Chelsea"), Some(4.0))]
  const ExampleBookmaker := RawBookmaker(Some("bet365"), [RawMarket(Some("h2h"), None, ExampleOutcomes)])
  const ExampleEvent := RawEvent(Some("m1"), Some("Arsenal"), Some("Chelsea"), Some("2024-05-01T15:00:00Z"), [ExampleBookmaker])

  lemma ExampleReadOutcomes()
    ensures ReadOutcomes(ExampleOutcomes, "Arsenal", "Chelsea") == Triple(Some(1.0 / 2.0), Some(1.0 / 3.0), Some(1.0 / 4.0))
  {
    var outcomes := ExampleOutcomes;
    assert TextUtils.Lower("Draw") == "draw";
    assert Classify(Some("Arsenal"), "Arsenal", "Chelsea") == Some(Home);
    assert Classify(Some("Draw"), "Arsenal", "Chelsea") == Some(Draw);
    assert Classify(Some("Chelsea"), "Arsenal", "Chelsea") == Some(Away);
    assert outcomes[..3] == outcomes;
    assert outcomes[..3][..2] == outcomes[..2];
    assert outcomes[..2][..1] == outcomes[..1];
    assert outcomes[..1][..0] == [];
    assert ReadOutcomes([], "Arsenal", "Chelsea") == Absent;
    assert outcomes[..1][0] == outcomes[0];
    var t1 := ReadOutcomes(outcomes[..1], "Arsenal", "Chelsea");
    assert t1 == Fill(Absent, outcomes[0], "Arsenal", "Chelsea");
    var t2 := ReadOutcomes(outcomes[..2], "Arsenal", "Chelsea");
    assert t2 == Fill(t1, outcomes[1], "Arsenal", "Chelsea");
    assert ReadOutcomes(outcomes, "Arsenal", "Chelsea") == Fill(t2, outcomes[2], "Arsenal", "Chelsea");
  }

  lemma ExampleSources(parse: Parser)
    ensures BuildSources(ExampleEvent.bookmakers, "Arsenal", "Chelsea", parse)
            == Success([SourceProbabilities("bet365", Triple(Some(6.0 / 13.0), Some(4.0 / 13.0), Some(3.0 / 13.0)), None)])
  {
    ExampleReadOutcomes();
    NormalizeExample();
    var bm := ExampleBookmaker;
    var t := ReadOutcomes(ExampleOutcomes, "Arsenal", "Chelsea");
    assert t == Triple(ImpliedProbability(Some(2.0)), ImpliedProbability(Some(3.0)), ImpliedProbability(Some(4.0)));
    var src := SourceProbabilities("bet365", Normalize(t), None);
    assert FirstH2h(bm.markets) == Some(bm.markets[0]);
    assert BuildSource(bm, "Arsenal", "Chelsea", parse) == Success(Some(src));
    Batches.CollectSingle(SourceBuilder("Arsenal", "Chelsea", parse), bm);
  }

  lemma ExampleAverages(src: SourceProbabilities)
    requires src.probabilities == Triple(Some(6.0 / 13.0), Some(4.0 / 13.0), Some(3.0 / 13.0))
    ensures Averages([src]) == src.probabilities
  {
    assert [src][1..] == [];
    assert Present([src], Home) == [6.0 / 13.0];
    assert Present([src], Draw) == [4.0 / 13.0];
    assert Present([src], Away) == [3.0 / 13.0];
    assert Sum([6.0 / 13.0]) == 6.0 / 13.0;
    assert Sum([4.0 / 13.0]) == 4.0 / 13.0;
    assert Sum([3.0 / 13.0]) == 3.0 / 13.0;
  }

  lemma ExampleRecommend()
    ensures Recommend(Triple(Some(6.0 / 13.0), Some(4.0 / 13.0), Some(3.0 / 13.0)))
            == Recommendation(Some(Home), Some(2.0 / 13.0))
  {
    var n := Triple(Some(6.0 / 13.0), Some(4.0 / 13.0), Some(3.0 / 13.0));
    var rec := Recommend(n);
    RecommendGap(n);
    assert rec.outcome == Some(Home) by {
      assert n.Get(rec.outcome.value).value >= 6.0 / 13.0;
    }
  }

  /** One bookmaker quoting home 2.0, draw 3.0 and away 4.0: the single
      report's consensus is 6/13, 4/13 and 3/13, and home is recommended by
      a margin of 2/13. */
  lemma SingleBookmakerExample(parse: Parser)
    requires parse("2024-05-01T15:00:00Z").Some?
    ensures var rs := BuildReports("epl", "soccer_epl", [ExampleEvent], parse);
            rs.Success? && |rs.value| == 1
            && rs.value[0].averages == Triple(Some(6.0 / 13.0), Some(4.0 / 13.0), Some(3.0 / 13.0))
            && rs.value[0].recommendation == Some(Home)
            && rs.value[0].recommendationConfidence == Some(2.0 / 13.0)
  {
    var n := Triple(Some(6.0 / 13.0), Some(4.0 / 13.0), Some(3.0 / 13.0));
    var src := SourceProbabilities("bet365", n, None);
    ExampleSources(parse);
    ExampleAverages(src);
    ExampleRecommend();
    assert Complete(ExampleEvent);
    var kickoff := parse("2024-05-01T15:00:00Z").value;
    var rep := ReportFrom("epl", "soccer_epl", ExampleEvent, kickoff, [src]);
    assert BuildReport("epl", "soccer_epl", ExampleEvent, parse) == Success(Some(rep));
    Batches.CollectSingle(ReportBuilder("epl", "soccer_epl", parse), ExampleEvent);
    assert rep.averages == n;
  }
}
