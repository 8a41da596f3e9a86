/** Matching consensus reports to prediction-market questions: the market
    filter applied to a listing, the de-duplication of markets by normalized
    question, and the mapping from match id to the market whose question
    names both teams. */
module Polymarket {
  import opened Wrappers
  import opened Reports
  import TextUtils
  import Batches

  datatype PolymarketMarket = PolymarketMarket(
    id: string,
    question: string,
    slug: string,
    active: bool,
    closed: bool,
    startTime: Option<string>,
    endTime: Option<string>)
  {
    function NormalizedQuestion(): string {
      TextUtils.NormalizeText(question)
    }
  }

  // ---------------------------------------------------------------------------
  // Substrings
  // ---------------------------------------------------------------------------

  /** `needle` occurs somewhere in `hay` (the string `in` operator). */
  predicate Contains(hay: string, needle: string)
    decreases |hay|
  {
    needle <= hay || (|hay| > 0 && Contains(hay[1..], needle))
  }

  /** `needle` sits in `hay` starting at position `i`. */
  predicate OccursAt(hay: string, needle: string, i: nat) {
    i + |needle| <= |hay| && hay[i..i + |needle|] == needle
  }

  /** `Contains` agrees with the positional definition of a substring. */
  lemma {:induction false} ContainsAt(hay: string, needle: string)
    ensures Contains(hay, needle) <==> exists i: nat :: OccursAt(hay, needle, i)
    decreases |hay|
  {
    if needle <= hay {
      assert OccursAt(hay, needle, 0);
    } else if |hay| > 0 {
      ContainsAt(hay[1..], needle);
      if exists i: nat :: OccursAt(hay, needle, i) {
        var i: nat :| OccursAt(hay, needle, i);
        assert i != 0;
        assert OccursAt(hay[1..], needle, i - 1) by {
          assert hay[1..][i - 1..i - 1 + |needle|] == hay[i..i + |needle|];
        }
      }
      if Contains(hay[1..], needle) {
        var i: nat :| OccursAt(hay[1..], needle, i);
        assert OccursAt(hay, needle, i + 1) by {
          assert hay[1..][i..i + |needle|] == hay[i + 1..i + 1 + |needle|];
        }
      }
    }
  }

  // ---------------------------------------------------------------------------
  // The market listing filter
  // ---------------------------------------------------------------------------

  /** A market is listed when it has a question and, unless closed markets
      are asked for, is active and not closed. */
  predicate Listed(m: PolymarketMarket, includeClosed: bool) {
    m.question != "" && (includeClosed || (m.active && !m.closed))
  }

  /** The filter as a test on one market. */
  function ListedIn(includeClosed: bool): PolymarketMarket -> bool {
    m => Listed(m, includeClosed)
  }

  /** The markets that pass the filter: exactly those listed, in input order. */
  function FilterMarkets(markets: seq<PolymarketMarket>, includeClosed: bool): (r: seq<PolymarketMarket>)
    ensures |r| <= |markets|
    ensures forall i :: 0 <= i < |r| ==> Listed(r[i], includeClosed)
    ensures forall m :: m in r <==> m in markets && Listed(m, includeClosed)
  {
    Batches.Filter(ListedIn(includeClosed), markets)
  }

  /** Filtering keeps the listing's order: it distributes over concatenation. */
  lemma FilterMarketsAppend(a: seq<PolymarketMarket>, b: seq<PolymarketMarket>, includeClosed: bool)
    ensures FilterMarkets(a + b, includeClosed) == FilterMarkets(a, includeClosed) + FilterMarkets(b, includeClosed)
  {
    Batches.FilterAppend(ListedIn(includeClosed), a, b);
  }

  /** Asking for closed markets lists every market that has a question;
      otherwise only the open, active ones are listed. */
  lemma FilterModes(markets: seq<PolymarketMarket>)
    ensures forall m :: m in FilterMarkets(markets, true) <==> m in markets && m.question != ""
    ensures forall m :: m in FilterMarkets(markets, false) <==>
              m in markets && m.question != "" && m.active && !m.closed
  {
  }

  // ---------------------------------------------------------------------------
  // Markets keyed by normalized question
  // ---------------------------------------------------------------------------

  /** One entry of the question-keyed table. */
  datatype Entry = Entry(question: string, market: PolymarketMarket)

  /** Some entry has key `q`. */
  predicate HasKey(es: seq<Entry>, q: string) {
    exists i :: 0 <= i < |es| && es[i].question == q
  }

  predicate DistinctQuestions(es: seq<Entry>) {
    forall i, j :: 0 <= i < j < |es| ==> es[i].question != es[j].question
  }

  /** The position of key `q`, or -1 when there is none. */
  function Find(es: seq<Entry>, q: string): (r: int)
    ensures -1 <= r < |es|
    ensures r >= 0 ==> es[r].question == q
    ensures r == -1 <==> !HasKey(es, q)
  {
    if |es| == 0 then -1
    else if es[0].question == q then 0
    else
      var k := Find(es[1..], q);
      assert forall i :: 1 <= i < |es| ==> es[i] == es[1..][i - 1];
      if k < 0 then -1 else k + 1
  }

  /** The table after `q` is bound to `m`: an existing key keeps its place
      and takes the new market, a new key goes at the end. */
  function Put(es: seq<Entry>, q: string, m: PolymarketMarket): (r: seq<Entry>)
    requires DistinctQuestions(es)
    ensures DistinctQuestions(r)
  {
    var k := Find(es, q);
    if k >= 0 then es[k := Entry(q, m)] else es + [Entry(q, m)]
  }

  /** Each market tagged with its normalized question. */
  function Tagged(ms: seq<PolymarketMarket>): (r: seq<Entry>)
    ensures |r| == |ms|
    ensures forall i :: 0 <= i < |ms| ==> r[i] == Entry(ms[i].NormalizedQuestion(), ms[i])
  {
    seq(|ms|, i requires 0 <= i < |ms| => Entry(ms[i].NormalizedQuestion(), ms[i]))
  }

  /** The tagged markets as a table, in the order each question first
      appears, each question bound to the last market that has it. */
  function Table(items: seq<Entry>): (r: seq<Entry>)
    ensures DistinctQuestions(r)
  {
    if |items| == 0 then []
    else Put(Table(items[..|items| - 1]), items[|items| - 1].question, items[|items| - 1].market)
  }

  /** The first position of an item with question `q`, or -1. */
  function FirstIndexOf(items: seq<Entry>, q: string): (r: int)
    ensures -1 <= r < |items|
  {
    if |items| == 0 then -1
    else if FirstIndexOf(items[..|items| - 1], q) >= 0 then FirstIndexOf(items[..|items| - 1], q)
    else if items[|items| - 1].question == q then |items| - 1
    else -1
  }

  /** The last position of an item with question `q`, or -1. */
  function LastIndexOf(items: seq<Entry>, q: string): (r: int)
    ensures -1 <= r < |items|
  {
    if |items| == 0 then -1
    else if items[|items| - 1].question == q then |items| - 1
    else LastIndexOf(items[..|items| - 1], q)
  }

  /** `FirstIndexOf` finds the first item with the question, and reports
      -1 exactly when there is none. */
  lemma {:induction false} FirstIndexOfSpec(items: seq<Entry>, q: string)
    ensures FirstIndexOf(items, q) == -1 <==> forall k :: 0 <= k < |items| ==> items[k].question != q
    ensures FirstIndexOf(items, q) >= 0 ==>
              && items[FirstIndexOf(items, q)].question == q
              && forall k :: 0 <= k < FirstIndexOf(items, q) ==> items[k].question != q
  {
    if |items| > 0 {
      var prefix := items[..|items| - 1];
      FirstIndexOfSpec(prefix, q);
      assert forall k :: 0 <= k < |prefix| ==> prefix[k] == items[k];
    }
  }

  /** `LastIndexOf` finds the last item with the question, and reports
      -1 exactly when there is none. */
  lemma {:induction false} LastIndexOfSpec(items: seq<Entry>, q: string)
    ensures LastIndexOf(items, q) == -1 <==> forall k :: 0 <= k < |items| ==> items[k].question != q
    ensures LastIndexOf(items, q) >= 0 ==>
              && items[LastIndexOf(items, q)].question == q
              && forall k :: LastIndexOf(items, q) < k < |items| ==> items[k].question != q
  {
    if |items| > 0 {
      var prefix := items[..|items| - 1];
      LastIndexOfSpec(prefix, q);
      assert forall k :: 0 <= k < |prefix| ==> prefix[k] == items[k];
    }
  }

  /** The table built from `items`: one key per question that occurs, in
      order of first occurrence, bound to the market of its last item. */
  ghost predicate Keyed(es: seq<Entry>, items: seq<Entry>) {
    && (forall q :: HasKey(es, q) <==> FirstIndexOf(items, q) >= 0)
    && (forall i :: 0 <= i < |es| ==>
          LastIndexOf(items, es[i].question) >= 0 && es[i].market == items[LastIndexOf(items, es[i].question)].market)
    && (forall i, j :: 0 <= i < j < |es| ==>
          FirstIndexOf(items, es[i].question) < FirstIndexOf(items, es[j].question))
  }

  lemma {:induction false} TableKeyed(items: seq<Entry>)
    ensures Keyed(Table(items), items)
  {
    if |items| > 0 {
      var prefix := items[..|items| - 1];
      TableKeyed(prefix);
      KeyedStep(Table(prefix), prefix, items[|items| - 1]);
      assert prefix + [items[|items| - 1]] == items;
    }
  }

  lemma KeyedStep(es: seq<Entry>, prefix: seq<Entry>, e: Entry)
    requires DistinctQuestions(es) && Keyed(es, prefix)
    ensures Keyed(Put(es, e.question, e.market), prefix + [e])
  {
    KeyedStepKeys(es, prefix, e);
    KeyedStepLast(es, prefix, e);
    KeyedStepOrder(es, prefix, e);
  }

  /** Positions in `prefix + [e]` in terms of positions in `prefix`. */
  lemma IndexOfAppend(prefix: seq<Entry>, e: Entry, p: string)
    ensures FirstIndexOf(prefix + [e], p) ==
              if FirstIndexOf(prefix, p) >= 0 then FirstIndexOf(prefix, p)
              else if e.question == p then |prefix| else -1
    ensures LastIndexOf(prefix + [e], p) == if e.question == p then |prefix| else LastIndexOf(prefix, p)
  {
    assert (prefix + [e])[..|prefix|] == prefix;
  }

  /** The keys after `Put` are the old keys and the new one. */
  lemma PutKeys(es: seq<Entry>, q: string, m: PolymarketMarket, p: string)
    requires DistinctQuestions(es)
    ensures HasKey(Put(es, q, m), p) <==> HasKey(es, p) || p == q
  {
    var r := Put(es, q, m);
    var k := Find(es, q);
    if HasKey(r, p) {
      var i :| 0 <= i < |r| && r[i].question == p;
      if i < |es| && p != q {
        assert es[i].question == p;
      }
    }
    if HasKey(es, p) {
      var i :| 0 <= i < |es| && es[i].question == p;
      assert r[i].question == p;
    }
    if p == q {
      if k >= 0 {
        assert r[k].question == q;
      } else {
        assert r[|es|].question == q;
      }
    }
  }

  lemma KeyedStepKeys(es: seq<Entry>, prefix: seq<Entry>, e: Entry)
    requires DistinctQuestions(es) && Keyed(es, prefix)
    ensures forall p :: HasKey(Put(es, e.question, e.market), p) <==> FirstIndexOf(prefix + [e], p) >= 0
  {
    forall p ensures HasKey(Put(es, e.question, e.market), p) <==> FirstIndexOf(prefix + [e], p) >= 0 {
      PutKeys(es, e.question, e.market, p);
      IndexOfAppend(prefix, e, p);
    }
  }

  /** The entries of `Put` position by position. */
  lemma PutAt(es: seq<Entry>, q: string, m: PolymarketMarket)
    requires DistinctQuestions(es)
    ensures var r := Put(es, q, m);
            && |r| == (if HasKey(es, q) then |es| else |es| + 1)
            && (forall i :: 0 <= i < |es| ==> r[i] == if es[i].question == q then Entry(q, m) else es[i])
            && (!HasKey(es, q) ==> r[|es|] == Entry(q, m))
  {
  }

  lemma KeyedStepLast(es: seq<Entry>, prefix: seq<Entry>, e: Entry)
    requires DistinctQuestions(es) && Keyed(es, prefix)
    ensures var r := Put(es, e.question, e.market);
            var items := prefix + [e];
            forall i :: 0 <= i < |r| ==>
              LastIndexOf(items, r[i].question) >= 0 && r[i].market == items[LastIndexOf(items, r[i].question)].market
  {
    var r := Put(es, e.question, e.market);
    var items := prefix + [e];
    PutAt(es, e.question, e.market);
    forall i | 0 <= i < |r|
      ensures LastIndexOf(items, r[i].question) >= 0 && r[i].market == items[LastIndexOf(items, r[i].question)].market
    {
      IndexOfAppend(prefix, e, r[i].question);
      if r[i].question != e.question {
        assert i < |es| && r[i] == es[i];
        assert items[LastIndexOf(prefix, es[i].question)] == prefix[LastIndexOf(prefix, es[i].question)];
      }
    }
  }

  lemma KeyedStepOrder(es: seq<Entry>, prefix: seq<Entry>, e: Entry)
    requires DistinctQuestions(es) && Keyed(es, prefix)
    ensures var r := Put(es, e.question, e.market);
            var items := prefix + [e];
            forall i, j :: 0 <= i < j < |r| ==>
              FirstIndexOf(items, r[i].question) < FirstIndexOf(items, r[j].question)
  {
    var r := Put(es, e.question, e.market);
    var k := Find(es, e.question);
    if k >= 0 {
      assert r == es[k := Entry(e.question, e.market)];
      forall i, j | 0 <= i < j < |r|
        ensures FirstIndexOf(prefix + [e], r[i].question) < FirstIndexOf(prefix + [e], r[j].question)
      {
        assert r[i].question == es[i].question && r[j].question == es[j].question;
        OrderOld(es, prefix, e, i, j);
      }
    } else {
      assert r == es + [Entry(e.question, e.market)];
      forall i, j | 0 <= i < j < |r|
        ensures FirstIndexOf(prefix + [e], r[i].question) < FirstIndexOf(prefix + [e], r[j].question)
      {
        assert r[i] == es[i];
        if j < |es| {
          assert r[j] == es[j];
          OrderOld(es, prefix, e, i, j);
        } else {
          assert r[j].question == e.question;
          OrderNew(es, prefix, e, i);
        }
      }
    }
  }

  /** Two old keys keep their first positions. */
  lemma OrderOld(es: seq<Entry>, prefix: seq<Entry>, e: Entry, i: int, j: int)
    requires Keyed(es, prefix) && 0 <= i < j < |es|
    ensures FirstIndexOf(prefix + [e], es[i].question) < FirstIndexOf(prefix + [e], es[j].question)
  {
    assert HasKey(es, es[i].question) && HasKey(es, es[j].question);
    IndexOfAppend(prefix, e, es[i].question);
    IndexOfAppend(prefix, e, es[j].question);
  }

  /** A new key first occurs after every old key. */
  lemma OrderNew(es: seq<Entry>, prefix: seq<Entry>, e: Entry, i: int)
    requires Keyed(es, prefix) && 0 <= i < |es| && !HasKey(es, e.question)
    ensures FirstIndexOf(prefix + [e], es[i].question) < FirstIndexOf(prefix + [e], e.question)
  {
    assert HasKey(es, es[i].question);
    IndexOfAppend(prefix, e, es[i].question);
    IndexOfAppend(prefix, e, e.question);
  }

  /** The question-keyed table of a market listing. */
  function Entries(ms: seq<PolymarketMarket>): seq<Entry> {
    Table(Tagged(ms))
  }

  /** Every key of the table is the normalized question of the market it
      holds, and that market is one of the listing. */
  lemma EntriesFromMarkets(ms: seq<PolymarketMarket>)
    ensures var es := Entries(ms);
            forall i :: 0 <= i < |es| ==>
              es[i].market in ms && es[i].market.NormalizedQuestion() == es[i].question
  {
    var items := Tagged(ms);
    var es := Entries(ms);
    TableKeyed(items);
    forall i | 0 <= i < |es|
      ensures es[i].market in ms && es[i].market.NormalizedQuestion() == es[i].question
    {
      LastIndexOfSpec(items, es[i].question);
    }
  }

  /** Every market's normalized question is a key of the table. */
  lemma EntriesCoverMarkets(ms: seq<PolymarketMarket>, k: nat)
    requires k < |ms|
    ensures HasKey(Entries(ms), ms[k].NormalizedQuestion())
  {
    var items := Tagged(ms);
    TableKeyed(items);
    FirstIndexOfSpec(items, ms[k].NormalizedQuestion());
    assert items[k].question == ms[k].NormalizedQuestion();
  }

  // ---------------------------------------------------------------------------
  // Matching reports to markets
  // ---------------------------------------------------------------------------

  /** A question names both teams: each normalized name occurs in it. */
  predicate NamesBoth(question: string, home: string, away: string) {
    Contains(question, home) && Contains(question, away)
  }

  /** The four fixture phrasings tried in turn. */
  function Candidates(home: string, away: string): seq<string> {
    [home + " vs " + away, away + " vs " + home, home + " v " + away, away + " v " + home]
  }

  /** The scan of the table for one candidate phrasing: the first entry
      whose question names both teams and then either contains the
      candidate or, again, names both teams. */
  function ScanEntries(es: seq<Entry>, home: string, away: string, candidate: string): Option<PolymarketMarket> {
    if |es| == 0 then None
    else if NamesBoth(es[0].question, home, away)
         && (Contains(es[0].question, candidate) || NamesBoth(es[0].question, home, away))
    then Some(es[0].market)
    else ScanEntries(es[1..], home, away, candidate)
  }

  /** The candidates tried in order until one scan finds a market. */
  function ScanCandidates(candidates: seq<string>, es: seq<Entry>, home: string, away: string): Option<PolymarketMarket> {
    if |candidates| == 0 then None
    else
      var found := ScanEntries(es, home, away, candidates[0]);
      if found.Some? then found else ScanCandidates(candidates[1..], es, home, away)
  }

  /** The market matched to one report. */
  function MarketFor(report: MatchProbabilityReport, es: seq<Entry>): Option<PolymarketMarket> {
    var home := TextUtils.NormalizeText(report.homeTeam);
    var away := TextUtils.NormalizeText(report.awayTeam);
    ScanCandidates(Candidates(home, away), es, home, away)
  }

  /** Entry `i` is the first whose question names both teams. */
  predicate FirstNamingAt(es: seq<Entry>, home: string, away: string, i: int) {
    && 0 <= i < |es|
    && NamesBoth(es[i].question, home, away)
    && forall j :: 0 <= j < i ==> !NamesBoth(es[j].question, home, away)
  }

  /** The first entry whose question names both teams: a reference
      definition with no candidate phrasing. */
  function FirstNaming(es: seq<Entry>, home: string, away: string): (r: Option<PolymarketMarket>)
    ensures r.None? <==> forall i :: 0 <= i < |es| ==> !NamesBoth(es[i].question, home, away)
    ensures r.Some? ==> exists i :: FirstNamingAt(es, home, away, i) && r.value == es[i].market
  {
    if |es| == 0 then None
    else if NamesBoth(es[0].question, home, away) then
      assert FirstNamingAt(es, home, away, 0);
      Some(es[0].market)
    else
      var r := FirstNaming(es[1..], home, away);
      assert forall i :: 1 <= i < |es| ==> es[i] == es[1..][i - 1];
      if r.Some? then
        var i :| FirstNamingAt(es[1..], home, away, i) && r.value == es[1..][i].market;
        assert FirstNamingAt(es, home, away, i + 1);
        r
      else r
  }

  /** Each scan finds the first entry naming both teams, whatever the candidate. */
  lemma {:induction false} ScanIsFirstNaming(es: seq<Entry>, home: string, away: string, candidate: string)
    ensures ScanEntries(es, home, away, candidate) == FirstNaming(es, home, away)
  {
    if |es| > 0 {
      ScanIsFirstNaming(es[1..], home, away, candidate);
    }
  }

  /** The candidate phrasings have no effect: matching picks the first
      entry in table order whose question contains both normalized names. */
  lemma MarketForIsFirstNaming(report: MatchProbabilityReport, es: seq<Entry>)
    ensures MarketFor(report, es) ==
              FirstNaming(es, TextUtils.NormalizeText(report.homeTeam), TextUtils.NormalizeText(report.awayTeam))
  {
    var home := TextUtils.NormalizeText(report.homeTeam);
    var away := TextUtils.NormalizeText(report.awayTeam);
    ScanCandidatesIsFirstNaming(Candidates(home, away), es, home, away);
  }

  lemma {:induction false} ScanCandidatesIsFirstNaming(candidates: seq<string>, es: seq<Entry>, home: string, away: string)
    requires |candidates| > 0
    ensures ScanCandidates(candidates, es, home, away) == FirstNaming(es, home, away)
  {
    ScanIsFirstNaming(es, home, away, candidates[0]);
    if |candidates| > 1 {
      ScanCandidatesIsFirstNaming(candidates[1..], es, home, away);
    }
  }

  /** Id to found market, pairs taken in order: a later find for the same
      id replaces an earlier one, a later miss leaves it. */
  function Record(ids: seq<string>, found: seq<Option<PolymarketMarket>>): map<string, PolymarketMarket>
    requires |ids| == |found|
  {
    if |ids| == 0 then map[]
    else
      var prev := Record(ids[..|ids| - 1], found[..|ids| - 1]);
      match found[|ids| - 1]
      case Some(m) => prev[ids[|ids| - 1] := m]
      case None => prev
  }

  /** The market found for each report, in report order. */
  function Lookups(reports: seq<MatchProbabilityReport>, es: seq<Entry>): (r: seq<Option<PolymarketMarket>>)
    ensures |r| == |reports|
    ensures forall k :: 0 <= k < |reports| ==> r[k] == MarketFor(reports[k], es)
  {
    seq(|reports|, k requires 0 <= k < |reports| => MarketFor(reports[k], es))
  }

  function MatchIds(reports: seq<MatchProbabilityReport>): (r: seq<string>)
    ensures |r| == |reports|
    ensures forall k :: 0 <= k < |reports| ==> r[k] == reports[k].matchId
  {
    seq(|reports|, k requires 0 <= k < |reports| => reports[k].matchId)
  }

  function MatchReportsToPolymarket(reports: seq<MatchProbabilityReport>, markets: seq<PolymarketMarket>): map<string, PolymarketMarket> {
    Record(MatchIds(reports), Lookups(reports, Entries(markets)))
  }

  /** Pair `k` is the last pair with id `id` that found a market. */
  predicate LastFoundAt(ids: seq<string>, found: seq<Option<PolymarketMarket>>, id: string, k: int) {
    && |ids| == |found|
    && 0 <= k < |ids|
    && ids[k] == id
    && found[k].Some?
    && forall j :: k < j < |ids| && ids[j] == id ==> found[j].None?
  }

  /** An id is recorded exactly when some pair with that id found a market. */
  lemma {:induction false} RecordKeys(ids: seq<string>, found: seq<Option<PolymarketMarket>>, id: string)
    requires |ids| == |found|
    ensures id in Record(ids, found) <==> exists k :: 0 <= k < |ids| && ids[k] == id && found[k].Some?
  {
    if |ids| > 0 {
      var n := |ids| - 1;
      RecordKeys(ids[..n], found[..n], id);
      assert forall k :: 0 <= k < n ==> ids[..n][k] == ids[k] && found[..n][k] == found[k];
    }
  }

  /** The recorded market is the one found by the last pair that found one. */
  lemma {:induction false} RecordLastWins(ids: seq<string>, found: seq<Option<PolymarketMarket>>, id: string, k: int)
    requires LastFoundAt(ids, found, id, k)
    ensures id in Record(ids, found) && Record(ids, found)[id] == found[k].value
  {
    var n := |ids| - 1;
    if k < n {
      assert LastFoundAt(ids[..n], found[..n], id, k);
      RecordLastWins(ids[..n], found[..n], id, k);
    }
  }

  /** Every recorded market was found by some pair with that id. */
  lemma {:induction false} RecordFound(ids: seq<string>, found: seq<Option<PolymarketMarket>>, id: string)
    requires |ids| == |found| && id in Record(ids, found)
    ensures exists k :: 0 <= k < |ids| && ids[k] == id && found[k] == Some(Record(ids, found)[id])
  {
    var n := |ids| - 1;
    if ids[n] == id && found[n].Some? {
      assert found[n] == Some(Record(ids, found)[id]);
    } else {
      RecordFound(ids[..n], found[..n], id);
      var k :| 0 <= k < n && ids[..n][k] == id && found[..n][k] == Some(Record(ids[..n], found[..n])[id]);
      assert ids[k] == id && found[k] == found[..n][k];
    }
  }

  /** An id is mapped exactly when some report with that id found a market;
      the market is the one found for the last such report. */
  lemma MatchKeys(reports: seq<MatchProbabilityReport>, markets: seq<PolymarketMarket>, id: string)
    ensures var es := Entries(markets);
            && (id in MatchReportsToPolymarket(reports, markets) <==>
                 exists k :: 0 <= k < |reports| && reports[k].matchId == id && MarketFor(reports[k], es).Some?)
            && forall k :: LastFoundAt(MatchIds(reports), Lookups(reports, es), id, k) ==>
                 id in MatchReportsToPolymarket(reports, markets)
                 && MatchReportsToPolymarket(reports, markets)[id] == MarketFor(reports[k], es).value
  {
    var es := Entries(markets);
    RecordKeys(MatchIds(reports), Lookups(reports, es), id);
    forall k | LastFoundAt(MatchIds(reports), Lookups(reports, es), id, k)
      ensures id in MatchReportsToPolymarket(reports, markets)
      ensures MatchReportsToPolymarket(reports, markets)[id] == MarketFor(reports[k], es).value
    {
      RecordLastWins(MatchIds(reports), Lookups(reports, es), id, k);
    }
  }

  /** A mapped market is one of the listing, and its normalized question
      contains both normalized team names of a report with that id. */
  lemma MatchSound(reports: seq<MatchProbabilityReport>, markets: seq<PolymarketMarket>, id: string)
    requires id in MatchReportsToPolymarket(reports, markets)
    ensures var m := MatchReportsToPolymarket(reports, markets)[id];
            && m in markets
            && exists k :: 0 <= k < |reports| && reports[k].matchId == id
                 && NamesBoth(m.NormalizedQuestion(),
                              TextUtils.NormalizeText(reports[k].homeTeam), TextUtils.NormalizeText(reports[k].awayTeam))
  {
    var es := Entries(markets);
    var m := MatchReportsToPolymarket(reports, markets)[id];
    RecordFound(MatchIds(reports), Lookups(reports, es), id);
    var k :| 0 <= k < |reports| && MatchIds(reports)[k] == id && Lookups(reports, es)[k] == Some(m);
    var home := TextUtils.NormalizeText(reports[k].homeTeam);
    var away := TextUtils.NormalizeText(reports[k].awayTeam);
    MarketForIsFirstNaming(reports[k], es);
    var i :| FirstNamingAt(es, home, away, i) && m == es[i].market;
    EntriesFromMarkets(markets);
  }

  /** A report whose normalized team names both occur in the normalized
      question of some listed market is always mapped. */
  lemma MatchComplete(reports: seq<MatchProbabilityReport>, markets: seq<PolymarketMarket>, k: nat, m: nat)
    requires k < |reports| && m < |markets|
    requires NamesBoth(markets[m].NormalizedQuestion(),
                       TextUtils.NormalizeText(reports[k].homeTeam), TextUtils.NormalizeText(reports[k].awayTeam))
    ensures reports[k].matchId in MatchReportsToPolymarket(reports, markets)
  {
    var es := Entries(markets);
    var q := markets[m].NormalizedQuestion();
    EntriesCoverMarkets(markets, m);
    var i :| 0 <= i < |es| && es[i].question == q;
    MarketForIsFirstNaming(reports[k], es);
    RecordKeys(MatchIds(reports), Lookups(reports, es), reports[k].matchId);
    assert MatchIds(reports)[k] == reports[k].matchId && Lookups(reports, es)[k].Some?;
  }

  /** A report whose team names both normalize to the empty string (names
      made only of punctuation or of letters with no ASCII decomposition)
      names every question, so it is matched to the first table entry:
      the one for the first listed market's question. */
  lemma BlankNamesMatchFirst(report: MatchProbabilityReport, markets: seq<PolymarketMarket>)
    requires TextUtils.NormalizeText(report.homeTeam) == "" && TextUtils.NormalizeText(report.awayTeam) == ""
    requires |markets| > 0
    ensures |Entries(markets)| > 0
    ensures Entries(markets)[0].question == markets[0].NormalizedQuestion()
    ensures MarketFor(report, Entries(markets)) == Some(Entries(markets)[0].market)
  {
    var es := Entries(markets);
    var items := Tagged(markets);
    EntriesCoverMarkets(markets, 0);
    TableKeyed(items);
    var q := markets[0].NormalizedQuestion();
    var i :| 0 <= i < |es| && es[i].question == q;
    assert items[0].question == q;
    FirstIndexOfSpec(items, q);
    assert NamesBoth(es[0].question, "", "");
    MarketForIsFirstNaming(report, es);
  }
}
