/** Per-outcome consensus over the bookmakers that quote an event, and the
    choice of the leading outcome with its margin over the runner-up. */
module Consensus {
  import opened Wrappers
  import opened Probability
  import opened Timestamps
  import Sorting

  /** One bookmaker's normalized probabilities for one event. */
  datatype SourceProbabilities = SourceProbabilities(
    source: string,
    probabilities: Triple,
    lastUpdate: Option<Instant>)

  // ---------------------------------------------------------------------------
  // Averages
  // ---------------------------------------------------------------------------

  /** How many sources quote outcome `o`. */
  function Reporting(sources: seq<SourceProbabilities>, o: Outcome): nat {
    if |sources| == 0 then 0
    else (if sources[0].probabilities.Get(o).Some? then 1 else 0) + Reporting(sources[1..], o)
  }

  /** The sum of the quotes for outcome `o`; a silent source adds nothing. */
  function TotalReported(sources: seq<SourceProbabilities>, o: Outcome): real {
    if |sources| == 0 then 0.0
    else sources[0].probabilities.Get(o).GetOr(0.0) + TotalReported(sources[1..], o)
  }

  /** The present quotes for outcome `o`, in source order. */
  function Present(sources: seq<SourceProbabilities>, o: Outcome): (vs: seq<real>)
    ensures |vs| == Reporting(sources, o)
  {
    if |sources| == 0 then []
    else
      var p := sources[0].probabilities.Get(o);
      (if p.Some? then [p.value] else []) + Present(sources[1..], o)
  }

  function Sum(vs: seq<real>): real {
    if |vs| == 0 then 0.0 else vs[0] + Sum(vs[1..])
  }

  /** The arithmetic mean, absent for no values. */
  function Mean(vs: seq<real>): (r: Option<real>)
    ensures r.None? <==> |vs| == 0
    ensures r.Some? ==> r.value * (|vs| as real) == Sum(vs)
  {
    if |vs| == 0 then None else Some(Sum(vs) / (|vs| as real))
  }

  lemma {:induction false} SumOfPresent(sources: seq<SourceProbabilities>, o: Outcome)
    ensures Sum(Present(sources, o)) == TotalReported(sources, o)
  {
    if |sources| > 0 {
      SumOfPresent(sources[1..], o);
      var p := sources[0].probabilities.Get(o);
      var head: seq<real> := if p.Some? then [p.value] else [];
      SumAppend(head, Present(sources[1..], o));
    }
  }

  lemma {:induction false} SumAppend(a: seq<real>, b: seq<real>)
    ensures Sum(a + b) == Sum(a) + Sum(b)
  {
    if |a| > 0 {
      SumAppend(a[1..], b);
      assert (a + b)[1..] == a[1..] + b;
    } else {
      assert a + b == b;
    }
  }

  /** No source quotes outcome `o`. */
  ghost predicate Silent(sources: seq<SourceProbabilities>, o: Outcome) {
    forall i :: 0 <= i < |sources| ==> sources[i].probabilities.Get(o).None?
  }

  lemma {:induction false} ReportingNone(sources: seq<SourceProbabilities>, o: Outcome)
    ensures Reporting(sources, o) == 0 <==> Silent(sources, o)
  {
    if |sources| > 0 {
      ReportingNone(sources[1..], o);
      assert forall i :: 1 <= i < |sources| ==> sources[i] == sources[1..][i - 1];
    }
  }

  /** Some source quotes `o` and `m` is the sum of the quotes divided by the
      number of sources quoting: the mean over exactly those sources. */
  predicate IsMeanOf(m: real, sources: seq<SourceProbabilities>, o: Outcome) {
    Reporting(sources, o) > 0 && m == TotalReported(sources, o) / (Reporting(sources, o) as real)
  }

  function MeanOf(sources: seq<SourceProbabilities>, o: Outcome): (r: Option<real>)
    ensures r.None? <==> Silent(sources, o)
    ensures r.Some? ==> IsMeanOf(r.value, sources, o)
  {
    var vs := Present(sources, o);
    SumOfPresent(sources, o);
    ReportingNone(sources, o);
    MeanIsMeanOf(vs, sources, o);
    Mean(vs)
  }

  lemma MeanIsMeanOf(vs: seq<real>, sources: seq<SourceProbabilities>, o: Outcome)
    requires |vs| == Reporting(sources, o) && Sum(vs) == TotalReported(sources, o)
    ensures Mean(vs).Some? ==> IsMeanOf(Mean(vs).value, sources, o)
  {
  }

  /** Per-outcome consensus: the mean of the quotes of only those sources that
      quote the outcome, so a silent source is not counted as a zero. */
  function Averages(sources: seq<SourceProbabilities>): (r: Triple)
    ensures |sources| == 0 ==> r == Absent
    ensures forall o :: r.Get(o).None? <==> Silent(sources, o)
    ensures forall o :: r.Get(o).Some? ==> IsMeanOf(r.Get(o).value, sources, o)
  {
    if |sources| == 0 then Absent
    else
      MeansPerOutcome(sources);
      Triple(MeanOf(sources, Home), MeanOf(sources, Draw), MeanOf(sources, Away))
  }

  lemma MeansPerOutcome(sources: seq<SourceProbabilities>)
    ensures forall o :: Triple(MeanOf(sources, Home), MeanOf(sources, Draw), MeanOf(sources, Away)).Get(o) == MeanOf(sources, o)
  {
    forall o ensures Triple(MeanOf(sources, Home), MeanOf(sources, Draw), MeanOf(sources, Away)).Get(o) == MeanOf(sources, o) {
      match o
      case Home =>
      case Draw =>
      case Away =>
    }
  }

  /** A mean of values within [lo, hi] lies within [lo, hi]. */
  lemma {:induction false} SumBounds(vs: seq<real>, lo: real, hi: real)
    requires forall i :: 0 <= i < |vs| ==> lo <= vs[i] <= hi
    ensures (|vs| as real) * lo <= Sum(vs) <= (|vs| as real) * hi
  {
    if |vs| > 0 {
      SumBounds(vs[1..], lo, hi);
    }
  }

  lemma MeanBounds(vs: seq<real>, lo: real, hi: real)
    requires |vs| > 0
    requires forall i :: 0 <= i < |vs| ==> lo <= vs[i] <= hi
    ensures var m := Mean(vs).value; lo <= m <= hi
  {
    SumBounds(vs, lo, hi);
    var n := |vs| as real;
    var m := Mean(vs).value;
    assert m * n == Sum(vs);
    ScaleBack(lo, m, n);
    ScaleBack(m, hi, n);
  }

  lemma ScaleBack(a: real, b: real, n: real)
    requires n > 0.0
    requires a * n <= b * n
    ensures a <= b
  {
  }

  lemma {:induction false} PresentInUnit(sources: seq<SourceProbabilities>, o: Outcome)
    requires forall i :: 0 <= i < |sources| ==> UnitPresent(sources[i].probabilities)
    ensures forall j :: 0 <= j < |Present(sources, o)| ==> 0.0 < Present(sources, o)[j] <= 1.0
  {
    if |sources| > 0 {
      PresentInUnit(sources[1..], o);
    }
  }

  /** Averaging sources whose quotes lie in (0, 1] gives averages in (0, 1]. */
  lemma AveragesInUnit(sources: seq<SourceProbabilities>)
    requires forall i :: 0 <= i < |sources| ==> UnitPresent(sources[i].probabilities)
    ensures UnitPresent(Averages(sources))
  {
    AverageInUnit(sources, Home);
    AverageInUnit(sources, Draw);
    AverageInUnit(sources, Away);
  }

  lemma AverageInUnit(sources: seq<SourceProbabilities>, o: Outcome)
    requires forall i :: 0 <= i < |sources| ==> UnitPresent(sources[i].probabilities)
    ensures var m := Averages(sources).Get(o); m.Some? ==> 0.0 < m.value <= 1.0
  {
    var m := Averages(sources).Get(o);
    if m.Some? {
      var vs := Present(sources, o);
      assert m == MeanOf(sources, o) == Mean(vs);
      PresentInUnit(sources, o);
      MeanBounds(vs, 0.0, 1.0);
      PositiveMean(vs);
    }
  }

  lemma {:induction false} PositiveSum(vs: seq<real>)
    requires |vs| > 0
    requires forall i :: 0 <= i < |vs| ==> 0.0 < vs[i]
    ensures Sum(vs) > 0.0
  {
    if |vs| > 1 {
      PositiveSum(vs[1..]);
    }
  }

  lemma PositiveMean(vs: seq<real>)
    requires |vs| > 0
    requires forall i :: 0 <= i < |vs| ==> 0.0 < vs[i]
    ensures Mean(vs).value > 0.0
  {
    PositiveSum(vs);
  }

  /** Two sources quote home at 0.5 and 0.7 and a third is silent: the home
      consensus is 0.6, not 0.4. */
  lemma AveragesOverReportingSubset()
    ensures var s := [SourceProbabilities("a", Triple(Some(0.5), None, None), None),
                      SourceProbabilities("b", Triple(Some(0.7), None, None), None),
                      SourceProbabilities("c", Triple(None, None, None), None)];
            Averages(s).home == Some(0.6)
  {
    var s := [SourceProbabilities("a", Triple(Some(0.5), None, None), None),
              SourceProbabilities("b", Triple(Some(0.7), None, None), None),
              SourceProbabilities("c", Triple(None, None, None), None)];
    assert Present(s, Home) == [0.5, 0.7];
  }

  // ---------------------------------------------------------------------------
  // Recommendation
  // ---------------------------------------------------------------------------

  /** The recommended outcome and its margin over the runner-up. */
  datatype Recommendation = Recommendation(outcome: Option<Outcome>, confidence: Option<real>)

  /** Position in the order home, draw, away. */
  function Rank(o: Outcome): nat {
    match o
    case Home => 0
    case Draw => 1
    case Away => 2
  }

  function Entry(o: Outcome, p: Option<real>): seq<(Outcome, real)> {
    if p.Some? then [(o, p.value)] else []
  }

  /** The present averages with their outcomes, in the order home, draw, away. */
  function Valid(t: Triple): seq<(Outcome, real)> {
    Entry(Home, t.home) + Entry(Draw, t.draw) + Entry(Away, t.away)
  }

  /** The sort key of a descending sort by probability. */
  function Descending(e: (Outcome, real)): real {
    -e.1
  }

  /** `o` is present and no present average exceeds it. */
  predicate IsLeading(t: Triple, o: Outcome) {
    t.Get(o).Some? && forall o' :: t.Get(o').Some? ==> t.Get(o').value <= t.Get(o).value
  }

  /** The present outcome with the largest average, ties going to the earlier
      outcome, and the gap to the second largest; a single present outcome
      comes with no margin. */
  function Recommend(t: Triple): (r: Recommendation)
    ensures r.outcome.None? <==> NonePresent(t)
    ensures r.confidence.Some? <==> ValidCount(t) >= 2
    ensures r.outcome.Some? ==> IsLeading(t, r.outcome.value)
    ensures r.confidence.Some? ==> r.confidence.value >= 0.0
  {
    var valid := Valid(t);
    ValidLength(t);
    if |valid| < 2 then
      if |valid| == 0 then Recommendation(None, None)
      else
        SingleLeads(t);
        Recommendation(Some(valid[0].0), None)
    else
      var sorted := Sorting.Sort(valid, Descending);
      SortedHeadLeads(t);
      Recommendation(Some(sorted[0].0), Some(sorted[0].1 - sorted[1].1))
  }

  /** The head of a sorted sequence is in it and has the least key. */
  lemma SortHeadIsLeast<T>(xs: seq<T>, key: T -> real)
    requires |xs| > 0
    ensures Sorting.Sort(xs, key)[0] in multiset(xs)
    ensures forall y :: y in multiset(xs) ==> key(Sorting.Sort(xs, key)[0]) <= key(y)
  {
    var r := Sorting.Sort(xs, key);
    assert r[0] in multiset(r);
    forall y | y in multiset(xs) ensures key(r[0]) <= key(y) {
      assert y in multiset(r);
      var j :| 0 <= j < |r| && r[j] == y;
    }
  }

  lemma SortedHeadLeads(t: Triple)
    requires |Valid(t)| >= 2
    ensures var s := Sorting.Sort(Valid(t), Descending);
            IsLeading(t, s[0].0) && t.Get(s[0].0) == Some(s[0].1) && s[1].1 <= s[0].1
  {
    var valid := Valid(t);
    var s := Sorting.Sort(valid, Descending);
    SortHeadIsLeast(valid, Descending);
    ValidOnly(t, s[0]);
    assert Descending(s[0]) <= Descending(s[1]);
    forall o | t.Get(o).Some? ensures t.Get(o).value <= s[0].1 {
      ValidIn(t, o);
      assert (o, t.Get(o).value) in multiset(valid);
    }
  }

  /** The number of present averages. */
  function ValidCount(t: Triple): nat {
    (if t.home.Some? then 1 else 0) + (if t.draw.Some? then 1 else 0) + (if t.away.Some? then 1 else 0)
  }

  lemma ValidIn(t: Triple, o: Outcome)
    requires t.Get(o).Some?
    ensures (o, t.Get(o).value) in Valid(t)
  {
  }

  lemma ValidOnly(t: Triple, e: (Outcome, real))
    requires e in Valid(t)
    ensures t.Get(e.0) == Some(e.1)
  {
  }

  lemma ValidLength(t: Triple)
    ensures |Valid(t)| == ValidCount(t)
    ensures ValidCount(t) == 0 <==> NonePresent(t)
  {
  }

  /** With one present average, that outcome leads. */
  lemma SingleLeads(t: Triple)
    requires |Valid(t)| == 1
    ensures IsLeading(t, Valid(t)[0].0)
  {
    var o := Valid(t)[0].0;
    ValidOnly(t, Valid(t)[0]);
    forall o' | t.Get(o').Some? ensures t.Get(o').value <= t.Get(o).value {
      ValidIn(t, o');
    }
  }

  lemma {:induction false} NoDuplicateCount<T>(xs: seq<T>, x: T)
    requires forall i, j :: 0 <= i < j < |xs| ==> xs[i] != xs[j]
    ensures multiset(xs)[x] <= 1
  {
    if |xs| > 0 {
      assert xs == [xs[0]] + xs[1..];
      NoDuplicateCount(xs[1..], x);
      if x == xs[0] {
        assert x !in xs[1..];
      }
    }
  }

  lemma TwoOccurrences<T>(s: seq<T>, i: nat, j: nat)
    requires i < j < |s|
    ensures s[i] == s[j] ==> multiset(s)[s[i]] >= 2
  {
    assert s == s[..j] + s[j..];
    assert s[i] in s[..j];
    assert s[j] in s[j..];
  }

  /** The first element of `Select(xs, key, k)` is the first element of `xs`
      with key `k`, at or before any index `p` that has that key. */
  lemma {:induction false} SelectFirst<T>(xs: seq<T>, key: T -> real, k: real, p: nat) returns (q: nat)
    requires p < |xs| && key(xs[p]) == k
    ensures q <= p && |Sorting.Select(xs, key, k)| > 0 && Sorting.Select(xs, key, k)[0] == xs[q]
  {
    if key(xs[0]) == k {
      q := 0;
    } else {
      var q' := SelectFirst(xs[1..], key, k, p - 1);
      q := q' + 1;
    }
  }

  /** The two best entries after sorting are different outcomes. */
  lemma SortedTopDistinct(t: Triple)
    requires |Valid(t)| >= 2
    ensures var s := Sorting.Sort(Valid(t), Descending); s[0].0 != s[1].0
  {
    var valid := Valid(t);
    var s := Sorting.Sort(valid, Descending);
    ValidRanked(t);
    NoDuplicateCount(valid, s[0]);
    TwoOccurrences(s, 0, 1);
    assert s[0] != s[1];
    assert s[0] in multiset(valid) && s[1] in multiset(valid);
    ValidOnly(t, s[0]);
    ValidOnly(t, s[1]);
  }

  /** Exact ties go to the earlier of home, draw, away: every present outcome
      listed before the recommended one has a strictly smaller average. */
  lemma RecommendTieBreak(t: Triple, o': Outcome)
    requires Recommend(t).outcome.Some?
    requires t.Get(o').Some? && Rank(o') < Rank(Recommend(t).outcome.value)
    ensures t.Get(o').value < t.Get(Recommend(t).outcome.value).value
  {
    ValidLength(t);
    var valid := Valid(t);
    var o := Recommend(t).outcome.value;
    TwoPresent(t, o', o);
    var s := Sorting.Sort(valid, Descending);
    assert Recommend(t).outcome == Some(s[0].0);
    SortedHeadLeads(t);
    ValidIn(t, o');
    var p :| 0 <= p < |valid| && valid[p] == (o', t.Get(o').value);
    var k := Descending(valid[p]);
    FirstOfKeyRanksFirst(t, k, p);
    assert Sorting.Select(s, Descending, Descending(s[0]))[0] == s[0];
    assert Descending(s[0]) != k;
  }

  lemma TwoPresent(t: Triple, a: Outcome, b: Outcome)
    requires a != b && t.Get(a).Some? && t.Get(b).Some?
    ensures |Valid(t)| >= 2
  {
    ValidLength(t);
  }

  /** Among the present averages with one key, the first in order home, draw,
      away has the least rank. */
  lemma FirstOfKeyRanksFirst(t: Triple, k: real, p: nat)
    requires p < |Valid(t)| && Descending(Valid(t)[p]) == k
    ensures |Sorting.Select(Valid(t), Descending, k)| > 0
    ensures Rank(Sorting.Select(Valid(t), Descending, k)[0].0) <= Rank(Valid(t)[p].0)
  {
    ValidRanked(t);
    var q := SelectFirst(Valid(t), Descending, k, p);
  }

  lemma ValidRanked(t: Triple)
    ensures forall i, j :: 0 <= i < j < |Valid(t)| ==> Rank(Valid(t)[i].0) < Rank(Valid(t)[j].0)
  {
  }

  /** `o2` is present, differs from `o`, and no other present outcome but `o`
      has a larger average. */
  predicate RunnerUp(t: Triple, o: Outcome, o2: Outcome) {
    o2 != o && t.Get(o2).Some?
    && forall o3 :: o3 != o && t.Get(o3).Some? ==> t.Get(o3).value <= t.Get(o2).value
  }

  /** The confidence is the recommended average minus the runner-up: the
      largest average among the other present outcomes. */
  lemma RecommendGap(t: Triple)
    requires ValidCount(t) >= 2
    ensures var r := Recommend(t);
            exists o2 :: RunnerUp(t, r.outcome.value, o2)
              && r.confidence.value == t.Get(r.outcome.value).value - t.Get(o2).value
  {
    ValidLength(t);
    var s := Sorting.Sort(Valid(t), Descending);
    var r := Recommend(t);
    assert r == Recommendation(Some(s[0].0), Some(s[0].1 - s[1].1));
    SortedHeadLeads(t);
    SortedTopDistinct(t);
    SortedSecondValid(t);
    var o2 := s[1].0;
    RunnerUpBound(t, s, o2);
    assert RunnerUp(t, s[0].0, o2);
  }

  lemma SortedSecondValid(t: Triple)
    requires |Valid(t)| >= 2
    ensures var s := Sorting.Sort(Valid(t), Descending); t.Get(s[1].0) == Some(s[1].1)
  {
    var s := Sorting.Sort(Valid(t), Descending);
    assert s[1] in multiset(Valid(t));
    ValidOnly(t, s[1]);
  }

  lemma RunnerUpBound(t: Triple, s: seq<(Outcome, real)>, o2: Outcome)
    requires |Valid(t)| >= 2 && s == Sorting.Sort(Valid(t), Descending)
    requires o2 == s[1].0 && t.Get(o2) == Some(s[1].1)
    ensures forall o3 :: o3 != s[0].0 && t.Get(o3).Some? ==> t.Get(o3).value <= t.Get(o2).value
  {
    forall o3 | o3 != s[0].0 && t.Get(o3).Some? ensures t.Get(o3).value <= t.Get(o2).value {
      ValidIn(t, o3);
      SecondIsLeastOfRest(Valid(t), Descending, (o3, t.Get(o3).value));
    }
  }

  /** After sorting, every element other than the head has a key no smaller
      than that of the second element. */
  lemma SecondIsLeastOfRest<T>(xs: seq<T>, key: T -> real, y: T)
    requires |xs| >= 2 && y in xs && y != Sorting.Sort(xs, key)[0]
    ensures key(Sorting.Sort(xs, key)[1]) <= key(y)
  {
    var r := Sorting.Sort(xs, key);
    assert y in multiset(xs);
    assert y in multiset(r);
    var j :| 0 <= j < |r| && r[j] == y;
    assert j != 0;
    if j > 1 {
      assert key(r[1]) <= key(r[j]);
    }
  }

  /** Averages 0.5, 0.3 and 0.2 recommend home with a margin of 0.2. */
  lemma RecommendExample()
    ensures Recommend(Triple(Some(0.5), Some(0.3), Some(0.2))) == Recommendation(Some(Home), Some(0.2))
  {
    var t := Triple(Some(0.5), Some(0.3), Some(0.2));
    RecommendGap(t);
    var r := Recommend(t);
    assert r.outcome == Some(Home) by {
      assert t.Get(r.outcome.value).value >= 0.5;
    }
  }
}
