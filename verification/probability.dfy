/** Decimal prices to implied probabilities, and removal of a bookmaker's
    margin by rescaling one source's three outcome probabilities. */
module Probability {
  import opened Wrappers

  /** The three outcomes of a head-to-head market, in the order the code lists them. */
  datatype Outcome = Home | Draw | Away {
    /** The name the recommendation carries: "home", "draw" or "away". */
    function Key(): string {
      match this
      case Home => "home"
      case Draw => "draw"
      case Away => "away"
    }
  }

  /** One optional value per outcome: a source's probabilities, or the consensus averages. */
  datatype Triple = Triple(home: Option<real>, draw: Option<real>, away: Option<real>) {
    function Get(o: Outcome): Option<real> {
      match o
      case Home => home
      case Draw => draw
      case Away => away
    }
  }

  const Absent := Triple(None, None, None)

  /** Converts a decimal price into its implied probability; an absent or
      non-positive price yields an absent probability. */
  function ImpliedProbability(price: Option<real>): (r: Option<real>)
    ensures r.Some? <==> price.Some? && price.value > 0.0
    ensures r.Some? ==> r.value * price.value == 1.0 && r.value > 0.0
  {
    if price.None? then None
    else if price.value <= 0.0 then None
    else Some(1.0 / price.value)
  }

  /** True when no component of `t` is present. */
  predicate NonePresent(t: Triple) {
    t.home.None? && t.draw.None? && t.away.None?
  }

  /** The sum of the present components, absent ones counting nothing. */
  function PresentSum(t: Triple): real {
    t.home.GetOr(0.0) + t.draw.GetOr(0.0) + t.away.GetOr(0.0)
  }

  /** Same components present in both triples. */
  predicate SamePresence(a: Triple, b: Triple) {
    a.home.Some? == b.home.Some? && a.draw.Some? == b.draw.Some? && a.away.Some? == b.away.Some?
  }

  /** Every present component is strictly positive. */
  predicate PositivePresent(t: Triple) {
    (t.home.Some? ==> t.home.value > 0.0)
    && (t.draw.Some? ==> t.draw.value > 0.0)
    && (t.away.Some? ==> t.away.value > 0.0)
  }

  /** Every present component lies in (0, 1]. */
  predicate UnitPresent(t: Triple) {
    (t.home.Some? ==> 0.0 < t.home.value <= 1.0)
    && (t.draw.Some? ==> 0.0 < t.draw.value <= 1.0)
    && (t.away.Some? ==> 0.0 < t.away.value <= 1.0)
  }

  function DivideBy(p: Option<real>, total: real): (r: Option<real>)
    requires total != 0.0
    ensures r.Some? == p.Some?
    ensures r.GetOr(0.0) == p.GetOr(0.0) / total
    ensures r.Some? ==> r.value * total == p.value
  {
    if p.Some? then Some(p.value / total) else None
  }

  lemma SumOfQuotients(a: real, b: real, c: real, total: real)
    requires total != 0.0
    ensures a / total + b / total + c / total == (a + b + c) / total
  {
  }

  /** Every present component of `r` is the matching component of `t` divided by `total`. */
  predicate ScaledBy(r: Triple, t: Triple, total: real) {
    forall o :: r.Get(o).Some? ==> t.Get(o).Some? && r.Get(o).value * total == t.Get(o).value
  }

  lemma ScaledParts(r: Triple, t: Triple, total: real)
    requires r.home.Some? ==> t.home.Some? && r.home.value * total == t.home.value
    requires r.draw.Some? ==> t.draw.Some? && r.draw.value * total == t.draw.value
    requires r.away.Some? ==> t.away.Some? && r.away.value * total == t.away.value
    ensures ScaledBy(r, t, total)
  {
    forall o | r.Get(o).Some? ensures t.Get(o).Some? && r.Get(o).value * total == t.Get(o).value {
      match o
      case Home =>
      case Draw =>
      case Away =>
    }
  }

  /** Divides every present component by `total`. */
  function Rescale(t: Triple, total: real): (r: Triple)
    requires total > 0.0
    ensures SamePresence(r, t)
    ensures PresentSum(r) == PresentSum(t) / total
    ensures ScaledBy(r, t, total)
  {
    var x, y, z := t.home.GetOr(0.0), t.draw.GetOr(0.0), t.away.GetOr(0.0);
    var h, d, a := DivideBy(t.home, total), DivideBy(t.draw, total), DivideBy(t.away, total);
    SumOfQuotients(x, y, z, total);
    var r := Triple(h, d, a);
    assert PresentSum(r) == x / total + y / total + z / total;
    assert PresentSum(t) == x + y + z;
    ScaledParts(r, t, total);
    r
  }

  lemma DivSelf(x: real)
    requires x > 0.0
    ensures x / x == 1.0
  {
  }

  /** Rescales the present components so that they sum to one. With no
      component present, or a non-positive sum, the triple is returned as is. */
  function Normalize(t: Triple): (r: Triple)
    ensures SamePresence(r, t)
    ensures NonePresent(t) || PresentSum(t) <= 0.0 ==> r == t
    ensures !NonePresent(t) && PresentSum(t) > 0.0 ==> PresentSum(r) == 1.0
    ensures !NonePresent(t) && PresentSum(t) > 0.0 ==> ScaledBy(r, t, PresentSum(t))
  {
    if NonePresent(t) then t
    else
      var total := PresentSum(t);
      if total <= 0.0 then t
      else
        var r := Rescale(t, total);
        DivSelf(total);
        r
  }

  /** Normalizing twice is normalizing once. */
  lemma NormalizeIdempotent(t: Triple)
    ensures Normalize(Normalize(t)) == Normalize(t)
  {
    var n := Normalize(t);
    if !NonePresent(t) && PresentSum(t) > 0.0 {
      assert PresentSum(n) == 1.0;
      assert DivideBy(n.home, 1.0) == n.home;
      assert DivideBy(n.draw, 1.0) == n.draw;
      assert DivideBy(n.away, 1.0) == n.away;
    }
  }

  /** Implied probabilities are positive, so normalizing them puts every
      present component in (0, 1]. */
  lemma NormalizePositiveIsUnit(t: Triple)
    requires PositivePresent(t)
    ensures UnitPresent(Normalize(t))
    ensures !NonePresent(t) ==> PresentSum(Normalize(t)) == 1.0
  {
    var n := Normalize(t);
    if !NonePresent(t) {
      var s := PresentSum(t);
      assert s > 0.0;
      assert n.home.Some? ==> 0.0 < t.home.value <= s;
      assert n.draw.Some? ==> 0.0 < t.draw.value <= s;
      assert n.away.Some? ==> 0.0 < t.away.value <= s;
      QuotientInUnit(t.home, s);
      QuotientInUnit(t.draw, s);
      QuotientInUnit(t.away, s);
    }
  }

  lemma QuotientInUnit(p: Option<real>, s: real)
    requires s > 0.0
    requires p.Some? ==> 0.0 < p.value <= s
    ensures var q := DivideBy(p, s); q.Some? ==> 0.0 < q.value <= 1.0
  {
    if p.Some? {
      assert p.value / s <= s / s;
    }
  }

  /** Prices 2.0, 3.0 and 4.0 normalize to 6/13, 4/13 and 3/13. */
  lemma NormalizeExample()
    ensures var t := Triple(ImpliedProbability(Some(2.0)), ImpliedProbability(Some(3.0)), ImpliedProbability(Some(4.0)));
            Normalize(t) == Triple(Some(6.0 / 13.0), Some(4.0 / 13.0), Some(3.0 / 13.0))
  {
  }
}
