/** Running a builder over a batch: each item yields nothing, one value, or a
    failure, and the first failure aborts the whole batch. The report builder
    runs this over events and the source builder over bookmakers. */
module Batches {
  import opened Wrappers

  /** The items satisfying `keep`, in input order. */
  function Filter<X(!new)>(keep: X -> bool, xs: seq<X>): (r: seq<X>)
    ensures |r| <= |xs|
    ensures forall i :: 0 <= i < |r| ==> keep(r[i])
    ensures forall x :: x in r <==> x in xs && keep(x)
  {
    if |xs| == 0 then []
    else
      var rest := Filter(keep, xs[1..]);
      assert forall x :: x in xs <==> x == xs[0] || x in xs[1..];
      (if keep(xs[0]) then [xs[0]] else []) + rest
  }

  /** Filtering distributes over concatenation, so it keeps input order. */
  lemma {:induction false} FilterAppend<X(!new)>(keep: X -> bool, a: seq<X>, b: seq<X>)
    ensures Filter(keep, a + b) == Filter(keep, a) + Filter(keep, b)
  {
    if |a| == 0 {
      assert a + b == b;
    } else {
      assert (a + b)[0] == a[0];
      assert (a + b)[1..] == a[1..] + b;
      FilterAppend(keep, a[1..], b);
      var head := if keep(a[0]) then [a[0]] else [];
      assert head + (Filter(keep, a[1..]) + Filter(keep, b)) == (head + Filter(keep, a[1..])) + Filter(keep, b);
    }
  }

  /** The results of `f` over `xs` in order, absent results dropped; the first
      failure is the result of the whole batch. */
  function Collect<X, T, E>(f: X -> Result<Option<T>, E>, xs: seq<X>): Result<seq<T>, E> {
    if |xs| == 0 then Success([])
    else
      match f(xs[0])
      case Failure(e) => Failure(e)
      case Success(r) =>
        match Collect(f, xs[1..])
        case Failure(e) => Failure(e)
        case Success(rest) => Success((if r.Some? then [r.value] else []) + rest)
  }

  /** `rel` holds between `xs[i]` and `ys[i]` at every position, one for one. */
  ghost predicate Pairwise<A, B>(rel: (A, B) -> bool, xs: seq<A>, ys: seq<B>) {
    |xs| == |ys| && forall i :: 0 <= i < |xs| ==> rel(xs[i], ys[i])
  }

  lemma PairwiseCons<A, B>(rel: (A, B) -> bool, x: A, xs: seq<A>, y: B, ys: seq<B>)
    requires rel(x, y) && Pairwise(rel, xs, ys)
    ensures Pairwise(rel, [x] + xs, [y] + ys)
  {
    var xs', ys' := [x] + xs, [y] + ys;
    forall i | 1 <= i < |xs'| ensures rel(xs'[i], ys'[i]) {
      assert xs'[i] == xs[i - 1] && ys'[i] == ys[i - 1];
    }
  }

  /** `f` yields a value exactly for the items satisfying `keep`, and that value
      stands in `rel` to its item. */
  ghost predicate YieldsFor<X(!new), T, E>(f: X -> Result<Option<T>, E>, keep: X -> bool, rel: (T, X) -> bool) {
    forall x :: f(x).Success? ==> (f(x).value.Some? <==> keep(x)) && (f(x).value.Some? ==> rel(f(x).value.value, x))
  }

  /** A successful batch holds one result per kept item, in item order. */
  lemma {:induction false} CollectShape<X(!new), T, E>(f: X -> Result<Option<T>, E>, keep: X -> bool, rel: (T, X) -> bool, xs: seq<X>)
    requires YieldsFor(f, keep, rel)
    requires Collect(f, xs).Success?
    ensures Pairwise(rel, Collect(f, xs).value, Filter(keep, xs))
  {
    if |xs| > 0 {
      CollectShape(f, keep, rel, xs[1..]);
      var rest := Collect(f, xs[1..]).value;
      if keep(xs[0]) {
        PairwiseCons(rel, f(xs[0]).value.value, rest, xs[0], Filter(keep, xs[1..]));
      }
    }
  }

  /** A batch over a concatenation fails with the first part's failure, else
      the second part's, else concatenates the results. */
  lemma {:induction false} CollectAppend<X, T, E>(f: X -> Result<Option<T>, E>, a: seq<X>, b: seq<X>)
    ensures var ra := Collect(f, a);
            var rb := Collect(f, b);
            Collect(f, a + b) ==
              if ra.Failure? then ra
              else if rb.Failure? then rb
              else Success(ra.value + rb.value)
  {
    if |a| == 0 {
      assert a + b == b;
      var rb := Collect(f, b);
      if rb.Success? {
        assert [] + rb.value == rb.value;
      }
    } else {
      assert (a + b)[0] == a[0];
      assert (a + b)[1..] == a[1..] + b;
      CollectAppend(f, a[1..], b);
      match f(a[0])
      case Failure(e) =>
      case Success(r) =>
        var head: seq<T> := if r.Some? then [r.value] else [];
        match Collect(f, a[1..])
        case Failure(e) =>
        case Success(rest) =>
          match Collect(f, b)
          case Failure(e) =>
          case Success(rb) =>
            assert head + (rest + rb) == (head + rest) + rb;
    }
  }

  /** A builder that never fails never makes the batch fail. */
  lemma {:induction false} CollectTotal<X, T, E>(f: X -> Result<Option<T>, E>, xs: seq<X>)
    requires forall x :: x in xs ==> f(x).Success?
    ensures Collect(f, xs).Success?
  {
    if |xs| > 0 {
      CollectTotal(f, xs[1..]);
    }
  }

  /** A batch fails exactly when the builder fails on one of its items. */
  lemma {:induction false} CollectFails<X, T, E>(f: X -> Result<Option<T>, E>, xs: seq<X>)
    ensures Collect(f, xs).Failure? <==> exists x :: x in xs && f(x).Failure?
  {
    if |xs| > 0 {
      CollectFails(f, xs[1..]);
      assert forall x :: x in xs <==> x == xs[0] || x in xs[1..];
    }
  }

  /** A batch of one item. */
  lemma CollectSingle<X, T, E>(f: X -> Result<Option<T>, E>, x: X)
    requires f(x).Success?
    ensures Collect(f, [x]) == Success(if f(x).value.Some? then [f(x).value.value] else [])
  {
    var xs := [x];
    assert xs[0] == x && xs[1..] == [];
    var head: seq<T> := if f(x).value.Some? then [f(x).value.value] else [];
    calc {
      Collect(f, xs);
      Success(head + []);
      { assert head + [] == head; }
      Success(head);
    }
  }

  /** An item that yields nothing is dropped without affecting any other item. */
  lemma CollectSkip<X, T, E>(f: X -> Result<Option<T>, E>, a: seq<X>, x: X, b: seq<X>)
    requires f(x) == Success(None)
    ensures Collect(f, a + [x] + b) == Collect(f, a + b)
  {
    CollectAppend(f, a + [x], b);
    CollectAppend(f, a, [x]);
    CollectAppend(f, a, b);
    assert Collect(f, [x]) == Success([]);
    var ra := Collect(f, a);
    if ra.Success? {
      assert ra.value + [] == ra.value;
    }
  }

  /** An item that fails makes the whole batch fail, with its own failure
      unless an earlier item already failed. */
  lemma CollectAbort<X, T, E>(f: X -> Result<Option<T>, E>, a: seq<X>, x: X, b: seq<X>)
    requires f(x).Failure?
    ensures Collect(f, a + [x] + b).Failure?
    ensures Collect(f, a).Success? ==> Collect(f, a + [x] + b) == Failure(f(x).error)
  {
    CollectAppend(f, a + [x], b);
    CollectAppend(f, a, [x]);
    assert Collect(f, [x]) == Failure(f(x).error);
  }
}
