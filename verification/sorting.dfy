/** A stable sort by a real-valued key: the model of Python's `list.sort` and
    `sorted`, both of which are stable. A descending stable sort (`reverse=True`)
    is the ascending stable sort on the negated key. */
module Sorting {

  /** Non-decreasing by `key`. */
  ghost predicate SortedBy<T>(xs: seq<T>, key: T -> real) {
    forall i, j :: 0 <= i < j < |xs| ==> key(xs[i]) <= key(xs[j])
  }

  /** The elements of `xs` whose key is `k`, in their order in `xs`. Stability
      of a sort is the statement that this subsequence is the same before and
      after sorting, for every `k`. */
  function Select<T>(xs: seq<T>, key: T -> real, k: real): seq<T> {
    if |xs| == 0 then []
    else (if key(xs[0]) == k then [xs[0]] else []) + Select(xs[1..], key, k)
  }

  /** Inserts `x` in front of the first element whose key is at least `x`'s. */
  function Insert<T>(x: T, s: seq<T>, key: T -> real): (r: seq<T>)
    ensures |r| == |s| + 1
    ensures multiset(r) == multiset{x} + multiset(s)
  {
    if |s| == 0 || key(x) <= key(s[0]) then [x] + s
    else
      assert s == [s[0]] + s[1..];
      [s[0]] + Insert(x, s[1..], key)
  }

  /** A sorted sequence stays sorted under a new head no larger than its first element. */
  lemma SortedCons<T>(a: T, t: seq<T>, key: T -> real)
    requires SortedBy(t, key)
    requires |t| > 0 ==> key(a) <= key(t[0])
    ensures SortedBy([a] + t, key)
  {
    var r := [a] + t;
    forall i, j | 0 <= i < j < |r| ensures key(r[i]) <= key(r[j]) {
      if i == 0 {
        assert r[j] == t[j - 1];
        assert key(t[0]) <= key(t[j - 1]);
      } else {
        assert r[i] == t[i - 1] && r[j] == t[j - 1];
      }
    }
  }

  /** The head of an insertion is the inserted element or the old head. */
  lemma InsertHead<T>(x: T, s: seq<T>, key: T -> real)
    ensures Insert(x, s, key)[0] == x || (|s| > 0 && Insert(x, s, key)[0] == s[0])
  {
  }

  /** Inserting into a sorted sequence keeps it sorted. */
  lemma {:induction false} InsertSorted<T>(x: T, s: seq<T>, key: T -> real)
    requires SortedBy(s, key)
    ensures SortedBy(Insert(x, s, key), key)
  {
    if |s| == 0 || key(x) <= key(s[0]) {
      SortedCons(x, s, key);
    } else {
      var tail := s[1..];
      assert SortedBy(tail, key) by {
        forall i, j | 0 <= i < j < |tail| ensures key(tail[i]) <= key(tail[j]) {
          assert tail[i] == s[i + 1] && tail[j] == s[j + 1];
        }
      }
      InsertSorted(x, tail, key);
      var t := Insert(x, tail, key);
      InsertHead(x, tail, key);
      assert |tail| > 0 ==> tail[0] == s[1];
      SortedCons(s[0], t, key);
    }
  }

  /** Insertion puts `x` first among the elements that share its key. */
  lemma {:induction false} InsertSelect<T>(x: T, s: seq<T>, key: T -> real, k: real)
    ensures Select(Insert(x, s, key), key, k) == (if key(x) == k then [x] else []) + Select(s, key, k)
  {
    if |s| == 0 || key(x) <= key(s[0]) {
      assert ([x] + s)[1..] == s;
    } else {
      var t := Insert(x, s[1..], key);
      InsertSelect(x, s[1..], key, k);
      assert ([s[0]] + t)[1..] == t;
      var hx: seq<T> := if key(x) == k then [x] else [];
      var h0: seq<T> := if key(s[0]) == k then [s[0]] else [];
      assert hx == [] || h0 == [];
      calc {
        Select(Insert(x, s, key), key, k);
        h0 + Select(t, key, k);
        h0 + (hx + Select(s[1..], key, k));
        { assert h0 + hx == hx + h0; }
        hx + (h0 + Select(s[1..], key, k));
        hx + Select(s, key, k);
      }
    }
  }

  /** Insertion sort; stable because each element is inserted in front of
      every later element that has the same key. */
  function Sort<T>(xs: seq<T>, key: T -> real): (r: seq<T>)
    ensures |r| == |xs|
    ensures SortedBy(r, key)
    ensures multiset(r) == multiset(xs)
    ensures forall k :: Select(r, key, k) == Select(xs, key, k)
  {
    if |xs| == 0 then []
    else
      assert xs == [xs[0]] + xs[1..];
      var t := Sort(xs[1..], key);
      InsertSorted(xs[0], t, key);
      assert forall k :: Select(Insert(xs[0], t, key), key, k) == Select(xs, key, k) by {
        forall k ensures Select(Insert(xs[0], t, key), key, k) == Select(xs, key, k) {
          InsertSelect(xs[0], t, key, k);
        }
      }
      Insert(xs[0], t, key)
  }

  /** Sorting keeps exactly the elements it is given. */
  lemma SortMember<T>(xs: seq<T>, key: T -> real, y: T)
    ensures y in Sort(xs, key) <==> y in xs
  {
    var r := Sort(xs, key);
    assert y in r <==> y in multiset(r);
    assert y in xs <==> y in multiset(xs);
  }

  /** `Select` keeps exactly the elements with key `k`. */
  lemma {:induction false} SelectMembers<T>(xs: seq<T>, key: T -> real, k: real)
    ensures forall y :: y in Select(xs, key, k) <==> y in xs && key(y) == k
  {
    if |xs| > 0 {
      SelectMembers(xs[1..], key, k);
      assert xs == [xs[0]] + xs[1..];
    }
  }

  /** No two elements share a key. */
  predicate DistinctKeys<T>(xs: seq<T>, key: T -> real) {
    forall i, j :: 0 <= i < j < |xs| ==> key(xs[i]) != key(xs[j])
  }

  /** Strictly increasing by `key`. */
  ghost predicate StrictlySortedBy<T>(xs: seq<T>, key: T -> real) {
    forall i, j :: 0 <= i < j < |xs| ==> key(xs[i]) < key(xs[j])
  }

  /** Two elements with the same key both survive in its selection. */
  lemma {:induction false} SelectHasTwo<T>(xs: seq<T>, key: T -> real, i: nat, j: nat)
    requires i < j < |xs| && key(xs[i]) == key(xs[j])
    ensures |Select(xs, key, key(xs[i]))| >= 2
  {
    var k := key(xs[i]);
    if i == 0 {
      SelectMembers(xs[1..], key, k);
      assert xs[j] == xs[1..][j - 1];
      assert |Select(xs[1..], key, k)| > 0;
    } else {
      SelectHasTwo(xs[1..], key, i - 1, j - 1);
    }
  }

  /** Nothing is selected when no element has the key. */
  lemma {:induction false} SelectNone<T>(xs: seq<T>, key: T -> real, k: real)
    requires forall i :: 0 <= i < |xs| ==> key(xs[i]) != k
    ensures Select(xs, key, k) == []
  {
    if |xs| > 0 {
      SelectNone(xs[1..], key, k);
    }
  }

  /** With distinct keys each selection has at most one element. */
  lemma {:induction false} SelectAtMostOne<T>(xs: seq<T>, key: T -> real, k: real)
    requires DistinctKeys(xs, key)
    ensures |Select(xs, key, k)| <= 1
  {
    if |xs| > 0 {
      SelectAtMostOne(xs[1..], key, k);
      if key(xs[0]) == k {
        SelectNone(xs[1..], key, k);
      }
    }
  }

  /** Sorting elements with distinct keys orders them strictly. */
  lemma SortStrict<T>(xs: seq<T>, key: T -> real)
    requires DistinctKeys(xs, key)
    ensures StrictlySortedBy(Sort(xs, key), key)
  {
    var r := Sort(xs, key);
    forall i, j | 0 <= i < j < |r| ensures key(r[i]) < key(r[j]) {
      if key(r[i]) == key(r[j]) {
        SelectHasTwo(r, key, i, j);
        SelectAtMostOne(xs, key, key(r[i]));
      }
    }
  }
}
