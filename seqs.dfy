/** Order-preserving selection from a sequence: pandas' boolean-mask
    selection (`df[mask]`, `dropna`), Python list comprehensions with an `if`,
    and JavaScript `forEach` loops that push the elements passing a test. */
module Seqs {

  /** The elements of `s` that pass `keep`, in their original order. */
  function Filter<T>(s: seq<T>, keep: T -> bool): (r: seq<T>)
    ensures |r| <= |s|
    decreases |s|
  {
    if |s| == 0 then []
    else Filter(s[..|s| - 1], keep) + (if keep(s[|s| - 1]) then [s[|s| - 1]] else [])
  }

  /** Selecting from one more element of `s`. */
  lemma FilterSnoc<T>(s: seq<T>, keep: T -> bool, j: nat)
    requires j < |s|
    ensures Filter(s[..j + 1], keep) == Filter(s[..j], keep) + (if keep(s[j]) then [s[j]] else [])
  {
    assert s[..j + 1][..j] == s[..j];
  }

  /** An element is selected exactly when it occurs in `s` and passes `keep`. */
  lemma {:induction false} FilterMembership<T>(s: seq<T>, keep: T -> bool, x: T)
    ensures x in Filter(s, keep) <==> x in s && keep(x)
    decreases |s|
  {
    if |s| > 0 {
      var init := s[..|s| - 1];
      FilterMembership(init, keep, x);
      assert s == init + [s[|s| - 1]];
    }
  }

  /** Selection distributes over concatenation, so it keeps the input order. */
  lemma {:induction false} FilterAppend<T>(a: seq<T>, b: seq<T>, keep: T -> bool)
    ensures Filter(a + b, keep) == Filter(a, keep) + Filter(b, keep)
    decreases |b|
  {
    if |b| == 0 {
      assert a + b == a;
    } else {
      assert (a + b)[..|a + b| - 1] == a + b[..|b| - 1];
      FilterAppend(a, b[..|b| - 1], keep);
    }
  }

  /** Two selected elements stand in the input in the order they are
      selected. */
  lemma {:induction false} FilterOrder<T>(s: seq<T>, keep: T -> bool, i: nat, j: nat)
    requires i < j < |Filter(s, keep)|
    ensures exists a, b :: 0 <= a < b < |s| && s[a] == Filter(s, keep)[i] && s[b] == Filter(s, keep)[j]
    decreases |s|
  {
    var init := s[..|s| - 1];
    var f := Filter(init, keep);
    assert forall k :: 0 <= k < |init| ==> init[k] == s[k];
    if j < |f| {
      FilterOrder(init, keep, i, j);
    } else {
      var x := f[i];
      FilterMembership(init, keep, x);
      var a :| 0 <= a < |init| && init[a] == x;
      assert s[a] == Filter(s, keep)[i] && s[|s| - 1] == Filter(s, keep)[j];
    }
  }

  ghost predicate Distinct<T>(s: seq<T>) {
    forall i, j :: 0 <= i < j < |s| ==> s[i] != s[j]
  }

  /** Selecting from a list without repetitions gives one without repetitions. */
  lemma {:induction false} FilterDistinct<T>(s: seq<T>, keep: T -> bool)
    requires Distinct(s)
    ensures Distinct(Filter(s, keep))
    decreases |s|
  {
    if |s| > 0 {
      var init := s[..|s| - 1];
      var last := s[|s| - 1];
      FilterDistinct(init, keep);
      if keep(last) {
        FilterMembership(init, keep, last);
        assert last !in init;
        var f := Filter(init, keep);
        forall i, j | 0 <= i < j < |f + [last]| ensures (f + [last])[i] != (f + [last])[j] {
          if j == |f| {
            assert (f + [last])[i] == f[i];
            assert f[i] in f;
          }
        }
      }
    }
  }

  /** A list without repetitions has as many elements as its set. */
  lemma {:induction false} DistinctCard<T>(s: seq<T>)
    requires Distinct(s)
    ensures |set x | x in s| == |s|
    decreases |s|
  {
    if |s| > 0 {
      var init := s[..|s| - 1];
      var last := s[|s| - 1];
      DistinctCard(init);
      assert last !in init;
      assert (set x | x in s) == (set x | x in init) + {last} by {
        assert s == init + [last];
      }
    }
  }

  /** Two lists without repetitions that hold the same elements have the same
      length. */
  lemma SameElementsSameLength<T>(a: seq<T>, b: seq<T>)
    requires Distinct(a) && Distinct(b)
    requires forall x :: x in a <==> x in b
    ensures |a| == |b|
  {
    DistinctCard(a);
    DistinctCard(b);
    assert (set x | x in a) == (set x | x in b);
  }
}
