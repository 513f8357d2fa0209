/** Order-preserving filtering and counting over sequences (`Array.prototype.filter`). */
module Seqs {

  /** The elements of `s` that satisfy `keep`, in their original order. */
  function Filter<T>(s: seq<T>, keep: T -> bool): (r: seq<T>)
    ensures |r| <= |s|
    ensures forall i :: 0 <= i < |r| ==> keep(r[i])
  {
    if s == [] then []
    else (if keep(s[0]) then [s[0]] else []) + Filter(s[1..], keep)
  }

  /** The filter keeps exactly the elements of `s` that satisfy `keep`. */
  lemma {:induction false} FilterMembers<T>(s: seq<T>, keep: T -> bool)
    ensures forall i :: 0 <= i < |Filter(s, keep)| ==> Filter(s, keep)[i] in s
    ensures forall i :: 0 <= i < |s| && keep(s[i]) ==> s[i] in Filter(s, keep)
  {
    if s != [] {
      FilterMembers(s[1..], keep);
      assert forall i :: 1 <= i < |s| ==> s[i] == s[1..][i - 1];
    }
  }

  /** How many elements of `s` satisfy `p` (`s.filter(p).length`). */
  function Count<T>(s: seq<T>, p: T -> bool): nat
  {
    |Filter(s, p)|
  }

  /** Filtering distributes over concatenation: this is what "order is preserved" means. */
  lemma {:induction false} FilterConcat<T>(a: seq<T>, b: seq<T>, keep: T -> bool)
    ensures Filter(a + b, keep) == Filter(a, keep) + Filter(b, keep)
  {
    if a == [] {
      assert a + b == b;
    } else {
      assert (a + b)[1..] == a[1..] + b;
      FilterConcat(a[1..], b, keep);
    }
  }

  /** Filtering with a predicate that every element satisfies changes nothing. */
  lemma {:induction false} FilterAll<T>(s: seq<T>, keep: T -> bool)
    requires forall i :: 0 <= i < |s| ==> keep(s[i])
    ensures Filter(s, keep) == s
  {
    if s != [] {
      FilterAll(s[1..], keep);
    }
  }

  /** Filtering out the one element that fails `keep` leaves its neighbours in order. */
  lemma {:induction false} FilterDropOne<T>(before: seq<T>, x: T, after: seq<T>, keep: T -> bool)
    requires forall i :: 0 <= i < |before| ==> keep(before[i])
    requires forall i :: 0 <= i < |after| ==> keep(after[i])
    requires !keep(x)
    ensures Filter(before + [x] + after, keep) == before + after
  {
    FilterConcat(before + [x], after, keep);
    FilterConcat(before, [x], keep);
    FilterAll(before, keep);
    FilterAll(after, keep);
    assert Filter([x], keep) == [] by {
      assert [x][1..] == [];
    }
    assert before + [] == before;
  }

  /**
   * A relation that holds between every element and each later one still holds
   * after filtering, since the filter keeps the order (distinct ids stay distinct).
   */
  lemma {:induction false} FilterPairwise<T>(s: seq<T>, keep: T -> bool, ok: (T, T) -> bool)
    requires forall i, j :: 0 <= i < j < |s| ==> ok(s[i], s[j])
    ensures forall i, j :: 0 <= i < j < |Filter(s, keep)| ==> ok(Filter(s, keep)[i], Filter(s, keep)[j])
  {
    if s != [] {
      var rest := Filter(s[1..], keep);
      assert forall i, j :: 0 <= i < j < |s[1..]| ==> ok(s[1..][i], s[1..][j]) by {
        forall i, j | 0 <= i < j < |s[1..]| ensures ok(s[1..][i], s[1..][j]) {
          assert s[1..][i] == s[i + 1] && s[1..][j] == s[j + 1];
        }
      }
      FilterPairwise(s[1..], keep, ok);
      if keep(s[0]) {
        FilterMembers(s[1..], keep);
        forall j | 0 <= j < |rest| ensures ok(s[0], rest[j]) {
          var m :| 0 <= m < |s[1..]| && s[1..][m] == rest[j];
          assert s[m + 1] == rest[j];
        }
        assert Filter(s, keep) == [s[0]] + rest;
      }
    }
  }

  /** Filtering with a predicate that no element satisfies leaves nothing. */
  lemma {:induction false} FilterNone<T>(s: seq<T>, keep: T -> bool)
    requires forall i :: 0 <= i < |s| ==> !keep(s[i])
    ensures Filter(s, keep) == []
  {
    if s != [] {
      FilterNone(s[1..], keep);
    }
  }

  /** Every element either satisfies `p` or does not: the two counts add up to the length. */
  lemma {:induction false} CountSplit<T>(s: seq<T>, p: T -> bool, q: T -> bool)
    requires forall x :: q(x) == !p(x)
    ensures Count(s, p) + Count(s, q) == |s|
  {
    if s != [] {
      CountSplit(s[1..], p, q);
    }
  }

  /** Splitting `s` by `p` and putting the parts side by side is a permutation of `s`. */
  lemma {:induction false} FilterPartitionMultiset<T>(s: seq<T>, p: T -> bool, q: T -> bool)
    requires forall x :: q(x) == !p(x)
    ensures multiset(Filter(s, p)) + multiset(Filter(s, q)) == multiset(s)
  {
    if s != [] {
      var x, t := s[0], s[1..];
      FilterPartitionMultiset(t, p, q);
      assert s == [x] + t;
      if p(x) {
        FilterConsKept(x, t, p);
        FilterConsDropped(x, t, q);
      } else {
        FilterConsDropped(x, t, p);
        FilterConsKept(x, t, q);
      }
    }
  }

  lemma FilterConsKept<T>(x: T, t: seq<T>, p: T -> bool)
    requires p(x)
    ensures multiset(Filter([x] + t, p)) == multiset{x} + multiset(Filter(t, p))
  {
    assert ([x] + t)[1..] == t;
    assert Filter([x] + t, p) == [x] + Filter(t, p);
  }

  lemma FilterConsDropped<T>(x: T, t: seq<T>, p: T -> bool)
    requires !p(x)
    ensures Filter([x] + t, p) == Filter(t, p)
  {
    assert ([x] + t)[1..] == t;
  }

  /** Filtering twice keeps exactly what satisfies both predicates. */
  lemma {:induction false} FilterFilter<T>(s: seq<T>, p: T -> bool, q: T -> bool, pq: T -> bool)
    requires forall x :: pq(x) == (p(x) && q(x))
    ensures Filter(Filter(s, p), q) == Filter(s, pq)
  {
    if s != [] {
      FilterFilter(s[1..], p, q, pq);
      if p(s[0]) {
        assert Filter(s, p) == [s[0]] + Filter(s[1..], p);
        assert Filter(s, p)[1..] == Filter(s[1..], p);
        assert pq(s[0]) == q(s[0]);
      } else {
        assert Filter(s, p) == Filter(s[1..], p);
        assert !pq(s[0]);
        assert Filter(s, pq) == Filter(s[1..], pq);
      }
    }
  }

  /** Counting over a pointwise-equivalent predicate gives the same count. */
  lemma {:induction false} FilterSamePredicate<T>(s: seq<T>, p: T -> bool, q: T -> bool)
    requires forall i :: 0 <= i < |s| ==> p(s[i]) == q(s[i])
    ensures Filter(s, p) == Filter(s, q)
  {
    if s != [] {
      FilterSamePredicate(s[1..], p, q);
    }
  }

  /** The index of the first element satisfying `p` (`Array.prototype.findIndex`), if any. */
  function FindIndex<T>(s: seq<T>, p: T -> bool): (r: int)
    ensures -1 <= r < |s|
    ensures r == -1 <==> forall i :: 0 <= i < |s| ==> !p(s[i])
    ensures r >= 0 ==> p(s[r]) && forall i :: 0 <= i < r ==> !p(s[i])
  {
    if s == [] then -1
    else if p(s[0]) then 0
    else var k := FindIndex(s[1..], p); if k == -1 then -1 else k + 1
  }
}
