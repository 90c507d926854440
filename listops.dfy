/**
 * Sequence helpers standing for JavaScript's `Array.prototype.filter`,
 * `filter(...).length` and `slice(0, n)`, with the facts the panels rely on:
 * a filter keeps, in order, exactly the elements that pass.
 */
module ListOps {

  datatype Option<T> = None | Some(value: T)

  /** `xs.filter(p)`. */
  function Filter<T>(xs: seq<T>, p: T -> bool): (r: seq<T>)
    ensures |r| <= |xs|
  {
    if xs == [] then [] else (if p(xs[0]) then [xs[0]] else []) + Filter(xs[1..], p)
  }

  /** `xs.filter(p).length`. */
  function CountIf<T>(xs: seq<T>, p: T -> bool): nat {
    |Filter(xs, p)|
  }

  /** `xs.slice(0, n)`. */
  function Take<T>(xs: seq<T>, n: nat): (r: seq<T>)
    ensures |r| == if |xs| < n then |xs| else n
    ensures r <= xs
  {
    if |xs| <= n then xs else xs[..n]
  }

  /** `a` can be obtained from `b` by deleting elements: it keeps their order. */
  predicate IsSubsequence<T(==)>(a: seq<T>, b: seq<T>) {
    a == [] || (b != [] && ((a[0] == b[0] && IsSubsequence(a[1..], b[1..])) || IsSubsequence(a, b[1..])))
  }

  lemma {:induction false} FilterIsSubsequence<T>(xs: seq<T>, p: T -> bool)
    ensures IsSubsequence(Filter(xs, p), xs)
  {
    if xs != [] {
      FilterIsSubsequence(xs[1..], p);
      var r := Filter(xs, p);
      if p(xs[0]) {
        assert r == [xs[0]] + Filter(xs[1..], p);
        assert r[1..] == Filter(xs[1..], p);
      } else {
        assert r == Filter(xs[1..], p);
      }
    }
  }

  /** An element survives the filter exactly when it was there and passes the test. */
  lemma {:induction false} FilterMembers<T>(xs: seq<T>, p: T -> bool, x: T)
    ensures x in Filter(xs, p) <==> x in xs && p(x)
  {
    if xs != [] {
      FilterMembers(xs[1..], p, x);
      assert xs == [xs[0]] + xs[1..];
    }
  }

  /**
   * The filter keeps every passing element as often as it occurs and drops
   * every failing one: with the subsequence lemma this pins the result down.
   */
  lemma {:induction false} FilterMultiplicity<T>(xs: seq<T>, p: T -> bool, x: T)
    ensures multiset(Filter(xs, p))[x] == if p(x) then multiset(xs)[x] else 0
  {
    if xs != [] {
      FilterMultiplicity(xs[1..], p, x);
      assert xs == [xs[0]] + xs[1..];
      assert multiset(xs) == multiset([xs[0]]) + multiset(xs[1..]);
      var head := if p(xs[0]) then [xs[0]] else [];
      assert multiset(Filter(xs, p)) == multiset(head) + multiset(Filter(xs[1..], p));
    }
  }

  /** A test every element passes keeps the whole list. */
  lemma {:induction false} FilterAll<T>(xs: seq<T>, p: T -> bool)
    requires forall k :: 0 <= k < |xs| ==> p(xs[k])
    ensures Filter(xs, p) == xs
  {
    if xs != [] {
      FilterAll(xs[1..], p);
      assert xs == [xs[0]] + xs[1..];
    }
  }

  /** Three tests no element passes twice count at most the whole list. */
  lemma {:induction false} DisjointCounts3<T>(xs: seq<T>, p: T -> bool, q: T -> bool, s: T -> bool)
    requires forall x :: !(p(x) && q(x)) && !(p(x) && s(x)) && !(q(x) && s(x))
    ensures CountIf(xs, p) + CountIf(xs, q) + CountIf(xs, s) <= |xs|
  {
    if xs != [] {
      DisjointCounts3(xs[1..], p, q, s);
      assert !(p(xs[0]) && q(xs[0])) && !(p(xs[0]) && s(xs[0])) && !(q(xs[0]) && s(xs[0]));
    }
  }

  /** Two tests no element passes both count at most the whole list. */
  lemma {:induction false} DisjointCounts2<T>(xs: seq<T>, p: T -> bool, q: T -> bool)
    requires forall x :: !(p(x) && q(x))
    ensures CountIf(xs, p) + CountIf(xs, q) <= |xs|
  {
    if xs != [] {
      DisjointCounts2(xs[1..], p, q);
      assert !(p(xs[0]) && q(xs[0]));
    }
  }

  /** Filtering a list with one more element at the end. */
  lemma {:induction false} FilterSnoc<T>(xs: seq<T>, x: T, p: T -> bool)
    ensures Filter(xs + [x], p) == Filter(xs, p) + (if p(x) then [x] else [])
  {
    var last: seq<T> := if p(x) then [x] else [];
    if xs == [] {
      assert xs + [x] == [x];
      assert Filter([x], p) == last + Filter([], p);
    } else {
      var ys := xs + [x];
      assert ys[0] == xs[0] && ys[1..] == xs[1..] + [x];
      FilterSnoc(xs[1..], x, p);
      var head: seq<T> := if p(xs[0]) then [xs[0]] else [];
      assert Filter(ys, p) == head + (Filter(xs[1..], p) + last);
      assert Filter(xs, p) == head + Filter(xs[1..], p);
    }
  }

  /** No element passes exactly when the count is 0, and all pass exactly when it is the length. */
  lemma {:induction false} CountIfExtremes<T>(xs: seq<T>, p: T -> bool)
    ensures CountIf(xs, p) == 0 <==> forall i :: 0 <= i < |xs| ==> !p(xs[i])
    ensures CountIf(xs, p) == |xs| <==> forall i :: 0 <= i < |xs| ==> p(xs[i])
  {
    if xs != [] {
      CountIfExtremes(xs[1..], p);
      assert forall i :: 1 <= i < |xs| ==> xs[i] == xs[1..][i - 1];
      assert CountIf(xs, p) == (if p(xs[0]) then 1 else 0) + CountIf(xs[1..], p);
    }
  }

  lemma CountIfSnoc<T>(xs: seq<T>, x: T, p: T -> bool)
    ensures CountIf(xs + [x], p) == CountIf(xs, p) + (if p(x) then 1 else 0)
  {
    FilterSnoc(xs, x, p);
  }

  // ---------------------------------------------------------------- descending sort

  /** `xs` ordered from the largest key to the smallest. */
  predicate SortedDesc<T>(xs: seq<T>, key: T -> real) {
    forall i, j :: 0 <= i < j < |xs| ==> key(xs[i]) >= key(xs[j])
  }

  /** Put `x` in front of the first element whose key is not larger than its own. */
  function InsertDesc<T>(x: T, ys: seq<T>, key: T -> real): (r: seq<T>)
    ensures |r| == |ys| + 1
  {
    if ys == [] then [x]
    else if key(ys[0]) <= key(x) then [x] + ys
    else [ys[0]] + InsertDesc(x, ys[1..], key)
  }

  /**
   * `[...xs].sort((a, b) => key(b) - key(a))`: a stable sort from the largest
   * key to the smallest (elements with equal keys keep their order).
   */
  function SortDesc<T>(xs: seq<T>, key: T -> real): (r: seq<T>)
    ensures |r| == |xs|
  {
    if xs == [] then [] else InsertDesc(xs[0], SortDesc(xs[1..], key), key)
  }

  predicate AllAtMost<T>(xs: seq<T>, key: T -> real, v: real) {
    forall i :: 0 <= i < |xs| ==> key(xs[i]) <= v
  }

  lemma ConsSortedDesc<T>(h: T, t: seq<T>, key: T -> real)
    requires SortedDesc(t, key) && AllAtMost(t, key, key(h))
    ensures SortedDesc([h] + t, key)
  {
    var r := [h] + t;
    forall i, j | 0 <= i < j < |r| ensures key(r[i]) >= key(r[j]) {
      assert r[j] == t[j - 1];
      if i > 0 {
        assert r[i] == t[i - 1];
      }
    }
  }

  lemma TailSortedDesc<T>(ys: seq<T>, key: T -> real)
    requires ys != [] && SortedDesc(ys, key)
    ensures SortedDesc(ys[1..], key) && AllAtMost(ys[1..], key, key(ys[0]))
  {
    var rest := ys[1..];
    forall i, j | 0 <= i < j < |rest| ensures key(rest[i]) >= key(rest[j]) {
      assert rest[i] == ys[i + 1] && rest[j] == ys[j + 1];
    }
    forall i | 0 <= i < |rest| ensures key(rest[i]) <= key(ys[0]) {
      assert rest[i] == ys[i + 1];
    }
  }

  lemma {:induction false} InsertDescAtMost<T>(x: T, ys: seq<T>, key: T -> real, v: real)
    requires AllAtMost(ys, key, v) && key(x) <= v
    ensures AllAtMost(InsertDesc(x, ys, key), key, v)
  {
    if ys != [] && key(ys[0]) > key(x) {
      InsertDescAtMost(x, ys[1..], key, v);
      var r := InsertDesc(x, ys, key);
      forall i | 0 <= i < |r| ensures key(r[i]) <= v {
        if i > 0 {
          assert r[i] == InsertDesc(x, ys[1..], key)[i - 1];
        }
      }
    } else if ys != [] {
      var r := InsertDesc(x, ys, key);
      forall i | 0 <= i < |r| ensures key(r[i]) <= v {
        if i > 0 {
          assert r[i] == ys[i - 1];
        }
      }
    }
  }

  lemma {:induction false} InsertDescSorted<T>(x: T, ys: seq<T>, key: T -> real)
    requires SortedDesc(ys, key)
    ensures SortedDesc(InsertDesc(x, ys, key), key)
  {
    if ys != [] {
      TailSortedDesc(ys, key);
      if key(ys[0]) > key(x) {
        InsertDescSorted(x, ys[1..], key);
        InsertDescAtMost(x, ys[1..], key, key(ys[0]));
        ConsSortedDesc(ys[0], InsertDesc(x, ys[1..], key), key);
      } else {
        assert AllAtMost(ys, key, key(x)) by {
          forall i | 0 <= i < |ys| ensures key(ys[i]) <= key(x) {
            if i > 0 {
              assert ys[i] == ys[1..][i - 1];
            }
          }
        }
        ConsSortedDesc(x, ys, key);
      }
    }
  }

  lemma {:induction false} InsertDescMultiset<T>(x: T, ys: seq<T>, key: T -> real)
    ensures multiset(InsertDesc(x, ys, key)) == multiset(ys) + multiset{x}
  {
    if ys != [] && key(ys[0]) > key(x) {
      InsertDescMultiset(x, ys[1..], key);
      assert ys == [ys[0]] + ys[1..];
    }
  }

  /** The sort orders its input from the largest key down and keeps every element exactly as often. */
  lemma {:induction false} SortDescFacts<T>(xs: seq<T>, key: T -> real)
    ensures SortedDesc(SortDesc(xs, key), key)
    ensures multiset(SortDesc(xs, key)) == multiset(xs)
  {
    if xs != [] {
      SortDescFacts(xs[1..], key);
      InsertDescSorted(xs[0], SortDesc(xs[1..], key), key);
      InsertDescMultiset(xs[0], SortDesc(xs[1..], key), key);
      assert xs == [xs[0]] + xs[1..];
    }
  }

  /**
   * The first `n` of a descending sort are the largest: none of them has a
   * smaller key than any element left out.
   */
  lemma TopOfSortedDesc<T>(xs: seq<T>, key: T -> real, n: nat)
    requires SortedDesc(xs, key)
    ensures forall i, j :: 0 <= i < |Take(xs, n)| && |Take(xs, n)| <= j < |xs| ==> key(Take(xs, n)[i]) >= key(xs[j])
  {
  }
}
