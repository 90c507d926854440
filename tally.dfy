/**
 * Group-and-count, the one algorithm every report shares: a JavaScript object
 * used as a counter (`counts[k] = (counts[k] || 0) + 1`) and read back with
 * `Object.keys`/`Object.values` or `for...in`. The object is modelled as a
 * count table, a sequence of (key, count) pairs in the order the keys were
 * first stored.
 */
module Tally {
  import opened ListOps

  type CountTable = seq<(string, nat)>

  /** `Object.keys(counts)`. */
  function KeysOf(t: CountTable): (r: seq<string>)
    ensures |r| == |t|
    ensures forall i :: 0 <= i < |t| ==> r[i] == t[i].0
  {
    if t == [] then [] else [t[0].0] + KeysOf(t[1..])
  }

  /** `Object.values(counts)`. */
  function ValuesOf(t: CountTable): (r: seq<nat>)
    ensures |r| == |t|
    ensures forall i :: 0 <= i < |t| ==> r[i] == t[i].1
  {
    if t == [] then [] else [t[0].1] + ValuesOf(t[1..])
  }

  /** The sum of all counts. */
  function Total(t: CountTable): nat {
    if t == [] then 0 else t[0].1 + Total(t[1..])
  }

  /** `counts[k] || 0`. */
  function CountOf(t: CountTable, k: string): nat {
    if t == [] then 0 else if t[0].0 == k then t[0].1 else CountOf(t[1..], k)
  }

  /** How many times `k` occurs in `xs`. */
  function Occurrences(xs: seq<string>, k: string): nat {
    if xs == [] then 0
    else Occurrences(xs[..|xs| - 1], k) + (if xs[|xs| - 1] == k then 1 else 0)
  }

  /** The distinct values of `xs` in first-occurrence order (`[...new Set(xs)]`). */
  function Distinct(xs: seq<string>): seq<string> {
    if xs == [] then []
    else
      var d := Distinct(xs[..|xs| - 1]);
      if xs[|xs| - 1] in d then d else d + [xs[|xs| - 1]]
  }

  predicate NoDuplicates(s: seq<string>) {
    forall i, j :: 0 <= i < j < |s| ==> s[i] != s[j]
  }

  /** `counts[k] = (counts[k] || 0) + 1` on a count table. */
  function Bump(t: CountTable, k: string): CountTable {
    if t == [] then [(k, 1)]
    else if t[0].0 == k then [(k, t[0].1 + 1)] + t[1..]
    else [t[0]] + Bump(t[1..], k)
  }

  /** The table one left-to-right counting pass over `xs` builds. */
  function Tally(xs: seq<string>): CountTable {
    if xs == [] then [] else Bump(Tally(xs[..|xs| - 1]), xs[|xs| - 1])
  }

  // ---------------------------------------------------------------- one step

  /**
   * Counting one more value adds one to that value's count and to no other,
   * and appends the value to the keys only when it is new.
   */
  lemma TallySnoc(xs: seq<string>, x: string)
    ensures Tally(xs + [x]) == Bump(Tally(xs), x)
    ensures CountOf(Tally(xs + [x]), x) == CountOf(Tally(xs), x) + 1
    ensures forall k :: k != x ==> CountOf(Tally(xs + [x]), k) == CountOf(Tally(xs), k)
    ensures KeysOf(Tally(xs + [x])) == KeysOf(Tally(xs)) + (if x in KeysOf(Tally(xs)) then [] else [x])
  {
    assert (xs + [x])[..|xs|] == xs;
    BumpKeys(Tally(xs), x);
    forall k {
      BumpCountOf(Tally(xs), x, k);
    }
  }

  lemma {:induction false} BumpKeys(t: CountTable, k: string)
    ensures KeysOf(Bump(t, k)) == if k in KeysOf(t) then KeysOf(t) else KeysOf(t) + [k]
  {
    if t != [] {
      BumpKeys(t[1..], k);
      assert KeysOf(t) == [t[0].0] + KeysOf(t[1..]);
      if t[0].0 == k {
        assert KeysOf(Bump(t, k)) == [k] + KeysOf(t[1..]);
      } else {
        assert KeysOf(Bump(t, k)) == [t[0].0] + KeysOf(Bump(t[1..], k));
      }
    }
  }

  lemma {:induction false} BumpTotal(t: CountTable, k: string)
    ensures Total(Bump(t, k)) == Total(t) + 1
  {
    if t != [] && t[0].0 != k {
      BumpTotal(t[1..], k);
      assert Bump(t, k)[1..] == Bump(t[1..], k);
    } else if t != [] {
      assert Bump(t, k)[1..] == t[1..];
    }
  }

  lemma {:induction false} BumpCountOf(t: CountTable, k: string, j: string)
    ensures CountOf(Bump(t, k), j) == CountOf(t, j) + (if j == k then 1 else 0)
  {
    if t != [] && t[0].0 != k {
      BumpCountOf(t[1..], k, j);
      assert Bump(t, k)[1..] == Bump(t[1..], k);
    } else if t != [] {
      assert Bump(t, k)[1..] == t[1..];
    }
  }

  lemma {:induction false} BumpPositive(t: CountTable, k: string)
    requires forall i :: 0 <= i < |t| ==> t[i].1 >= 1
    ensures forall i :: 0 <= i < |Bump(t, k)| ==> Bump(t, k)[i].1 >= 1
  {
    if t != [] && t[0].0 != k {
      BumpPositive(t[1..], k);
      assert Bump(t, k) == [t[0]] + Bump(t[1..], k);
    }
  }

  /** The in-place update the counting loop performs is `Bump`. */
  lemma {:induction false} BumpAt(t: CountTable, k: string, j: nat)
    requires j <= |t|
    requires forall m :: 0 <= m < j ==> t[m].0 != k
    requires j < |t| ==> t[j].0 == k
    ensures Bump(t, k) == if j < |t| then t[j := (k, t[j].1 + 1)] else t + [(k, 1)]
  {
    if t != [] && j > 0 {
      BumpAt(t[1..], k, j - 1);
      assert t == [t[0]] + t[1..];
    }
  }

  // ---------------------------------------------------------------- whole pass

  lemma {:induction false} DistinctMembers(xs: seq<string>, x: string)
    ensures x in Distinct(xs) <==> x in xs
  {
    if xs != [] {
      var p := xs[..|xs| - 1];
      DistinctMembers(p, x);
      assert xs == p + [xs[|xs| - 1]];
    }
  }

  lemma {:induction false} DistinctNoDuplicates(xs: seq<string>)
    ensures NoDuplicates(Distinct(xs))
  {
    if xs != [] {
      DistinctNoDuplicates(xs[..|xs| - 1]);
    }
  }

  lemma {:induction false} TallyKeys(xs: seq<string>)
    ensures KeysOf(Tally(xs)) == Distinct(xs)
  {
    if xs != [] {
      var p := xs[..|xs| - 1];
      TallyKeys(p);
      BumpKeys(Tally(p), xs[|xs| - 1]);
    }
  }

  lemma {:induction false} TallyCountOf(xs: seq<string>, k: string)
    ensures CountOf(Tally(xs), k) == Occurrences(xs, k)
  {
    if xs != [] {
      var p := xs[..|xs| - 1];
      TallyCountOf(p, k);
      BumpCountOf(Tally(p), xs[|xs| - 1], k);
    }
  }

  lemma {:induction false} TallyTotal(xs: seq<string>)
    ensures Total(Tally(xs)) == |xs|
  {
    if xs != [] {
      var p := xs[..|xs| - 1];
      TallyTotal(p);
      BumpTotal(Tally(p), xs[|xs| - 1]);
    }
  }

  lemma {:induction false} TallyPositive(xs: seq<string>)
    ensures forall i :: 0 <= i < |Tally(xs)| ==> Tally(xs)[i].1 >= 1
  {
    if xs != [] {
      var p := xs[..|xs| - 1];
      TallyPositive(p);
      BumpPositive(Tally(p), xs[|xs| - 1]);
    }
  }

  /** With distinct keys, `counts[key]` reads back the entry stored under that key. */
  lemma {:induction false} CountOfAt(t: CountTable, i: nat)
    requires i < |t|
    requires NoDuplicates(KeysOf(t))
    ensures CountOf(t, t[i].0) == t[i].1
  {
    if i > 0 {
      assert KeysOf(t)[0] != KeysOf(t)[i];
      assert NoDuplicates(KeysOf(t[1..])) by {
        forall a, b | 0 <= a < b < |t| - 1 ensures KeysOf(t[1..])[a] != KeysOf(t[1..])[b] {
          assert KeysOf(t)[a + 1] != KeysOf(t)[b + 1];
        }
      }
      CountOfAt(t[1..], i - 1);
    }
  }

  /**
   * What one counting pass produces: one entry per distinct value, in
   * first-occurrence order; each entry holds how often its key occurs, which
   * is at least 1; the counts add up to the number of values counted.
   */
  lemma TallyCorrect(xs: seq<string>)
    ensures KeysOf(Tally(xs)) == Distinct(xs)
    ensures NoDuplicates(KeysOf(Tally(xs)))
    ensures forall i :: 0 <= i < |Tally(xs)| ==> Tally(xs)[i].1 == Occurrences(xs, Tally(xs)[i].0)
    ensures forall i :: 0 <= i < |Tally(xs)| ==> Tally(xs)[i].1 >= 1
    ensures Total(Tally(xs)) == |xs|
  {
    var t := Tally(xs);
    TallyKeys(xs);
    DistinctNoDuplicates(xs);
    TallyTotal(xs);
    TallyPositive(xs);
    forall i | 0 <= i < |t| ensures t[i].1 == Occurrences(xs, t[i].0) {
      CountOfAt(t, i);
      TallyCountOf(xs, t[i].0);
    }
  }

  lemma {:induction false} OccurrencesOfAbsent(xs: seq<string>, k: string)
    requires k !in xs
    ensures Occurrences(xs, k) == 0
  {
    if xs != [] {
      OccurrencesOfAbsent(xs[..|xs| - 1], k);
    }
  }

  // ---------------------------------------------------------------- the loops

  /**
   * `array.forEach(item => counts[key(item)] = (counts[key(item)] || 0) + 1)`
   * over the already extracted keys, as the panels' counting loops run it.
   */
  method CountByKey(keys: seq<string>) returns (t: CountTable)
    ensures t == Tally(keys)
    ensures KeysOf(t) == Distinct(keys)
    ensures forall i :: 0 <= i < |t| ==> t[i].1 == Occurrences(keys, t[i].0) && t[i].1 >= 1
    ensures Total(t) == |keys|
  {
    t := [];
    var n := 0;
    while n < |keys|
      invariant 0 <= n <= |keys|
      invariant t == Tally(keys[..n])
    {
      var k := keys[n];
      var j := 0;
      while j < |t| && t[j].0 != k
        invariant 0 <= j <= |t|
        invariant forall m :: 0 <= m < j ==> t[m].0 != k
      {
        j := j + 1;
      }
      BumpAt(t, k, j);
      if j < |t| {
        t := t[j := (k, t[j].1 + 1)];
      } else {
        t := t + [(k, 1)];
      }
      assert keys[..n + 1][..n] == keys[..n];
      n := n + 1;
    }
    assert keys[..|keys|] == keys;
    TallyCorrect(keys);
  }

  /**
   * The running maximum `if (counts[k] > best) { best = counts[k]; key = k; }`
   * over a table in enumeration order, starting from no key and 0: the
   * reported count is the highest count, the key is the FIRST one reaching
   * it (the comparison is strict), and no key is reported when every count
   * is 0, in particular for an empty table.
   */
  method MostCommon(t: CountTable) returns (best: Option<string>, bestCount: nat)
    ensures forall i :: 0 <= i < |t| ==> t[i].1 <= bestCount
    ensures best.None? ==> bestCount == 0
    ensures best.Some? ==> exists i :: 0 <= i < |t| && t[i].0 == best.value && t[i].1 == bestCount
                                     && bestCount > 0 && forall j :: 0 <= j < i ==> t[j].1 < bestCount
  {
    best, bestCount := None, 0;
    ghost var at := 0;
    var i := 0;
    while i < |t|
      invariant 0 <= i <= |t|
      invariant forall m :: 0 <= m < i ==> t[m].1 <= bestCount
      invariant best.None? ==> bestCount == 0
      invariant best.Some? ==> 0 <= at < i && t[at].0 == best.value && t[at].1 == bestCount
                               && bestCount > 0 && forall j :: 0 <= j < at ==> t[j].1 < bestCount
    {
      if t[i].1 > bestCount {
        best, bestCount := Some(t[i].0), t[i].1;
        at := i;
      }
      i := i + 1;
    }
  }

  /**
   * `keys.reduce((a, b) => counts[a] > counts[b] ? a : b)` on a non-empty
   * table, as an index: a highest count, and on a tie the LAST such key.
   */
  function ReduceMaxIndex(t: CountTable): (i: nat)
    requires |t| > 0
    ensures i < |t|
    ensures forall j :: 0 <= j < |t| ==> t[j].1 <= t[i].1
    ensures forall j :: i < j < |t| ==> t[j].1 < t[i].1
  {
    if |t| == 1 then 0
    else
      var a := ReduceMaxIndex(t[..|t| - 1]);
      if t[a].1 > t[|t| - 1].1 then a else |t| - 1
  }
}
