/**
 * The stream operations the reports are built from: counting, `distinct()`
 * (first occurrences, in order), sums and averages of doubles, `sorted` on a
 * numeric key and `limit`.
 */
module Collections {

  /** The number of occurrences of `x` in `xs`. */
  function Count<T(==)>(xs: seq<T>, x: T): (n: nat)
    ensures n <= |xs|
    ensures n > 0 <==> x in xs
  {
    if xs == [] then 0
    else
      var init := xs[..|xs| - 1];
      assert forall y :: y in xs ==> y in init || y == xs[|xs| - 1];
      Count(init, x) + (if xs[|xs| - 1] == x then 1 else 0)
  }

  lemma CountSnoc<T>(p: seq<T>, x: T, y: T)
    ensures Count(p + [x], y) == Count(p, y) + (if x == y then 1 else 0)
  {
    assert (p + [x])[..|p|] == p;
  }

  predicate NoDups<T(==)>(xs: seq<T>) {
    forall i, j :: 0 <= i < j < |xs| ==> xs[i] != xs[j]
  }

  function Elements<T>(xs: seq<T>): set<T> {
    set x | x in xs
  }

  /**
   * Stream.distinct(): every element of `xs` once, at its first occurrence.
   */
  function Distinct<T(==)>(xs: seq<T>): (r: seq<T>)
    ensures forall x :: x in r ==> x in xs
    ensures forall x :: x in xs ==> x in r
    ensures NoDups(r)
    ensures |r| <= |xs|
  {
    if xs == [] then []
    else
      var init := xs[..|xs| - 1];
      var last := xs[|xs| - 1];
      assert forall y :: y in xs ==> y in init || y == last;
      var d := Distinct(init);
      if last in d then d else d + [last]
  }

  lemma {:induction false} NoDupsCardinality<T>(xs: seq<T>)
    requires NoDups(xs)
    ensures |Elements(xs)| == |xs|
  {
    if xs != [] {
      var init, last := xs[..|xs| - 1], xs[|xs| - 1];
      assert NoDups(init);
      NoDupsCardinality(init);
      assert last !in Elements(init);
      assert Elements(xs) == Elements(init) + {last};
    }
  }

  /** `distinct().count()` is the number of different elements. */
  lemma DistinctCardinality<T>(xs: seq<T>)
    ensures |Distinct(xs)| == |Elements(xs)|
  {
    NoDupsCardinality(Distinct(xs));
    assert Elements(Distinct(xs)) == Elements(xs);
  }

  /** The total number of occurrences in `xs` of the elements of `keys`. */
  function SumCounts<T(==)>(xs: seq<T>, keys: seq<T>): nat {
    if keys == [] then 0
    else SumCounts(xs, keys[..|keys| - 1]) + Count(xs, keys[|keys| - 1])
  }

  lemma {:induction false} SumCountsSnoc<T>(p: seq<T>, x: T, keys: seq<T>)
    ensures SumCounts(p + [x], keys) == SumCounts(p, keys) + Count(keys, x)
  {
    if keys != [] {
      var init, last := keys[..|keys| - 1], keys[|keys| - 1];
      SumCountsSnoc(p, x, init);
      CountSnoc(p, x, last);
      CountSnoc(init, last, x);
      assert init + [last] == keys;
    }
  }

  lemma {:induction false} CountOfUnique<T>(keys: seq<T>, x: T)
    requires NoDups(keys) && x in keys
    ensures Count(keys, x) == 1
  {
    var init, last := keys[..|keys| - 1], keys[|keys| - 1];
    assert init + [last] == keys;
    assert NoDups(init);
    CountSnoc(init, last, x);
    if last != x {
      CountOfUnique(init, x);
    } else {
      assert x !in init;
    }
  }

  /**
   * Grouping `xs` by the distinct keys `keys` loses no element: the group
   * sizes add up to the length of `xs`.
   */
  lemma {:induction false} SumCountsCover<T>(xs: seq<T>, keys: seq<T>)
    requires NoDups(keys)
    requires forall x :: x in xs ==> x in keys
    ensures SumCounts(xs, keys) == |xs|
  {
    if xs == [] {
      SumCountsEmpty(keys);
    } else {
      var init, last := xs[..|xs| - 1], xs[|xs| - 1];
      assert init + [last] == xs;
      SumCountsCover(init, keys);
      SumCountsSnoc(init, last, keys);
      CountOfUnique(keys, last);
    }
  }

  lemma {:induction false} SumCountsEmpty<T>(keys: seq<T>)
    ensures SumCounts([], keys) == 0
  {
    if keys != [] {
      SumCountsEmpty(keys[..|keys| - 1]);
    }
  }

  // ---- Multiplicities ----

  lemma {:induction false} NoDupsMultiplicity<T>(xs: seq<T>)
    requires NoDups(xs)
    ensures forall v :: multiset(xs)[v] <= 1
  {
    if xs != [] {
      var init, last := xs[..|xs| - 1], xs[|xs| - 1];
      assert init + [last] == xs;
      assert NoDups(init);
      NoDupsMultiplicity(init);
      assert last !in init;
      assert multiset(xs) == multiset(init) + multiset{last};
    }
  }

  lemma Repeated<T>(ys: seq<T>, i: nat, j: nat)
    requires i < j < |ys|
    ensures ys[i] == ys[j] ==> multiset(ys)[ys[j]] >= 2
  {
    assert ys == ys[..j] + [ys[j]] + ys[j + 1..];
    assert multiset(ys) == multiset(ys[..j]) + multiset{ys[j]} + multiset(ys[j + 1..]);
    assert ys[i] in ys[..j];
  }

  lemma MultiplicityNoDups<T>(ys: seq<T>)
    requires forall v :: multiset(ys)[v] <= 1
    ensures NoDups(ys)
  {
    forall i, j | 0 <= i < j < |ys|
      ensures ys[i] != ys[j]
    {
      Repeated(ys, i, j);
    }
  }

  /** A rearrangement of a sequence without repetitions has none either. */
  lemma PermutationNoDups<T>(xs: seq<T>, ys: seq<T>)
    requires multiset(xs) == multiset(ys) && NoDups(xs)
    ensures NoDups(ys) && forall v :: v in ys <==> v in xs
  {
    NoDupsMultiplicity(xs);
    MultiplicityNoDups(ys);
    assert forall v :: v in ys <==> v in multiset(ys);
    assert forall v :: v in xs <==> v in multiset(xs);
  }

  // ---- Sums and averages of doubles ----

  function Sum(xs: seq<real>): real {
    if xs == [] then 0.0 else Sum(xs[..|xs| - 1]) + xs[|xs| - 1]
  }

  /** DoubleStream.average().orElse(0.0). */
  function Mean(xs: seq<real>): real {
    if xs == [] then 0.0 else Sum(xs) / (|xs| as real)
  }

  lemma {:induction false} SumBounds(xs: seq<real>, lo: real, hi: real)
    requires forall i :: 0 <= i < |xs| ==> lo <= xs[i] <= hi
    ensures (|xs| as real) * lo <= Sum(xs) <= (|xs| as real) * hi
  {
    if xs != [] {
      var init := xs[..|xs| - 1];
      SumBounds(init, lo, hi);
      assert (|xs| as real) * lo == (|init| as real) * lo + lo;
      assert (|xs| as real) * hi == (|init| as real) * hi + hi;
    }
  }

  /** The average of values that lie between `lo` and `hi` lies between them too. */
  lemma MeanBounds(xs: seq<real>, lo: real, hi: real)
    requires forall i :: 0 <= i < |xs| ==> lo <= xs[i] <= hi
    requires xs != [] || lo <= 0.0 <= hi
    ensures lo <= Mean(xs) <= hi
  {
    if xs != [] {
      SumBounds(xs, lo, hi);
      var n := |xs| as real;
      assert Sum(xs) == n * Mean(xs);
      DivideBounds(Sum(xs), n, lo, hi);
    }
  }

  lemma DivideBounds(s: real, n: real, lo: real, hi: real)
    requires n > 0.0 && n * lo <= s <= n * hi
    ensures lo <= s / n <= hi
  {
    assert s / n - lo == (s - n * lo) / n;
    assert hi - s / n == (n * hi - s) / n;
  }

  /** `count * 100.0 / total`, the percentage every rate in the reports uses. */
  function Percentage(count: nat, total: nat): (r: real)
    requires total > 0
    ensures 0.0 <= r
    ensures count <= total ==> r <= 100.0
    ensures r * (total as real) == (count as real) * 100.0
  {
    QuotientBounds(count as real * 100.0, total as real);
    (count as real) * 100.0 / (total as real)
  }

  lemma QuotientBounds(s: real, t: real)
    requires t > 0.0 && s >= 0.0
    ensures s / t >= 0.0
    ensures s <= t * 100.0 ==> s / t <= 100.0
  {
    if s <= t * 100.0 {
      DivideBounds(s, t, 0.0, 100.0);
    } else {
      NonNegativeQuotient(s, t);
    }
  }

  lemma NonNegativeQuotient(s: real, n: real)
    requires n > 0.0 && s >= 0.0
    ensures s / n >= 0.0
  {
    var q := s / n;
    assert q * n == s;
    if q < 0.0 {
      assert false;
    }
  }

  lemma PercentageOfWhole(total: nat)
    requires total > 0
    ensures Percentage(total, total) == 100.0
  {
    var r := Percentage(total, total);
    CancelFactor(r, 100.0, total as real);
  }

  lemma PercentageSum(a: nat, b: nat, total: nat)
    requires total > 0
    ensures Percentage(a, total) + Percentage(b, total) == Percentage(a + b, total)
  {
    var t := total as real;
    var pa, pb, pab := Percentage(a, total), Percentage(b, total), Percentage(a + b, total);
    var x, y := (a as real) * 100.0, (b as real) * 100.0;
    assert pa * t == x && pb * t == y;
    assert ((a + b) as real) * 100.0 == x + y;
    assert pab * t == x + y;
    assert (pa + pb) * t == pa * t + pb * t;
    assert (pa + pb) * t == pab * t;
    CancelFactor(pa + pb, pab, t);
  }

  /** Two reals with the same product by a positive factor are equal. */
  lemma CancelFactor(x: real, y: real, t: real)
    requires t > 0.0 && x * t == y * t
    ensures x == y
  {
    assert (x - y) * t == 0.0;
  }

  // ---- Sorting on a numeric key ----

  datatype Direction = Ascending | Descending

  predicate InOrder(dir: Direction, a: real, b: real) {
    match dir
    case Ascending => a <= b
    case Descending => a >= b
  }

  predicate SortedBy<T>(xs: seq<T>, key: T -> real, dir: Direction) {
    forall i, j :: 0 <= i < j < |xs| ==> InOrder(dir, key(xs[i]), key(xs[j]))
  }

  function Insert<T(==)>(x: T, ys: seq<T>, key: T -> real, dir: Direction): (r: seq<T>)
    requires SortedBy(ys, key, dir)
    ensures SortedBy(r, key, dir)
    ensures multiset(r) == multiset(ys) + multiset{x}
  {
    if ys == [] then [x]
    else if InOrder(dir, key(x), key(ys[0])) then [x] + ys
    else
      var rest := Insert(x, ys[1..], key, dir);
      assert ys == [ys[0]] + ys[1..];
      assert forall k :: 0 <= k < |rest| ==> InOrder(dir, key(ys[0]), key(rest[k])) by {
        forall k | 0 <= k < |rest| ensures InOrder(dir, key(ys[0]), key(rest[k])) {
          assert rest[k] in multiset(rest);
          assert rest[k] == x || rest[k] in ys[1..];
        }
      }
      [ys[0]] + rest
  }

  /**
   * Stream.sorted with a comparator on `key`: the result is ordered and is
   * a rearrangement of `xs`. Ties are left in some order.
   */
  function SortBy<T(==)>(xs: seq<T>, key: T -> real, dir: Direction): (r: seq<T>)
    ensures SortedBy(r, key, dir)
    ensures multiset(r) == multiset(xs)
    ensures |r| == |xs|
  {
    if xs == [] then []
    else
      assert xs == [xs[0]] + xs[1..];
      Insert(xs[0], SortBy(xs[1..], key, dir), key, dir)
  }

  /** Stream.limit(limit). */
  function Take<T>(xs: seq<T>, limit: nat): (r: seq<T>)
    ensures |r| == if limit < |xs| then limit else |xs|
    ensures forall i :: 0 <= i < |r| ==> r[i] == xs[i]
  {
    if limit < |xs| then xs[..limit] else xs
  }

  /** A prefix of a sorted sequence without duplicates is sorted and without duplicates. */
  lemma TakeKeepsOrder<T>(xs: seq<T>, key: T -> real, dir: Direction, limit: nat)
    requires SortedBy(xs, key, dir) && NoDups(xs)
    ensures SortedBy(Take(xs, limit), key, dir) && NoDups(Take(xs, limit))
    ensures forall x :: x in Take(xs, limit) ==> x in xs
  {
  }

  /**
   * After sorting, `limit` keeps the leaders: an element that did not make
   * the cut is ranked no higher than any element that did.
   */
  lemma TakeRanked<T>(xs: seq<T>, key: T -> real, dir: Direction, limit: nat, x: T)
    requires SortedBy(xs, key, dir)
    requires x in xs && x !in Take(xs, limit)
    ensures forall i :: 0 <= i < |Take(xs, limit)| ==> InOrder(dir, key(Take(xs, limit)[i]), key(x))
  {
    var j :| 0 <= j < |xs| && xs[j] == x;
  }
}
