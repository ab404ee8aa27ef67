/** Percentiles by nearest rank, over an exact quantile. */
module NearestRank {
  import opened Numbers
  import Sequences

  function Insert(x: int, s: seq<int>): seq<int> {
    if s == [] || x <= s[0] then [x] + s else [s[0]] + Insert(x, s[1..])
  }

  function Sorted(s: seq<int>): seq<int> {
    if s == [] then [] else Insert(s[0], Sorted(s[1..]))
  }

  predicate Ascending(s: seq<int>) {
    forall i, j :: 0 <= i < j < |s| ==> s[i] <= s[j]
  }

  /** How many of the values are at most `x`. */
  function AtMost(s: seq<int>, x: int): nat {
    if s == [] then 0 else (if s[0] <= x then 1 else 0) + AtMost(s[1..], x)
  }

  /** How many of the values are less than `x`. */
  function Below(s: seq<int>, x: int): nat {
    if s == [] then 0 else (if s[0] < x then 1 else 0) + Below(s[1..], x)
  }

  lemma {:induction false} InsertContents(x: int, s: seq<int>)
    ensures multiset(Insert(x, s)) == multiset(s) + multiset{x}
  {
    if s != [] && x > s[0] {
      InsertContents(x, s[1..]);
      assert s == [s[0]] + s[1..];
    }
  }

  lemma {:induction false} InsertKeepsOrder(x: int, s: seq<int>)
    requires Ascending(s)
    ensures Ascending(Insert(x, s))
  {
    if s != [] && x > s[0] {
      InsertKeepsOrder(x, s[1..]);
      InsertContents(x, s[1..]);
      var rest := Insert(x, s[1..]);
      forall i | 0 <= i < |rest|
        ensures s[0] <= rest[i]
      {
        assert rest[i] in multiset(rest);
      }
    }
  }

  lemma {:induction false} SortedSorts(s: seq<int>)
    ensures Ascending(Sorted(s)) && multiset(Sorted(s)) == multiset(s)
  {
    if s != [] {
      SortedSorts(s[1..]);
      InsertKeepsOrder(s[0], Sorted(s[1..]));
      InsertContents(s[0], Sorted(s[1..]));
      assert s == [s[0]] + s[1..];
    }
  }

  function Ceil(x: real): (r: int)
    ensures (r - 1) as real < x <= r as real
  {
    -((-x).Floor)
  }

  function Clamp(k: int, n: nat): (r: nat)
    requires n > 0
    ensures 1 <= r <= n && (1 <= k <= n ==> r == k)
  {
    if k < 1 then 1 else if k > n then n else k
  }

  function Scaled(q: real, n: nat): real {
    q * n as real
  }

  /** The rank a quantile asks for, counted from one. */
  function Rank(n: nat, q: real): (k: nat)
    requires n > 0
    ensures 1 <= k <= n
  {
    Clamp(Ceil(Scaled(q, n)), n)
  }

  method Percentile(values: array<int>, quantile: real) returns (r: int)
    ensures values[..] == old(values[..])
    ensures values.Length == 0 ==> r == 0
    ensures values.Length > 0 ==> IsNearestRank(values[..], Rank(values.Length, quantile), r)
  {
    var n := values.Length;
    if n == 0 {
      return 0;
    }
    var ordered := Sorted(values[..]);
    var index := Ceil(Scaled(quantile, n)) - 1;
    ClampedIndex(index + 1, n);
    SortedRank(values[..], Clamp(index + 1, n));
    r := ordered[Max(0, Min(index, n - 1))];
  }

  lemma ClampedIndex(k: int, n: nat)
    requires n > 0
    ensures Max(0, Min(k - 1, n - 1)) == Clamp(k, n) - 1
  {
  }

  /** A sample with at least `k` samples up to it and fewer than `k` before it. */
  predicate IsNearestRank(values: seq<int>, k: nat, r: int) {
    r in values && AtMost(values, r) >= k && Below(values, r) < k
  }

  lemma {:induction false} AllAtLeast(s: seq<int>, x: int)
    requires forall i :: 0 <= i < |s| ==> x <= s[i]
    ensures Below(s, x) == 0
  {
    if s != [] {
      AllAtLeast(s[1..], x);
    }
  }

  lemma {:induction false} AscendingRank(s: seq<int>, i: nat)
    requires Ascending(s) && i < |s|
    ensures AtMost(s, s[i]) >= i + 1 && Below(s, s[i]) <= i
  {
    if i > 0 {
      AscendingRank(s[1..], i - 1);
      assert s[1..][i - 1] == s[i];
    } else {
      AllAtLeast(s, s[0]);
    }
  }

  lemma SortedRank(values: seq<int>, k: nat)
    requires 1 <= k <= |values|
    ensures |Sorted(values)| == |values| && IsNearestRank(values, k, Sorted(values)[k - 1])
  {
    SortedSorts(values);
    assert |multiset(Sorted(values))| == |multiset(values)|;
    var r := Sorted(values)[k - 1];
    AscendingRank(Sorted(values), k - 1);
    CountsOfPermutation(Sorted(values), values, r);
    assert r in multiset(values);
  }

  lemma {:induction false} CountsAreOrdered(s: seq<int>, x: int, y: int)
    requires x < y
    ensures AtMost(s, x) <= Below(s, y)
  {
    if s != [] {
      CountsAreOrdered(s[1..], x, y);
    }
  }

  /** At most one sample has a given rank, and a higher rank never gives a smaller sample. */
  lemma NearestRankIsMonotone(values: seq<int>, k: nat, k': nat, r: int, r': int)
    requires IsNearestRank(values, k, r) && IsNearestRank(values, k', r') && k <= k'
    ensures r <= r' && (k == k' ==> r == r')
  {
    if r' < r {
      CountsAreOrdered(values, r', r);
    }
    if k == k' && r < r' {
      CountsAreOrdered(values, r, r');
    }
  }

  lemma ScaledIsMonotone(q: real, q': real, n: nat)
    requires q <= q'
    ensures Scaled(q, n) <= Scaled(q', n)
  {
    assert (q' - q) * n as real >= 0.0;
  }

  lemma ScaledIsPositive(q: real, n: nat)
    requires q > 0.0 && n > 0
    ensures Scaled(q, n) > 0.0
  {
  }

  /** For a quantile in (0, 1] the rank is the ceiling itself, and it is monotone in the quantile. */
  lemma RankIsCeiling(n: nat, q: real, q': real)
    requires n > 0 && q <= q'
    ensures Rank(n, q) <= Rank(n, q')
    ensures 0.0 < q <= 1.0 ==> Rank(n, q) == Ceil(Scaled(q, n))
  {
    ScaledIsMonotone(q, q', n);
    if 0.0 < q <= 1.0 {
      ScaledIsMonotone(q, 1.0, n);
      ScaledIsPositive(q, n);
      assert Scaled(1.0, n) == n as real;
    }
  }

  /** The same samples in another order have the same percentile. */
  lemma OrderDoesNotMatter(a: seq<int>, b: seq<int>, k: nat, r: int, r': int)
    requires multiset(a) == multiset(b)
    requires IsNearestRank(a, k, r) && IsNearestRank(b, k, r')
    ensures r == r'
  {
    CountsOfPermutation(a, b, r);
    assert r in multiset(a);
    NearestRankIsMonotone(b, k, k, r, r');
  }

  lemma {:induction false} CountsWithout(s: seq<int>, i: nat, y: int)
    requires i < |s|
    ensures var rest := s[..i] + s[i + 1..];
      && AtMost(s, y) == AtMost(rest, y) + (if s[i] <= y then 1 else 0)
      && Below(s, y) == Below(rest, y) + if s[i] < y then 1 else 0
  {
    var rest := s[..i] + s[i + 1..];
    if i == 0 {
      assert rest == s[1..];
    } else {
      CountsWithout(s[1..], i - 1, y);
      assert rest[1..] == s[1..][..i - 1] + s[1..][i..];
    }
  }

  lemma {:induction false} CountsOfPermutation(a: seq<int>, b: seq<int>, y: int)
    requires multiset(a) == multiset(b)
    ensures AtMost(a, y) == AtMost(b, y) && Below(a, y) == Below(b, y)
  {
    if a != [] {
      var i := Sequences.PickOut(a, b);
      var n := |a| - 1;
      CountsOfPermutation(a[..n], b[..i] + b[i + 1..], y);
      CountsWithout(b, i, y);
      CountsWithout(a, n, y);
      assert a[..n] + a[n + 1..] == a[..n];
    } else {
      assert |multiset(b)| == 0;
    }
  }
}
