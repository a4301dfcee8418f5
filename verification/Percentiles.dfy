/** The nearest-rank percentile, as the exact order statistic. */
module Percentiles {
  import opened Wrappers

  predicate Ordered(s: seq<int>) {
    forall i, j | 0 <= i < j < |s| :: s[i] <= s[j]
  }

  function Insert(s: seq<int>, x: int): seq<int> {
    if s == [] || x <= s[0] then [x] + s else [s[0]] + Insert(s[1..], x)
  }

  function Sorted(values: seq<int>): seq<int> {
    if values == [] then [] else Insert(Sorted(values[1..]), values[0])
  }

  function CountBelow(values: seq<int>, x: int): nat {
    if values == [] then 0 else (if values[0] < x then 1 else 0) + CountBelow(values[1..], x)
  }

  function CountUpTo(values: seq<int>, x: int): nat {
    if values == [] then 0 else (if values[0] <= x then 1 else 0) + CountUpTo(values[1..], x)
  }

  lemma {:induction false} InsertCounts(s: seq<int>, x: int, y: int)
    ensures |Insert(s, x)| == |s| + 1
    ensures CountBelow(Insert(s, x), y) == CountBelow(s, y) + (if x < y then 1 else 0)
    ensures CountUpTo(Insert(s, x), y) == CountUpTo(s, y) + (if x <= y then 1 else 0)
  {
    if s == [] || x <= s[0] {
      assert ([x] + s)[1..] == s;
    } else {
      InsertCounts(s[1..], x, y);
      assert ([s[0]] + Insert(s[1..], x))[1..] == Insert(s[1..], x);
    }
  }

  lemma HeadIsLeast(s: seq<int>, y: int)
    requires Ordered(s) && y in s
    ensures s[0] <= y
  {
  }

  lemma OrderedPrepend(x: int, rest: seq<int>)
    requires Ordered(rest) && forall i | 0 <= i < |rest| :: x <= rest[i]
    ensures Ordered([x] + rest)
  {
  }

  lemma {:induction false} InsertMembers(s: seq<int>, x: int, y: int)
    ensures y in Insert(s, x) <==> y == x || y in s
  {
    if s != [] && x > s[0] {
      InsertMembers(s[1..], x, y);
      assert y in s <==> y == s[0] || y in s[1..];
      assert y in [s[0]] + Insert(s[1..], x) <==> y == s[0] || y in Insert(s[1..], x);
    } else {
      assert y in [x] + s <==> y == x || y in s;
    }
  }

  lemma {:induction false} InsertOrders(s: seq<int>, x: int)
    requires Ordered(s)
    ensures Ordered(Insert(s, x))
  {
    if s == [] {
      OrderedPrepend(x, s);
    } else if x <= s[0] {
      forall i | 0 <= i < |s|
        ensures x <= s[i]
      {
        HeadIsLeast(s, s[i]);
      }
      OrderedPrepend(x, s);
    } else {
      var rest := Insert(s[1..], x);
      InsertOrders(s[1..], x);
      forall i | 0 <= i < |rest|
        ensures s[0] <= rest[i]
      {
        assert rest[i] in rest;
        InsertMembers(s[1..], x, rest[i]);
        if rest[i] != x {
          assert rest[i] in s;
          HeadIsLeast(s, rest[i]);
        }
      }
      OrderedPrepend(s[0], rest);
    }
  }

  lemma {:induction false} SortedOrders(values: seq<int>)
    ensures Ordered(Sorted(values))
  {
    if values != [] {
      SortedOrders(values[1..]);
      InsertOrders(Sorted(values[1..]), values[0]);
    }
  }

  lemma {:induction false} SortedMembers(values: seq<int>, y: int)
    ensures y in Sorted(values) <==> y in values
  {
    if values != [] {
      SortedMembers(values[1..], y);
      InsertMembers(Sorted(values[1..]), values[0], y);
      assert y in values <==> y == values[0] || y in values[1..];
    }
  }

  lemma {:induction false} SortedCounts(values: seq<int>, y: int)
    ensures |Sorted(values)| == |values|
    ensures CountBelow(Sorted(values), y) == CountBelow(values, y)
    ensures CountUpTo(Sorted(values), y) == CountUpTo(values, y)
  {
    if values != [] {
      SortedCounts(values[1..], y);
      InsertCounts(Sorted(values[1..]), values[0], y);
    }
  }

  /** In an ordered sequence fewer than `k + 1` values are below the one at `k`, and more than `k` are not above it. */
  lemma {:induction false} RankInOrdered(s: seq<int>, k: nat)
    requires Ordered(s) && k < |s|
    ensures CountBelow(s, s[k]) <= k < CountUpTo(s, s[k])
  {
    if k == 0 {
      NoneBelow(s, s[0]);
    } else {
      RankInOrdered(s[1..], k - 1);
    }
  }

  lemma {:induction false} NoneBelow(s: seq<int>, x: int)
    requires forall i | 0 <= i < |s| :: x <= s[i]
    ensures CountBelow(s, x) == 0
  {
    if s != [] {
      NoneBelow(s[1..], x);
    }
  }

  /** `ceil(q * n)`. */
  function Rank(q: real, n: nat): int {
    -((-q * n as real).Floor)
  }

  lemma RankIsInRange(q: real, n: nat)
    requires 0.0 < q <= 1.0 && n > 0
    ensures 1 <= Rank(q, n) <= n
  {
    var x := q * n as real;
    assert 0.0 < x <= n as real by {
      ScaledDown(q, n as real);
    }
    assert -q * n as real == -x;
  }

  lemma ScaledDown(q: real, n: real)
    requires 0.0 < q <= 1.0 && n > 0.0
    ensures 0.0 < q * n <= n
  {
  }

  /** The nearest-rank percentile; an error for no values or a `q` outside `(0, 1]`. */
  function Percentile(values: seq<int>, q: real): (p: Result<int, string>)
    ensures p.Err? <==> values == [] || !(0.0 < q <= 1.0)
  {
    if values == [] then Err("percentile() of an empty sequence is undefined")
    else if !(0.0 < q <= 1.0) then Err("percentile q must be in (0, 1]")
    else
      RankIsInRange(q, |values|);
      SortedCounts(values, 0);
      Ok(Sorted(values)[Rank(q, |values|) - 1])
  }

  /** `x` is the value of rank `r`: fewer than `r` values are below it, at least `r` are not above it. */
  predicate HasRank(values: seq<int>, x: int, r: int) {
    x in values && CountBelow(values, x) < r <= CountUpTo(values, x)
  }

  /** A percentile is a value that happened, and the exact order statistic. */
  lemma PercentileHasItsRank(values: seq<int>, q: real)
    requires values != [] && 0.0 < q <= 1.0
    ensures HasRank(values, Percentile(values, q).value, Rank(q, |values|))
  {
    RankIsInRange(q, |values|);
    var k := Rank(q, |values|) - 1;
    var x := Percentile(values, q).value;
    SortedOrders(values);
    SortedMembers(values, x);
    SortedCounts(values, x);
    RankInOrdered(Sorted(values), k);
    assert x == Sorted(values)[k];
    assert x in Sorted(values);
  }

  lemma {:induction false} CountsNest(values: seq<int>, x: int, y: int)
    requires x < y
    ensures CountUpTo(values, x) <= CountBelow(values, y)
  {
    if values != [] {
      CountsNest(values[1..], x, y);
    }
  }

  /** No two values have one rank. */
  lemma RankIsUnique(values: seq<int>, x: int, y: int, r: int)
    requires HasRank(values, x, r) && HasRank(values, y, r)
    ensures x == y
  {
    if x < y {
      CountsNest(values, x, y);
    } else if y < x {
      CountsNest(values, y, x);
    }
  }
}
