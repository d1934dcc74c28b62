/** The nearest-rank percentile of the traffic generator. */
module Percentiles {
  import opened Wrappers

  function Ceil(x: real): (c: int)
    ensures c as real >= x > (c - 1) as real
  {
    -(-x).Floor
  }

  predicate Ascending(s: seq<real>)
  {
    |s| <= 1 || (s[0] <= s[1] && Ascending(s[1..]))
  }

  function Insert(x: real, s: seq<real>): (r: seq<real>)
    requires Ascending(s)
    ensures Ascending(r) && |r| == |s| + 1
    ensures r[0] == if s == [] || x <= s[0] then x else s[0]
    ensures multiset(r) == multiset(s) + multiset{x}
  {
    if s == [] || x <= s[0] then
      assert ([x] + s)[1..] == s;
      [x] + s
    else
      assert s == [s[0]] + s[1..];
      var rest := Insert(x, s[1..]);
      assert ([s[0]] + rest)[1..] == rest;
      [s[0]] + rest
  }

  function Ordered(s: seq<real>): (r: seq<real>)
    ensures Ascending(r) && multiset(r) == multiset(s) && |r| == |s|
  {
    if s == [] then [] else
      assert s == [s[0]] + s[1..];
      Insert(s[0], Ordered(s[1..]))
  }

  lemma {:induction false} AscendingPairs(s: seq<real>, i: nat, j: nat)
    requires Ascending(s) && i <= j < |s|
    ensures s[i] <= s[j]
    decreases |s|
  {
    if i < j {
      if i == 0 {
        AscendingPairs(s[1..], 0, j - 1);
      } else {
        AscendingPairs(s[1..], i - 1, j - 1);
      }
    }
  }

  function Portion(size: real, quantile: real): real
  {
    quantile * size
  }

  function Rank(n: nat, quantile: real): int
  {
    Ceil(Portion(n as real, quantile))
  }

  /** The value of a rank counted from 1; ranks below 1 count as 1. */
  function AtRank(values: seq<real>, rank: int): Option<real>
  {
    var index := if rank - 1 > 0 then rank - 1 else 0;
    if index < |values| then Some(Ordered(values)[index]) else None
  }

  /** The percentile, or None where indexing the ordered values fails. */
  function Percentile(values: seq<real>, quantile: real): Option<real>
  {
    if values == [] then Some(0.0) else AtRank(values, Rank(|values|, quantile))
  }

  function AtMost(s: seq<real>, v: real): nat
  {
    if s == [] then 0 else (if s[0] <= v then 1 else 0) + AtMost(s[1..], v)
  }

  function Below(s: seq<real>, v: real): nat
  {
    if s == [] then 0 else (if s[0] < v then 1 else 0) + Below(s[1..], v)
  }

  // ---- Counting does not see the order ----

  lemma {:induction false} CountsSplit(a: seq<real>, b: seq<real>, v: real)
    ensures AtMost(a + b, v) == AtMost(a, v) + AtMost(b, v)
    ensures Below(a + b, v) == Below(a, v) + Below(b, v)
    decreases |a|
  {
    if a == [] {
      assert a + b == b;
    } else {
      assert (a + b)[1..] == a[1..] + b;
      CountsSplit(a[1..], b, v);
    }
  }

  lemma RemoveOne(a: seq<real>, b: seq<real>, k: nat)
    requires a != [] && k < |b| && b[k] == a[0] && multiset(a) == multiset(b)
    ensures multiset(a[1..]) == multiset(b[..k] + b[k + 1..])
  {
    assert a == [a[0]] + a[1..] && b == b[..k] + [b[k]] + b[k + 1..];
    assert multiset(a) == multiset{a[0]} + multiset(a[1..]);
    assert multiset(b) == multiset(b[..k]) + multiset{b[k]} + multiset(b[k + 1..]);
    assert multiset(a[1..]) == multiset(a) - multiset{a[0]};
  }

  lemma {:induction false} CountsIgnoreOrder(a: seq<real>, b: seq<real>, v: real)
    requires multiset(a) == multiset(b)
    ensures AtMost(a, v) == AtMost(b, v) && Below(a, v) == Below(b, v)
    decreases |a|
  {
    if a == [] {
      assert |multiset(b)| == 0;
    } else {
      assert a[0] in multiset(a);
      var k :| 0 <= k < |b| && b[k] == a[0];
      assert a == [a[0]] + a[1..];
      assert b == b[..k] + ([b[k]] + b[k + 1..]);
      RemoveOne(a, b, k);
      CountsIgnoreOrder(a[1..], b[..k] + b[k + 1..], v);
      CountsSplit(b[..k], b[k + 1..], v);
      CountsSplit(b[..k], [b[k]] + b[k + 1..], v);
      assert ([b[k]] + b[k + 1..])[1..] == b[k + 1..];
    }
  }

  lemma {:induction false} AllAtMost(s: seq<real>, v: real)
    requires forall i :: 0 <= i < |s| ==> s[i] <= v
    ensures AtMost(s, v) == |s|
  {
    if s != [] {
      AllAtMost(s[1..], v);
    }
  }

  lemma {:induction false} NoneBelow(s: seq<real>, v: real)
    requires forall i :: 0 <= i < |s| ==> v <= s[i]
    ensures Below(s, v) == 0
  {
    if s != [] {
      NoneBelow(s[1..], v);
    }
  }

  lemma {:induction false} BelowBounded(s: seq<real>, v: real)
    ensures Below(s, v) <= |s|
  {
    if s != [] {
      BelowBounded(s[1..], v);
    }
  }

  lemma RankInAscending(s: seq<real>, k: nat)
    requires Ascending(s) && k < |s|
    ensures AtMost(s, s[k]) >= k + 1 && Below(s, s[k]) <= k
  {
    var v := s[k];
    assert s == s[..k + 1] + s[k + 1..] && s == s[..k] + s[k..];
    CountsSplit(s[..k + 1], s[k + 1..], v);
    CountsSplit(s[..k], s[k..], v);
    forall i | 0 <= i <= k ensures s[i] <= v {
      AscendingPairs(s, i, k);
    }
    forall i | k <= i < |s| ensures v <= s[i] {
      AscendingPairs(s, k, i);
    }
    AllAtMost(s[..k + 1], v);
    NoneBelow(s[k..], v);
    BelowBounded(s[..k], v);
  }

  // ---- What the percentile is ----

  /** `v` has the given rank: at least `rank` values are at most `v`, and fewer than `rank` are below it. */
  predicate HasRank(values: seq<real>, v: real, rank: int)
  {
    v in values && AtMost(values, v) >= rank && Below(values, v) < rank
  }

  lemma {:induction false} BelowCoversAtMost(s: seq<real>, v: real, w: real)
    requires v < w
    ensures AtMost(s, v) <= Below(s, w)
  {
    if s != [] {
      BelowCoversAtMost(s[1..], v, w);
    }
  }

  /** Higher ranks belong to values that are no smaller; so a rank belongs to one value only. */
  lemma RankMonotone(values: seq<real>, v: real, w: real, rank: int, rank': int)
    requires HasRank(values, v, rank) && HasRank(values, w, rank') && rank <= rank'
    ensures v <= w
  {
    if w < v {
      BelowCoversAtMost(values, w, v);
    }
  }

  lemma RankInRange(n: nat, quantile: real)
    requires n > 0
    ensures quantile > 0.0 <==> Rank(n, quantile) >= 1
    ensures quantile <= 1.0 <==> Rank(n, quantile) <= n
  {
    PortionInRange(n as real, quantile);
    CeilInRange(Portion(n as real, quantile), Rank(n, quantile), n);
  }

  lemma CeilInRange(x: real, c: int, n: nat)
    requires c as real >= x > (c - 1) as real
    ensures x > 0.0 <==> c >= 1
    ensures x <= n as real <==> c <= n
  {
    if c >= 1 {
      assert (c - 1) as real >= 0.0;
    } else {
      assert c as real <= 0.0;
    }
    if c <= n {
      assert c as real <= n as real;
    } else {
      assert (c - 1) as real >= n as real;
    }
  }

  lemma PortionInRange(size: real, quantile: real)
    requires size > 0.0
    ensures quantile > 0.0 <==> Portion(size, quantile) > 0.0
    ensures quantile <= 1.0 <==> Portion(size, quantile) <= size
  {
    Scale(quantile, size);
    Scale(quantile - 1.0, size);
    Distribute(quantile, size);
  }

  lemma Distribute(q: real, n: real)
    ensures (q - 1.0) * n == q * n - n
  {
  }

  lemma Scale(q: real, n: real)
    requires n > 0.0
    ensures q > 0.0 <==> q * n > 0.0
    ensures q < 0.0 <==> q * n < 0.0
  {
    if q > 0.0 {
      assert q * n > 0.0;
    } else if q < 0.0 {
      assert (-q) * n > 0.0;
    }
  }

  /** Indexing fails exactly if there are values and the quantile exceeds 1. */
  lemma FailsIff(values: seq<real>, quantile: real)
    ensures Percentile(values, quantile).None? <==> values != [] && quantile > 1.0
  {
    if values != [] {
      RankInRange(|values|, quantile);
    }
  }

  lemma AtRankHasRank(values: seq<real>, rank: int, v: real)
    requires 1 <= rank <= |values|
    ensures AtRank(values, rank) == Some(v) <==> HasRank(values, v, rank)
  {
    var ordered := Ordered(values);
    var p := ordered[rank - 1];
    RankInAscending(ordered, rank - 1);
    CountsIgnoreOrder(ordered, values, p);
    assert p in multiset(ordered);
    assert HasRank(values, p, rank);
    if HasRank(values, v, rank) {
      RankMonotone(values, v, p, rank, rank);
      RankMonotone(values, p, v, rank, rank);
    }
  }

  /**
    For a quantile in (0, 1] the percentile is the one value of the nearest rank: at least
    ceil(quantile * n) values are at most it, and fewer are below it.
   */
  lemma NearestRank(values: seq<real>, quantile: real, v: real)
    requires values != [] && 0.0 < quantile <= 1.0
    ensures Percentile(values, quantile) == Some(v) <==> HasRank(values, v, Rank(|values|, quantile))
  {
    RankInRange(|values|, quantile);
    AtRankHasRank(values, Rank(|values|, quantile), v);
  }

  lemma RankCovers(n: nat, quantile: real, count: nat)
    ensures count >= Rank(n, quantile) <==> count as real >= quantile * n as real
  {
    CeilCovers(Portion(n as real, quantile), Rank(n, quantile), count);
  }

  lemma CeilCovers(x: real, c: int, count: nat)
    requires c as real >= x > (c - 1) as real
    ensures count >= c <==> count as real >= x
  {
    if count >= c {
      assert count as real >= c as real;
    } else {
      assert count as real <= (c - 1) as real;
    }
  }

  /**
    In other words it is the one value that at least the given share of the values are at most, while less than
    that share are below it.
   */
  lemma ShareAtMost(values: seq<real>, quantile: real, v: real)
    requires values != [] && 0.0 < quantile <= 1.0
    ensures Percentile(values, quantile) == Some(v) <==>
            && v in values
            && AtMost(values, v) as real >= quantile * |values| as real
            && (Below(values, v) as real) < quantile * |values| as real
  {
    NearestRank(values, quantile, v);
    RankCovers(|values|, quantile, AtMost(values, v));
    RankCovers(|values|, quantile, Below(values, v));
  }

  /** Of no values it is zero, whatever the quantile. */
  lemma NoValuesIsZero(quantile: real)
    ensures Percentile([], quantile) == Some(0.0)
  {
  }

  /** At a quantile of 0 or less the percentile is the value of rank 1, the least. */
  lemma LowestAtZero(values: seq<real>, quantile: real, v: real)
    requires values != [] && quantile <= 0.0
    ensures Percentile(values, quantile) == Some(v) <==> HasRank(values, v, 1)
  {
    RankInRange(|values|, quantile);
    AtRankHasRank(values, 1, v);
  }

  lemma SameRank(a: seq<real>, b: seq<real>, v: real, rank: int)
    requires multiset(a) == multiset(b)
    ensures HasRank(a, v, rank) <==> HasRank(b, v, rank)
  {
    CountsIgnoreOrder(a, b, v);
    assert v in multiset(a) <==> v in multiset(b);
  }

  lemma AtRankIgnoresOrder(a: seq<real>, b: seq<real>, rank: int)
    requires multiset(a) == multiset(b)
    ensures AtRank(a, rank) == AtRank(b, rank)
  {
    assert |a| == |multiset(a)| == |multiset(b)| == |b|;
    var r := if rank < 1 then 1 else rank;
    if r <= |a| {
      var v := AtRank(a, r).value;
      AtRankHasRank(a, r, v);
      SameRank(a, b, v, r);
      AtRankHasRank(b, r, v);
    }
  }

  /** The order of the values does not matter, whatever the quantile. */
  lemma OrderIrrelevant(a: seq<real>, b: seq<real>, quantile: real)
    requires multiset(a) == multiset(b)
    ensures Percentile(a, quantile) == Percentile(b, quantile)
  {
    assert |a| == |multiset(a)| == |multiset(b)| == |b|;
    AtRankIgnoresOrder(a, b, Rank(|a|, quantile));
  }

  lemma RankGrows(n: nat, q: real, q': real)
    requires q <= q'
    ensures Rank(n, q) <= Rank(n, q')
  {
    var size := n as real;
    if n == 0 {
      assert q * size == 0.0 && q' * size == 0.0;
    } else {
      Scale(q' - q, size);
      assert (q' - q) * size == q' * size - q * size;
    }
  }

  lemma AtRankGrows(values: seq<real>, rank: int, rank': int)
    requires rank <= rank' && AtRank(values, rank').Some?
    ensures AtRank(values, rank).Some? && AtRank(values, rank).value <= AtRank(values, rank').value
  {
    AscendingPairs(Ordered(values), if rank < 1 then 0 else rank - 1, if rank' < 1 then 0 else rank' - 1);
  }

  /** Higher quantiles give higher percentiles. */
  lemma MonotoneInQuantile(values: seq<real>, q: real, q': real)
    requires q <= q' && Percentile(values, q').Some?
    ensures Percentile(values, q).Some? && Percentile(values, q).value <= Percentile(values, q').value
  {
    if values != [] {
      RankGrows(|values|, q, q');
      AtRankGrows(values, Rank(|values|, q), Rank(|values|, q'));
    }
  }

  /** The three latencies of the summary are in order, and are latencies that were measured. */
  lemma SummaryInOrder(latencies: seq<real>)
    requires latencies != []
    ensures var p50, p95, p99 := Percentile(latencies, 0.50), Percentile(latencies, 0.95), Percentile(latencies, 0.99);
            && p50.Some? && p95.Some? && p99.Some?
            && p50.value <= p95.value <= p99.value
            && p50.value in latencies && p95.value in latencies && p99.value in latencies
  {
    FailsIff(latencies, 0.99);
    MonotoneInQuantile(latencies, 0.50, 0.95);
    MonotoneInQuantile(latencies, 0.95, 0.99);
    NearestRank(latencies, 0.50, Percentile(latencies, 0.50).value);
    NearestRank(latencies, 0.95, Percentile(latencies, 0.95).value);
    NearestRank(latencies, 0.99, Percentile(latencies, 0.99).value);
  }
}
