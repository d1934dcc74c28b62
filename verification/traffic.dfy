/**
  Which request the traffic generator sends to which base URL: the mix by index, and how it spreads
  over the URLs.
 */
module Traffic {

  datatype Category = CachedLookup | Root | Health | Expected4xx

  datatype Request = Request(path: string, post: bool, category: Category, expected: set<int>)

  function RequestFor(index: nat): Request
  {
    var bucket := index % 100;
    if bucket < 85 then Request("/api/v1/lookups", true, CachedLookup, {200})
    else if bucket < 95 then Request("/", false, Root, {200})
    else if bucket < 98 then Request(if index % 2 != 0 then "/health/live" else "/health/ready", false, Health, {200})
    else Request("/api/v1/lookups", true, Expected4xx, {400, 422})
  }

  /** The base URL of a request, as a position in the list of `k` URLs. */
  function UrlFor(index: nat, k: nat): nat
    requires k > 0
  {
    index % k
  }

  /** The requests go to the URLs in turn, beginning with the first. */
  lemma UrlsInTurn(index: nat, k: nat)
    requires k > 0
    ensures UrlFor(0, k) == 0
    ensures UrlFor(index + 1, k) == if UrlFor(index, k) + 1 < k then UrlFor(index, k) + 1 else 0
  {
    var q, r := index / k, index % k;
    if r + 1 < k {
      QuotientIs(index + 1, k, q, r + 1);
    } else {
      assert k * (q + 1) == k * q + k;
      QuotientIs(index + 1, k, q + 1, 0);
    }
    QuotientIs(0, k, 0, 0);
  }

  lemma QuotientIs(n: nat, k: nat, q: nat, r: nat)
    requires k > 0 && r < k && n == k * q + r
    ensures n % k == r
  {
    var d := q - n / k;
    assert k * d == n % k - r;
    MultiplesApart(k, d);
  }

  lemma MultiplesApart(k: int, d: int)
    requires k > 0
    ensures d >= 1 ==> k * d >= k
    ensures d <= -1 ==> k * d <= -k
  {
    if d >= 1 {
      assert k * (d - 1) >= 0;
    } else if d <= -1 {
      assert k * (-d - 1) >= 0;
    }
  }

  predicate Hit(i: nat, k: nat, url: nat, bucket: nat)
    requires k > 0
  {
    UrlFor(i, k) == url && i % 100 == bucket
  }

  /** How many of the requests lo..hi go to this URL and fall in this bucket. */
  function Hits(lo: nat, hi: nat, k: nat, url: nat, bucket: nat): nat
    requires k > 0 && lo <= hi
    decreases hi - lo
  {
    if lo == hi then 0 else Hits(lo, hi - 1, k, url, bucket) + if Hit(hi - 1, k, url, bucket) then 1 else 0
  }

  // ---- Number theory ----

  predicate Divides(d: nat, n: nat)
    requires d > 0
  {
    n % d == 0
  }

  ghost predicate Coprime(a: nat, b: nat)
  {
    forall d: nat :: d > 1 ==> !(Divides(d, a) && Divides(d, b))
  }

  lemma DividesMultiple(d: nat, n: int) returns (t: int)
    requires d > 0 && n % d == 0
    ensures n == d * t
  {
    t := n / d;
  }

  lemma MultipleDivides(d: nat, t: int)
    requires d > 0
    ensures (d * t) % d == 0
  {
    var n := d * t;
    assert n == d * (n / d) + n % d;
    var r := n % d;
    assert d * (t - n / d) == r;
    if t - n / d >= 1 {
      assert d * (t - n / d) >= d by { Grow(d, t - n / d); }
    } else if t - n / d <= -1 {
      assert d * (n / d - t) >= d by { Grow(d, n / d - t); }
    }
  }

  lemma Grow(d: nat, m: int)
    requires m >= 1
    ensures d * m >= d
  {
    assert d * (m - 1) >= 0;
  }

  /** A common divisor of two numbers that is a combination of both. */
  lemma Bezout(a: nat, b: nat) returns (g: nat, x: int, y: int)
    requires a > 0
    ensures g > 0 && Divides(g, a) && Divides(g, b) && a * x + b * y == g
    decreases b
  {
    if b == 0 {
      g, x, y := a, 1, 0;
      assert a % a == 0 by { MultipleDivides(a, 1); }
    } else {
      var x', y';
      g, x', y' := Bezout(b, a % b);
      // b * x' + (a % b) * y' == g, where a % b == a - b * (a / b)
      x, y := y', x' - (a / b) * y';
      var q, r := a / b, a % b;
      assert a == b * q + r;
      Combine(a, b, q, r, x', y');
      var s := DividesMultiple(g, b);
      var t := DividesMultiple(g, r);
      assert a == g * (s * q + t) by { Collect(g, s, q, t); }
      MultipleDivides(g, s * q + t);
    }
  }

  lemma Combine(a: int, b: int, q: int, r: int, x: int, y: int)
    requires a == b * q + r
    ensures a * y + b * (x - q * y) == b * x + r * y
  {
    calc {
      a * y + b * (x - q * y);
      (b * q + r) * y + b * x - b * (q * y);
      { assert (b * q) * y == b * (q * y); }
      b * x + r * y;
    }
  }

  lemma Collect(g: int, s: int, q: int, t: int)
    ensures (g * s) * q + g * t == g * (s * q + t)
  {
    assert (g * s) * q == g * (s * q);
  }

  lemma InverseExists(k: nat) returns (x: int, z: int)
    requires k > 0 && Coprime(k, 100)
    ensures k * x == 1 + 100 * z
  {
    var g, y;
    g, x, y := Bezout(k, 100);
    assert g == 1;
    z := -y;
  }

  lemma RemainderOf(n: int, k: nat, r: nat, t: int)
    requires r < k && n == r + k * t
    ensures n % k == r
  {
    MultipleDivides(k, t - n / k);
    var q := n / k;
    assert n == k * q + n % k;
    assert k * (t - q) == n % k - r;
    assert k * (q - t) == -(k * (t - q));
    if t - q >= 1 {
      Grow(k, t - q);
    } else if t - q <= -1 {
      Grow(k, q - t);
    }
  }

  lemma QuotientOf(n: int, k: nat) returns (t: int)
    requires k > 0
    ensures n == n % k + k * t
  {
    t := n / k;
  }

  /** The Chinese remainder theorem, existence: some request among the first 100 * k is the pair. */
  lemma PairOccurs(k: nat, url: nat, bucket: nat) returns (i: nat)
    requires url < k && bucket < 100 && Coprime(k, 100)
    ensures i < 100 * k && Hit(i, k, url, bucket)
  {
    var x, z := InverseExists(k);
    var c := bucket - url;
    var t := (x * c) % 100;
    var w := QuotientOf(x * c, 100);
    assert k * t == c + 100 * (z * c - k * w) by { Shifted(k, x, z, c, t, w); }
    assert 0 <= k * t <= k * 99 by { Bounded(k, t); }
    i := url + k * t;
    RemainderOf(i, k, url, t);
    RemainderOf(i, 100, bucket, z * c - k * w);
  }

  lemma Bounded(k: nat, t: nat)
    requires t <= 99
    ensures 0 <= k * t <= k * 99
  {
    assert k * (99 - t) >= 0;
  }

  lemma Shifted(k: int, x: int, z: int, c: int, t: int, w: int)
    requires k * x == 1 + 100 * z && x * c == t + 100 * w
    ensures k * t == c + 100 * (z * c - k * w)
  {
    calc {
      k * t;
      k * (x * c - 100 * w);
      k * (x * c) - 100 * (k * w);
      { assert k * (x * c) == (k * x) * c; }
      (1 + 100 * z) * c - 100 * (k * w);
      { assert (1 + 100 * z) * c == c + 100 * (z * c); }
      c + 100 * (z * c - k * w);
    }
  }

  /** Uniqueness: two requests of one pair are at least 100 * k apart. */
  lemma PairsApart(k: nat, url: nat, bucket: nat, i: nat, j: nat)
    requires k > 0 && Coprime(k, 100) && i < j && Hit(i, k, url, bucket) && Hit(j, k, url, bucket)
    ensures j - i >= 100 * k
  {
    var x, z := InverseExists(k);
    var a := QuotientOf(i, k);
    var b := QuotientOf(j, k);
    var r := j / 100 - i / 100;
    assert j - i == k * (b - a) by { Subtract(k, a, b); }
    assert j - i == 100 * r;
    LeastMultiple(k, x, z, b - a, r);
  }

  lemma Subtract(k: int, a: int, b: int)
    ensures k * b - k * a == k * (b - a)
  {
  }

  lemma LeastMultiple(k: nat, x: int, z: int, s: int, r: int)
    requires k * x == 1 + 100 * z && k * s == 100 * r && k * s > 0
    ensures k * s >= 100 * k
  {
    Multiple(k, x, z, s, r);
    var m := x * r - z * s;
    Positive(k, s);
    assert s >= 100;
    AtLeastHundredfold(k, s);
  }

  lemma NoGreater(k: nat, s: int)
    requires s <= 0
    ensures k * s <= 0
  {
  }

  lemma Positive(k: nat, s: int)
    requires k * s > 0
    ensures s > 0
  {
    if s <= 0 {
      NoGreater(k, s);
    }
  }

  lemma AtLeastHundredfold(k: nat, s: int)
    requires s >= 100
    ensures k * s >= 100 * k
  {
    assert k * (s - 100) >= 0;
  }

  lemma Multiple(k: int, x: int, z: int, s: int, r: int)
    requires k * x == 1 + 100 * z && k * s == 100 * r
    ensures s == 100 * (x * r - z * s)
  {
    calc {
      100 * (x * r);
      x * (100 * r);
      x * (k * s);
      { assert x * (k * s) == (k * x) * s; }
      (1 + 100 * z) * s;
      s + 100 * (z * s);
    }
  }

  // ---- Counting ----

  lemma {:induction false} HitsSplit(lo: nat, mid: nat, hi: nat, k: nat, url: nat, bucket: nat)
    requires k > 0 && lo <= mid <= hi
    ensures Hits(lo, hi, k, url, bucket) == Hits(lo, mid, k, url, bucket) + Hits(mid, hi, k, url, bucket)
    decreases hi - mid
  {
    if mid < hi {
      HitsSplit(lo, mid, hi - 1, k, url, bucket);
    }
  }

  lemma {:induction false} NoHits(lo: nat, hi: nat, k: nat, url: nat, bucket: nat)
    requires k > 0 && lo <= hi
    requires forall i: nat :: lo <= i < hi ==> !Hit(i, k, url, bucket)
    ensures Hits(lo, hi, k, url, bucket) == 0
    decreases hi - lo
  {
    if lo < hi {
      assert !Hit(hi - 1, k, url, bucket);
      NoHits(lo, hi - 1, k, url, bucket);
    }
  }

  lemma OneHit(lo: nat, i: nat, hi: nat, k: nat, url: nat, bucket: nat)
    requires k > 0 && Coprime(k, 100) && lo <= i < hi <= lo + 100 * k && Hit(i, k, url, bucket)
    ensures Hits(lo, hi, k, url, bucket) == 1
  {
    forall j: nat | lo <= j < hi && j != i ensures !Hit(j, k, url, bucket) {
      if Hit(j, k, url, bucket) {
        if i < j {
          PairsApart(k, url, bucket, i, j);
        } else {
          PairsApart(k, url, bucket, j, i);
        }
      }
    }
    NoHits(lo, i, k, url, bucket);
    NoHits(i + 1, hi, k, url, bucket);
    HitsSplit(lo, i, hi, k, url, bucket);
    HitsSplit(i, i + 1, hi, k, url, bucket);
    assert Hits(i, i + 1, k, url, bucket) == 1;
  }

  lemma HitRepeats(i: nat, k: nat, url: nat, bucket: nat, n: nat)
    requires k > 0 && Hit(i, k, url, bucket)
    ensures Hit(i + n * (100 * k), k, url, bucket)
  {
    var t := QuotientOf(i, k);
    Regroup(n, k);
    assert k * (t + 100 * n) == k * t + k * (100 * n);
    RemainderOf(i + n * (100 * k), k, url, t + 100 * n);
    RemainderOf(i + n * (100 * k), 100, bucket, i / 100 + n * k);
  }

  lemma Regroup(n: int, k: int)
    ensures n * (100 * k) == k * (100 * n) == 100 * (n * k)
  {
  }

  /** With coprime URLs every (URL, bucket) pair occurs exactly n times among the first n * 100 * k requests. */
  lemma {:induction false} PairsSpreadEvenly(k: nat, n: nat, url: nat, bucket: nat)
    requires url < k && bucket < 100 && Coprime(k, 100)
    ensures n * (100 * k) >= 0 && Hits(0, n * (100 * k), k, url, bucket) == n
    decreases n
  {
    if n == 0 {
      assert 0 * (100 * k) == 0;
    } else {
      PairsSpreadEvenly(k, n - 1, url, bucket);
      var lo, hi := (n - 1) * (100 * k), n * (100 * k);
      assert hi == lo + 100 * k;
      var i := PairOccurs(k, url, bucket);
      HitRepeats(i, k, url, bucket, n - 1);
      OneHit(lo, i + lo, hi, k, url, bucket);
      HitsSplit(0, lo, hi, k, url, bucket);
    }
  }

  /** Otherwise the first URL never gets a request of bucket 1. */
  lemma PairMissing(k: nat, n: nat)
    requires k > 0 && !Coprime(k, 100)
    ensures Hits(0, n, k, 0, 1) == 0
  {
    var d: nat :| d > 1 && Divides(d, k) && Divides(d, 100);
    forall i: nat | 0 <= i < n ensures !Hit(i, k, 0, 1) {
      if Hit(i, k, 0, 1) {
        var a := DividesMultiple(k, i);
        var b := DividesMultiple(d, k);
        var c := DividesMultiple(d, 100);
        var q := i / 100;
        assert i == 1 + 100 * q;
        assert 1 == d * (b * a - c * q) by {
          assert (d * b) * a == d * (b * a);
          assert (d * c) * q == d * (c * q);
          assert d * (b * a - c * q) == d * (b * a) - d * (c * q);
        }
        MultipleDivides(d, b * a - c * q);
      }
    }
    NoHits(0, n, k, 0, 1);
  }

  /** Every pair occurs equally often exactly if the number of URLs is coprime to 100. */
  lemma EvenIffCoprime(k: nat, n: nat)
    requires k > 0 && n > 0
    ensures n * (100 * k) >= 0
    ensures Coprime(k, 100) <==>
            forall url: nat, bucket: nat :: url < k && bucket < 100 ==> Hits(0, n * (100 * k), k, url, bucket) == n
  {
    if Coprime(k, 100) {
      forall url: nat, bucket: nat | url < k && bucket < 100 ensures Hits(0, n * (100 * k), k, url, bucket) == n {
        PairsSpreadEvenly(k, n, url, bucket);
      }
    } else {
      PairMissing(k, n * (100 * k));
      assert Hits(0, n * (100 * k), k, 0, 1) != n;
    }
  }

  // ---- The mix ----

  /** The buckets of a category: from the first up to, and not including, the second. */
  function Buckets(c: Category): (nat, nat)
  {
    match c
    case CachedLookup => (0, 85)
    case Root => (85, 95)
    case Health => (95, 98)
    case Expected4xx => (98, 100)
  }

  /** How many of the first `n` requests go to this URL in this category. */
  function Mix(n: nat, k: nat, url: nat, c: Category): nat
    requires k > 0
  {
    if n == 0 then 0
    else Mix(n - 1, k, url, c) + if Sends(n - 1, k, url, c) then 1 else 0
  }

  /** Request `i` goes to this URL in this category. */
  predicate Sends(i: nat, k: nat, url: nat, c: Category)
    requires k > 0
  {
    UrlFor(i, k) == url && RequestFor(i).category == c
  }

  function SumHits(n: nat, k: nat, url: nat, lo: nat, hi: nat): nat
    requires k > 0 && lo <= hi
    decreases hi - lo
  {
    if lo == hi then 0 else SumHits(n, k, url, lo, hi - 1) + Hits(0, n, k, url, hi - 1)
  }

  lemma {:induction false} SumHitsStep(n: nat, k: nat, url: nat, lo: nat, hi: nat)
    requires k > 0 && lo <= hi
    ensures SumHits(n + 1, k, url, lo, hi)
            == SumHits(n, k, url, lo, hi) + if UrlFor(n, k) == url && lo <= n % 100 < hi then 1 else 0
    decreases hi - lo
  {
    if lo < hi {
      SumHitsStep(n, k, url, lo, hi - 1);
      assert Hits(0, n + 1, k, url, hi - 1) == Hits(0, n, k, url, hi - 1) + if Hit(n, k, url, hi - 1) then 1 else 0;
    }
  }

  lemma {:induction false} SumHitsOfNone(k: nat, url: nat, lo: nat, hi: nat)
    requires k > 0 && lo <= hi
    ensures SumHits(0, k, url, lo, hi) == 0
    decreases hi - lo
  {
    if lo < hi {
      SumHitsOfNone(k, url, lo, hi - 1);
    }
  }

  lemma SendsByBucket(i: nat, k: nat, url: nat, c: Category)
    requires k > 0
    ensures Sends(i, k, url, c) <==> UrlFor(i, k) == url && Buckets(c).0 <= i % 100 < Buckets(c).1
  {
  }

  lemma MixStep(n: nat, k: nat, url: nat, c: Category, lo: nat, hi: nat)
    requires k > 0 && (lo, hi) == Buckets(c)
    requires Mix(n, k, url, c) == SumHits(n, k, url, lo, hi)
    ensures Mix(n + 1, k, url, c) == SumHits(n + 1, k, url, lo, hi)
  {
    SendsByBucket(n, k, url, c);
    SumHitsStep(n, k, url, lo, hi);
  }

  lemma MixIsSum(n: nat, k: nat, url: nat, c: Category, lo: nat, hi: nat)
    requires k > 0 && (lo, hi) == Buckets(c)
    ensures Mix(n, k, url, c) == SumHits(n, k, url, lo, hi)
  {
    SumHitsOfNone(k, url, lo, hi);
    var m := 0;
    while m < n
      invariant m <= n && Mix(m, k, url, c) == SumHits(m, k, url, lo, hi)
    {
      MixStep(m, k, url, c, lo, hi);
      m := m + 1;
    }
  }

  lemma NextMultiple(m: nat, n: nat)
    ensures (m + 1) * n == m * n + n
  {
  }

  lemma {:induction false} EvenSum(k: nat, n: nat, url: nat, lo: nat, hi: nat)
    requires url < k && Coprime(k, 100) && lo <= hi <= 100
    ensures n * (100 * k) >= 0 && SumHits(n * (100 * k), k, url, lo, hi) == (hi - lo) * n
    decreases hi - lo
  {
    if lo < hi {
      EvenSum(k, n, url, lo, hi - 1);
      PairsSpreadEvenly(k, n, url, hi - 1);
      NextMultiple(hi - 1 - lo, n);
    }
  }

  /** With coprime URLs every URL gets the exact mix: 85, 10, 3 and 2 of every 100 of its requests. */
  lemma ExactMix(k: nat, n: nat, url: nat)
    requires url < k && Coprime(k, 100)
    ensures var total := n * (100 * k);
            && total >= 0
            && Mix(total, k, url, CachedLookup) == 85 * n
            && Mix(total, k, url, Root) == 10 * n
            && Mix(total, k, url, Health) == 3 * n
            && Mix(total, k, url, Expected4xx) == 2 * n
  {
    EvenMix(k, n, url, CachedLookup);
    EvenMix(k, n, url, Root);
    EvenMix(k, n, url, Health);
    EvenMix(k, n, url, Expected4xx);
  }

  lemma EvenMix(k: nat, n: nat, url: nat, c: Category)
    requires url < k && Coprime(k, 100)
    ensures n * (100 * k) >= 0 && Mix(n * (100 * k), k, url, c) == (Buckets(c).1 - Buckets(c).0) * n
  {
    EvenSum(k, n, url, Buckets(c).0, Buckets(c).1);
    MixIsSum(n * (100 * k), k, url, c, Buckets(c).0, Buckets(c).1);
  }

  /** Whatever the URLs, each hundred requests together have the exact mix. */
  lemma ExactMixOverall(n: nat)
    ensures Mix(100 * n, 1, 0, CachedLookup) == 85 * n
    ensures Mix(100 * n, 1, 0, Root) == 10 * n
    ensures Mix(100 * n, 1, 0, Health) == 3 * n
    ensures Mix(100 * n, 1, 0, Expected4xx) == 2 * n
  {
    assert Coprime(1, 100);
    assert n * (100 * 1) == 100 * n;
    ExactMix(1, n, 0);
  }

  /** The bucket alone decides the whole request, also which health path it takes. */
  lemma BucketDecides(i: nat, j: nat)
    requires i % 100 == j % 100
    ensures RequestFor(i) == RequestFor(j)
    ensures RequestFor(i).category.Health? ==> (RequestFor(i).path == "/health/ready" <==> i % 100 == 96)
  {
    ParityByBucket(i);
    ParityByBucket(j);
  }

  lemma ParityByBucket(i: nat)
    ensures i % 2 == (i % 100) % 2
  {
    var q := i / 100;
    assert i == 2 * (50 * q) + i % 100;
  }

  // ---- The requests themselves ----

  /** How many of the requests lo..hi are these. */
  function Sent(lo: nat, hi: nat, r: Request): nat
    requires lo <= hi
    decreases hi - lo
  {
    if lo == hi then 0 else Sent(lo, hi - 1, r) + if RequestFor(hi - 1) == r then 1 else 0
  }

  lemma {:induction false} SentJoin(lo: nat, mid: nat, hi: nat, r: Request)
    requires lo <= mid <= hi
    ensures Sent(lo, hi, r) == Sent(lo, mid, r) + Sent(mid, hi, r)
    decreases hi - mid
  {
    if mid < hi {
      SentJoin(lo, mid, hi - 1, r);
    }
  }

  lemma {:induction false} SentAll(lo: nat, hi: nat, r: Request, s: Request)
    requires lo <= hi && forall i :: lo <= i < hi ==> RequestFor(i) == s
    ensures Sent(lo, hi, r) == if r == s then hi - lo else 0
    decreases hi - lo
  {
    if lo < hi {
      assert RequestFor(hi - 1) == s;
      SentAll(lo, hi - 1, r, s);
    }
  }

  const LOOKUP := Request("/api/v1/lookups", true, CachedLookup, {200})
  const ROOT := Request("/", false, Root, {200})
  const LIVE := Request("/health/live", false, Health, {200})
  const READY := Request("/health/ready", false, Health, {200})
  const INVALID := Request("/api/v1/lookups", true, Expected4xx, {400, 422})

  /** The request of a bucket. */
  function InBucket(k: nat): Request
  {
    if k < 85 then LOOKUP else if k < 95 then ROOT else if k < 98 then (if k == 96 then READY else LIVE) else INVALID
  }

  lemma BucketRequest(n: nat, k: nat)
    requires k < 100
    ensures RequestFor(100 * n + k) == InBucket(k)
  {
    assert (100 * n + k) % 100 == k;
    ParityByBucket(100 * n + k);
  }

  lemma SentSegment(n: nat, lo: nat, hi: nat, r: Request, s: Request)
    requires lo <= hi <= 100 && forall k :: lo <= k < hi ==> InBucket(k) == s
    ensures Sent(100 * n + lo, 100 * n + hi, r) == if r == s then hi - lo else 0
  {
    forall i | 100 * n + lo <= i < 100 * n + hi ensures RequestFor(i) == s {
      BucketRequest(n, i - 100 * n);
    }
    SentAll(100 * n + lo, 100 * n + hi, r, s);
  }

  lemma SentHealth(b: nat, n: nat, r: Request)
    requires b == 100 * n
    ensures Sent(b + 95, b + 98, r) == if r == LIVE then 2 else if r == READY then 1 else 0
  {
    SentSegment(n, 95, 96, r, LIVE);
    SentSegment(n, 96, 97, r, READY);
    SentSegment(n, 97, 98, r, LIVE);
    SentJoin(b + 95, b + 96, b + 98, r);
    SentJoin(b + 96, b + 97, b + 98, r);
    Different();
  }

  lemma SentInHundred(n: nat, r: Request)
    ensures Sent(100 * n, 100 * n + 100, r) ==
            (if r == LOOKUP then 85 else 0) + (if r == ROOT then 10 else 0) + (if r == LIVE then 2 else 0)
            + (if r == READY then 1 else 0) + (if r == INVALID then 2 else 0)
  {
    var b := 100 * n;
    SentSegment(n, 0, 85, r, LOOKUP);
    SentSegment(n, 85, 95, r, ROOT);
    SentHealth(b, n, r);
    SentSegment(n, 98, 100, r, INVALID);
    SentJoin(b, b + 85, b + 100, r);
    SentJoin(b + 85, b + 95, b + 100, r);
    SentJoin(b + 95, b + 98, b + 100, r);
    Different();
  }

  lemma HundredMore(m: nat, r: Request)
    ensures Sent(0, 100 * m + 100, r) == Sent(0, 100 * m, r) + Sent(100 * m, 100 * m + 100, r)
    ensures Sent(100 * m, 100 * m + 100, r) ==
            (if r == LOOKUP then 85 else 0) + (if r == ROOT then 10 else 0) + (if r == LIVE then 2 else 0)
            + (if r == READY then 1 else 0) + (if r == INVALID then 2 else 0)
  {
    SentJoin(0, 100 * m, 100 * m + 100, r);
    SentInHundred(m, r);
  }

  lemma Different()
    ensures LIVE != READY && LOOKUP != INVALID
  {
    assert LIVE.path[8] != READY.path[8];
  }

  /**
    Every hundred requests are 85 lookups and 10 visits of the root, 2 and 1 of the health pages, all to be answered
    by 200, and 2 invalid lookups, to be answered by 400 or 422; and no others.
   */
  lemma {:induction false} RequestsSent(n: nat)
    ensures Sent(0, 100 * n, Request("/api/v1/lookups", true, CachedLookup, {200})) == 85 * n
    ensures Sent(0, 100 * n, Request("/", false, Root, {200})) == 10 * n
    ensures Sent(0, 100 * n, Request("/health/live", false, Health, {200})) == 2 * n
    ensures Sent(0, 100 * n, Request("/health/ready", false, Health, {200})) == n
    ensures Sent(0, 100 * n, Request("/api/v1/lookups", true, Expected4xx, {400, 422})) == 2 * n
    decreases n
  {
    if n > 0 {
      var m := n - 1;
      RequestsSent(m);
      assert 100 * m + 100 == 100 * n;
      HundredMore(m, LOOKUP);
      HundredMore(m, ROOT);
      HundredMore(m, LIVE);
      HundredMore(m, READY);
      HundredMore(m, INVALID);
      Different();
    }
  }
}
