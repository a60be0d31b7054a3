/** The bucketed branch of `genCDF`, over exact numbers: values are counted in buckets, and the counts
    added up in the order of the buckets are the empirical distribution at each bucket's bound. */
module BucketedCdf {

  /** The least multiple of the bucket size that is not below v. */
  function UpperBound(v: real, size: real): real
    requires size > 0.0
  {
    Ceiling(v / size) as real * size
  }

  function Ceiling(x: real): (n: int)
    ensures x <= n as real < x + 1.0
  {
    -((-x).Floor)
  }

  /** A multiple of the bucket size. */
  function Multiple(k: int, size: real): real {
    k as real * size
  }

  ghost predicate IsMultiple(x: real, size: real) {
    exists k :: Multiple(k, size) == x
  }

  /** The values of the bucket with this upper bound. */
  predicate InInterval(v: real, bound: real, size: real) {
    bound - size < v <= bound
  }

  /** An upper bound is a multiple of the bucket size, and the value is less than a bucket below it. */
  lemma UpperBoundIsBucket(v: real, size: real)
    requires size > 0.0
    ensures IsMultiple(UpperBound(v, size), size) && InInterval(v, UpperBound(v, size), size)
  {
    var q, n := v / size, Ceiling(v / size);
    assert Multiple(n, size) == UpperBound(v, size);
    UpperBoundAbove(v, size);
    assert v == q * size;
    NotFarAbove(v, q, n as real, size, UpperBound(v, size));
  }

  lemma NotFarAbove(v: real, q: real, n: real, size: real, bound: real)
    requires size > 0.0 && n < q + 1.0 && v == q * size && bound == n * size
    ensures bound - size < v
  {
    var d := q + 1.0 - n;
    assert d * size > 0.0;
    assert d * size == q * size + size - n * size;
  }

  /** The smallest value has a bucket of its own. */
  function Bucket(v: real, least: real, size: real): real
    requires size > 0.0
  {
    if v == least then v else UpperBound(v, size)
  }

  lemma ScaleUp(a: real, b: real, size: real)
    requires size > 0.0 && a <= b
    ensures a * size <= b * size
  {
  }

  lemma ScaleDown(v: real, b: real, size: real)
    requires size > 0.0 && v <= b * size
    ensures v / size <= b
  {
    var q := v / size;
    assert q * size == v;
    if q > b {
      assert (q - b) * size > 0.0;
    }
  }

  lemma UpperBoundAbove(v: real, size: real)
    requires size > 0.0
    ensures v <= UpperBound(v, size)
  {
    ScaleUp(v / size, Ceiling(v / size) as real, size);
  }

  lemma CeilingLeast(x: real, k: int)
    requires x <= k as real
    ensures Ceiling(x) as real <= k as real
  {
    hide Ceiling;
    var n := Ceiling(x);
    assert (n - 1) as real < k as real;
    assert n - 1 < k;
  }

  /** A value is below an upper bound exactly when its own upper bound is. */
  lemma UpperBoundLeast(v: real, u: real, size: real)
    requires size > 0.0
    ensures v <= UpperBound(u, size) <==> UpperBound(v, size) <= UpperBound(u, size)
  {
    UpperBoundAbove(v, size);
    if v <= UpperBound(u, size) {
      NotAbove(v, Ceiling(u / size), size, UpperBound(u, size));
    }
  }

  lemma NotAbove(v: real, k: int, size: real, bound: real)
    requires size > 0.0 && bound == k as real * size && v <= bound
    ensures UpperBound(v, size) <= bound
  {
    ScaleDown(v, k as real, size);
    var q := v / size;
    assert q <= k as real;
    CeilingLeast(q, k);
    ScaleUp(Ceiling(q) as real, k as real, size);
  }

  predicate IsLeast(least: real, values: seq<real>) {
    least in values && forall j :: 0 <= j < |values| ==> least <= values[j]
  }

  /** The bound of some possible value's bucket. */
  ghost predicate IsBound(x: real, least: real, size: real)
    requires size > 0.0
  {
    exists u :: least <= u && Bucket(u, least, size) == x
  }

  /** A value is below a bound exactly when its own bucket is. */
  lemma BucketOrder(v: real, x: real, least: real, size: real)
    requires size > 0.0 && least <= v && IsBound(x, least, size)
    ensures v <= x <==> Bucket(v, least, size) <= x
    ensures least <= x
  {
    hide UpperBound;
    var u :| least <= u && Bucket(u, least, size) == x;
    UpperBoundAbove(v, size);
    UpperBoundAbove(u, size);
    UpperBoundLeast(v, u, size);
  }

  // ---------- counting ----------

  function InBucket(values: seq<real>, least: real, size: real, bound: real): nat
    requires size > 0.0
  {
    if values == [] then 0
    else
      InBucket(values[..|values| - 1], least, size, bound)
      + if Bucket(values[|values| - 1], least, size) == bound then 1 else 0
  }

  /** How many values do not exceed x. */
  function AtMost(values: seq<real>, x: real): (n: nat)
    ensures n <= |values|
  {
    if values == [] then 0
    else AtMost(values[..|values| - 1], x) + if values[|values| - 1] <= x then 1 else 0
  }

  lemma {:induction false} AtMostAll(values: seq<real>, x: real)
    requires forall j :: 0 <= j < |values| ==> values[j] <= x
    ensures AtMost(values, x) == |values|
  {
    if values != [] {
      AtMostAll(values[..|values| - 1], x);
    }
  }

  lemma {:induction false} InBucketSome(values: seq<real>, least: real, size: real, bound: real)
    requires size > 0.0
    ensures InBucket(values, least, size, bound) > 0
       <==> exists j :: 0 <= j < |values| && Bucket(values[j], least, size) == bound
  {
    hide Bucket;
    if values != [] {
      var front := values[..|values| - 1];
      InBucketSome(front, least, size, bound);
      assert forall j :: 0 <= j < |front| ==> front[j] == values[j];
    }
  }

  predicate StrictlyIncreasing(s: seq<real>) {
    forall i, j :: 0 <= i < j < |s| ==> s[i] < s[j]
  }

  /** Between one bound and the next lie exactly the values of the next bucket. */
  lemma {:induction false} NextBound(values: seq<real>, bounds: seq<real>, i: nat, least: real, size: real)
    requires size > 0.0 && StrictlyIncreasing(bounds) && i < |bounds|
    requires forall j :: 0 <= j < |values| ==> least <= values[j] && Bucket(values[j], least, size) in bounds
    requires forall j :: 0 <= j < |bounds| ==> IsBound(bounds[j], least, size)
    ensures AtMost(values, bounds[i])
         == (if i == 0 then 0 else AtMost(values, bounds[i - 1])) + InBucket(values, least, size, bounds[i])
  {
    hide Bucket, IsBound;
    if values != [] {
      var front, v := values[..|values| - 1], values[|values| - 1];
      NextBound(front, bounds, i, least, size);
      BucketOrder(v, bounds[i], least, size);
      if i > 0 {
        BucketOrder(v, bounds[i - 1], least, size);
      }
      assert Bucket(values[|values| - 1], least, size) in bounds;
    }
  }

  // ---------- the program ----------

  datatype Result<T> = Ok(value: T) | ValueError

  method Minimum(values: seq<real>) returns (r: Result<real>)
    ensures values == [] ==> r.ValueError?
    ensures values != [] ==> r.Ok? && IsLeast(r.value, values)
  {
    if values == [] {
      return ValueError;
    }
    var least, i := values[0], 1;
    while i < |values|
      invariant 1 <= i <= |values| && least in values
      invariant forall j :: 0 <= j < i ==> least <= values[j]
    {
      if values[i] < least {
        least := values[i];
      }
      i := i + 1;
    }
    return Ok(least);
  }

  predicate Distinct(s: seq<real>) {
    forall i, j :: 0 <= i < j < |s| ==> s[i] != s[j]
  }

  /** The counts in the dictionary, and its keys in the order in which they were entered. */
  datatype Buckets = Buckets(count: map<real, nat>, keys: seq<real>)

  /** The dictionary once the values seen so far are counted. */
  ghost predicate Counts(b: Buckets, seen: seq<real>, least: real, size: real)
    requires size > 0.0
  {
    && Distinct(b.keys)
    && (forall k :: k in b.count <==> k in b.keys)
    && (forall k <- b.keys :: b.count[k] == InBucket(seen, least, size, k))
    && (forall k :: k !in b.keys ==> InBucket(seen, least, size, k) == 0)
    && (forall k <- b.keys :: k == least || b.count[k] > 0)
    && least in b.keys
  }

  function CountOne(b: Buckets, bound: real): Buckets {
    if bound in b.count then b.(count := b.count[bound := b.count[bound] + 1])
    else Buckets(b.count[bound := 1], b.keys + [bound])
  }

  lemma CountOneCounts(b: Buckets, seen: seq<real>, v: real, least: real, size: real)
    requires size > 0.0 && Counts(b, seen, least, size)
    ensures Counts(CountOne(b, Bucket(v, least, size)), seen + [v], least, size)
  {
    hide Bucket;
    assert (seen + [v])[..|seen|] == seen;
    assert forall k :: InBucket(seen + [v], least, size, k)
                    == InBucket(seen, least, size, k) + (if Bucket(v, least, size) == k then 1 else 0);
  }

  /** Every bucket holds the number of values that fall into it. */
  method CountValues(values: seq<real>, least: real, size: real) returns (b: Buckets)
    requires size > 0.0 && IsLeast(least, values)
    ensures Counts(b, values, least, size)
  {
    hide Counts;
    b := Buckets(map[least := 0], [least]);
    NothingCounted(least, size);
    var i := 0;
    while i < |values|
      invariant 0 <= i <= |values| && Counts(b, values[..i], least, size)
      invariant least in b.count
    {
      var val := values[i];
      CountOneCounts(b, values[..i], val, least, size);
      if val == least {
        b := b.(count := b.count[least := b.count[least] + 1]);
      } else {
        var bound := UpperBound(val, size);
        if bound in b.count {
          b := b.(count := b.count[bound := b.count[bound] + 1]);
        } else {
          b := Buckets(b.count[bound := 1], b.keys + [bound]);
        }
      }
      assert values[..i + 1] == values[..i] + [val];
      i := i + 1;
    }
    assert values[..i] == values;
  }

  lemma NothingCounted(least: real, size: real)
    requires size > 0.0
    ensures Counts(Buckets(map[least := 0], [least]), [], least, size)
  {
  }

  predicate SameElements(a: seq<real>, b: seq<real>) {
    && (forall i :: 0 <= i < |a| ==> a[i] in b)
    && (forall i :: 0 <= i < |b| ==> b[i] in a)
  }

  /** Puts a new key in its place. */
  method Insert(sorted: seq<real>, key: real) returns (r: seq<real>)
    requires StrictlyIncreasing(sorted) && key !in sorted
    ensures StrictlyIncreasing(r) && SameElements(r, sorted + [key])
  {
    var i := |sorted|;
    while i > 0 && sorted[i - 1] > key
      invariant 0 <= i <= |sorted|
      invariant forall j :: i <= j < |sorted| ==> sorted[j] > key
    {
      i := i - 1;
    }
    r := sorted[..i] + [key] + sorted[i..];
    assert forall x <- sorted :: x in sorted[..i] || x in sorted[i..];
  }

  lemma OneMoreElement(a: seq<real>, b: seq<real>, x: real, r: seq<real>)
    requires SameElements(a, b) && SameElements(r, a + [x])
    ensures SameElements(r, b + [x])
  {
    forall i | 0 <= i < |r|
      ensures r[i] in b + [x]
    {
      assert r[i] in a + [x];
    }
    forall i | 0 <= i < |b + [x]|
      ensures (b + [x])[i] in r
    {
      if i < |b| {
        assert b[i] in a + [x];
      } else {
        assert (a + [x])[|a|] == x;
      }
    }
  }

  method Sorted(keys: seq<real>) returns (r: seq<real>)
    requires Distinct(keys)
    ensures StrictlyIncreasing(r) && SameElements(r, keys)
  {
    r := [];
    var i := 0;
    while i < |keys|
      invariant 0 <= i <= |keys|
      invariant StrictlyIncreasing(r) && SameElements(r, keys[..i])
    {
      assert keys[..i + 1] == keys[..i] + [keys[i]];
      ghost var before := r;
      r := Insert(r, keys[i]);
      OneMoreElement(before, keys[..i], keys[i], r);
      i := i + 1;
    }
    assert keys[..i] == keys;
  }

  datatype Point = Point(bound: real, fraction: real)

  /** The bounds are the minimum and multiples of the bucket size; every other value is in the bucket
      below one of them, and none of these is empty. */
  ghost predicate BoundsAreBuckets(bounds: seq<real>, values: seq<real>, size: real) {
    && bounds != [] && IsLeast(bounds[0], values)
    && (forall i :: 1 <= i < |bounds| ==> IsMultiple(bounds[i], size))
    && (forall j :: 0 <= j < |values| && values[j] != bounds[0] ==> HasBucket(values[j], bounds, size))
    && (forall i :: 1 <= i < |bounds| ==> HasValue(bounds[i], values, bounds[0], size))
  }

  ghost predicate HasBucket(v: real, bounds: seq<real>, size: real) {
    exists i :: 1 <= i < |bounds| && InInterval(v, bounds[i], size)
  }

  ghost predicate HasValue(bound: real, values: seq<real>, least: real, size: real) {
    exists j :: 0 <= j < |values| && values[j] != least && InInterval(values[j], bound, size)
  }

  /** The empirical distribution of the values at the bounds of the buckets they fall into. */
  ghost predicate IsCdf(points: seq<Point>, values: seq<real>, size: real) {
    && BoundsAreBuckets(BoundsOf(points), values, size)
    && points[|points| - 1].fraction == 1.0
    && (forall i :: 0 <= i < |points| ==>
          points[i].fraction * |values| as real == AtMost(values, points[i].bound) as real)
    && (forall i, j :: 0 <= i < j < |points| ==>
          points[i].bound < points[j].bound && points[i].fraction < points[j].fraction)
  }

  function BoundsOf(points: seq<Point>): (s: seq<real>)
    ensures |s| == |points|
  {
    seq(|points|, i requires 0 <= i < |points| => points[i].bound)
  }

  function Fraction(n: nat, of: nat): real
    requires of > 0
  {
    n as real / of as real
  }

  lemma FractionsCompare(a: nat, b: nat, of: nat)
    requires of > 0
    ensures Fraction(a, of) * of as real == a as real
    ensures a < b ==> Fraction(a, of) < Fraction(b, of)
    ensures Fraction(of, of) == 1.0
  {
  }

  /** What the sorted keys of the dictionary are. */
  ghost predicate SortedBounds(bounds: seq<real>, values: seq<real>, least: real, size: real)
    requires size > 0.0
  {
    && StrictlyIncreasing(bounds) && least in bounds && IsLeast(least, values)
    && (forall j :: 0 <= j < |values| ==> Bucket(values[j], least, size) in bounds)
    && (forall j :: 0 <= j < |bounds| ==>
          InBucket(values, least, size, bounds[j]) > 0 && IsBound(bounds[j], least, size))
  }

  lemma KeysAreBounds(b: Buckets, bounds: seq<real>, values: seq<real>, least: real, size: real)
    requires size > 0.0 && IsLeast(least, values) && Counts(b, values, least, size)
    requires StrictlyIncreasing(bounds) && SameElements(bounds, b.keys)
    ensures SortedBounds(bounds, values, least, size)
    ensures forall j :: 0 <= j < |bounds| ==>
      bounds[j] in b.count && b.count[bounds[j]] == InBucket(values, least, size, bounds[j])
  {
    var i :| 0 <= i < |values| && values[i] == least;
    assert Bucket(values[i], least, size) == least;
    InBucketSome(values, least, size, least);
    forall j | 0 <= j < |bounds|
      ensures InBucket(values, least, size, bounds[j]) > 0 && IsBound(bounds[j], least, size)
    {
      assert bounds[j] in b.keys;
      InBucketSome(values, least, size, bounds[j]);
    }
    forall j | 0 <= j < |values|
      ensures Bucket(values[j], least, size) in bounds
    {
      InBucketSome(values, least, size, Bucket(values[j], least, size));
    }
  }

  /** The counts grow from bound to bound. */
  lemma {:induction false} CountsGrow(bounds: seq<real>, values: seq<real>, least: real, size: real, i: nat, j: nat)
    requires size > 0.0 && SortedBounds(bounds, values, least, size) && i < j < |bounds|
    ensures AtMost(values, bounds[i]) < AtMost(values, bounds[j])
    decreases j
  {
    NextBound(values, bounds, j, least, size);
    if i < j - 1 {
      CountsGrow(bounds, values, least, size, i, j - 1);
    }
  }

  lemma Ends(bounds: seq<real>, values: seq<real>, least: real, size: real)
    requires size > 0.0 && SortedBounds(bounds, values, least, size)
    ensures bounds != [] && bounds[0] == least && AtMost(values, bounds[|bounds| - 1]) == |values|
  {
    hide Bucket, IsBound;
    BucketOrder(least, bounds[0], least, size);
    var last := bounds[|bounds| - 1];
    forall j | 0 <= j < |values|
      ensures values[j] <= last
    {
      assert Bucket(values[j], least, size) in bounds;
      BucketOrder(values[j], last, least, size);
    }
    AtMostAll(values, last);
  }

  /** What the program has for every bound. */
  predicate PointsOf(points: seq<Point>, bounds: seq<real>, values: seq<real>)
    requires values != []
  {
    && |points| <= |bounds|
    && forall i :: 0 <= i < |points| ==> points[i] == Point(bounds[i], Fraction(AtMost(values, bounds[i]), |values|))
  }

  lemma FractionsGrow(points: seq<Point>, bounds: seq<real>, values: seq<real>, least: real, size: real, i: nat, j: nat)
    requires size > 0.0 && SortedBounds(bounds, values, least, size)
    requires PointsOf(points, bounds, values) && i < j < |points|
    ensures points[i].bound < points[j].bound && points[i].fraction < points[j].fraction
  {
    hide Bucket, IsBound, Fraction, InBucket;
    CountsGrow(bounds, values, least, size, i, j);
    FractionsCompare(AtMost(values, bounds[i]), AtMost(values, bounds[j]), |values|);
  }

  lemma BucketOfValue(bounds: seq<real>, values: seq<real>, least: real, size: real, j: nat)
    requires size > 0.0 && SortedBounds(bounds, values, least, size) && bounds != [] && bounds[0] == least
    requires j < |values| && values[j] != least
    ensures HasBucket(values[j], bounds, size)
  {
    hide IsBound, InBucket, UpperBound, IsMultiple;
    var i :| 0 <= i < |bounds| && bounds[i] == Bucket(values[j], least, size);
    UpperBoundIsBucket(values[j], size);
    assert i != 0;
    assert InInterval(values[j], bounds[i], size);
  }

  lemma ValueOfBucket(bounds: seq<real>, values: seq<real>, least: real, size: real, i: nat)
    requires size > 0.0 && SortedBounds(bounds, values, least, size) && bounds != [] && bounds[0] == least
    requires 1 <= i < |bounds|
    ensures HasValue(bounds[i], values, least, size) && IsMultiple(bounds[i], size)
  {
    hide IsBound, InBucket, UpperBound, IsMultiple;
    InBucketSome(values, least, size, bounds[i]);
    var j :| 0 <= j < |values| && Bucket(values[j], least, size) == bounds[i];
    UpperBoundIsBucket(values[j], size);
    assert values[j] != least;
    assert InInterval(values[j], bounds[i], size);
  }

  lemma SortedAreBuckets(bounds: seq<real>, values: seq<real>, least: real, size: real)
    requires size > 0.0 && SortedBounds(bounds, values, least, size)
    ensures BoundsAreBuckets(bounds, values, size)
  {
    hide IsBound, InBucket, Bucket, IsMultiple, HasBucket, HasValue;
    Ends(bounds, values, least, size);
    forall j | 0 <= j < |values| && values[j] != bounds[0]
      ensures HasBucket(values[j], bounds, size)
    {
      BucketOfValue(bounds, values, least, size, j);
    }
    forall i | 1 <= i < |bounds|
      ensures HasValue(bounds[i], values, bounds[0], size) && IsMultiple(bounds[i], size)
    {
      ValueOfBucket(bounds, values, least, size, i);
    }
  }

  /** The points the program computes are the distribution. */
  lemma PointsAreCdf(points: seq<Point>, bounds: seq<real>, values: seq<real>, least: real, size: real)
    requires size > 0.0 && SortedBounds(bounds, values, least, size)
    requires PointsOf(points, bounds, values) && |points| == |bounds|
    ensures IsCdf(points, values, size)
  {
    hide Bucket, IsBound, Fraction, InBucket, AtMost, BoundsAreBuckets;
    Ends(bounds, values, least, size);
    SortedAreBuckets(bounds, values, least, size);
    assert BoundsOf(points) == bounds;
    FractionsCompare(|values|, |values|, |values|);
    forall i | 0 <= i < |points|
      ensures points[i].fraction * |values| as real == AtMost(values, points[i].bound) as real
    {
      FractionsCompare(AtMost(values, bounds[i]), 0, |values|);
    }
    forall i, j | 0 <= i < j < |points|
      ensures points[i].bound < points[j].bound && points[i].fraction < points[j].fraction
    {
      FractionsGrow(points, bounds, values, least, size, i, j);
    }
  }

  /** Adds the counts up in the order of the bounds. */
  method Accumulate(b: Buckets, bounds: seq<real>, values: seq<real>, ghost least: real, ghost size: real)
    returns (points: seq<Point>)
    requires size > 0.0 && SortedBounds(bounds, values, least, size)
    requires forall j :: 0 <= j < |bounds| ==>
      bounds[j] in b.count && b.count[bounds[j]] == InBucket(values, least, size, bounds[j])
    ensures IsCdf(points, values, size)
  {
    hide Bucket, IsBound, IsCdf;
    points := [];
    var cumulativeCount, i := 0, 0;
    while i < |bounds|
      invariant 0 <= i <= |bounds| && |points| == i
      invariant cumulativeCount == if i == 0 then 0 else AtMost(values, bounds[i - 1])
      invariant PointsOf(points, bounds, values)
    {
      NextBound(values, bounds, i, least, size);
      cumulativeCount := cumulativeCount + b.count[bounds[i]];
      points := points + [Point(bounds[i], Fraction(cumulativeCount, |values|))];
      i := i + 1;
    }
    PointsAreCdf(points, bounds, values, least, size);
  }

  method GenCdf(values: seq<real>, bucketSize: real) returns (r: Result<seq<Point>>)
    requires bucketSize > 0.0
    ensures values == [] <==> r.ValueError?
    ensures r.Ok? ==> IsCdf(r.value, values, bucketSize)
  {
    var least := Minimum(values);
    if least.ValueError? {
      return ValueError;
    }
    var buckets := CountValues(values, least.value, bucketSize);
    var bounds := Sorted(buckets.keys);
    KeysAreBounds(buckets, bounds, values, least.value, bucketSize);
    var points := Accumulate(buckets, bounds, values, least.value, bucketSize);
    return Ok(points);
  }
}
