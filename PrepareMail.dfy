/** reports/prepare_mail.go without the HTML: the CPU histogram of the EC2
    instances and its rows, the share of computational power per instance
    family, and the tag groups' cost totals with the seven most expensive groups. */
module PrepareMail {
  import opened Common
  import opened Sorting
  import opened ReportTypes
  import opened RiUtils
  import opened TagsEc2

  // ---------------------------------------------------------------------------
  // `calculateHistogram`

  /** `math.Min` and `math.Max` on values that are never NaN. */
  function MathMin(a: real, b: real): real { if a < b then a else b }

  function MathMax(a: real, b: real): real { if a > b then a else b }

  /** The running minimum of the average CPU use, starting from 100. */
  function MinAverage(s: seq<Ec2Instance>): real
  {
    if s == [] then 100.0 else MathMin(MinAverage(s[..|s| - 1]), s[|s| - 1].cpuAverage)
  }

  /** The running maximum of the average CPU use, starting from 0. */
  function MaxAverage(s: seq<Ec2Instance>): real
  {
    if s == [] then 0.0 else MathMax(MaxAverage(s[..|s| - 1]), s[|s| - 1].cpuAverage)
  }

  /** Go's conversion `int(x)`: truncation toward zero. */
  function Trunc(x: real): int
  {
    if x >= 0.0 then x.Floor else -((-x).Floor)
  }

  /** The counter an average goes to: its offset from `lo` in units of `h`,
      truncated, and clamped to the last counter. */
  function Bucket(v: real, lo: real, h: real, k: int): int
    requires h != 0.0
  {
    var b := Trunc((v - lo) / h);
    if b >= k then k - 1 else b
  }

  /** The `k` counters after counting every instance of `s` into its bucket. */
  function Counts(s: seq<Ec2Instance>, lo: real, h: real, k: nat): (c: seq<int>)
    requires h != 0.0
    ensures |c| == k
  {
    if s == [] then seq(k, _ => 0)
    else
      var c := Counts(s[..|s| - 1], lo, h, k);
      var b := Bucket(s[|s| - 1].cpuAverage, lo, h, k);
      if 0 <= b < k then c[b := c[b] + 1] else c
  }

  /** How many instances of `s` fall into bucket `b`: the reference the counters
      are checked against. */
  function InBucket(s: seq<Ec2Instance>, lo: real, h: real, k: int, b: int): nat
    requires h != 0.0
  {
    if s == [] then 0
    else InBucket(s[..|s| - 1], lo, h, k, b) + (if Bucket(s[|s| - 1].cpuAverage, lo, h, k) == b then 1 else 0)
  }

  function Total(v: seq<int>): int
  {
    if v == [] then 0 else Total(v[..|v| - 1]) + v[|v| - 1]
  }

  /** `calculateHistogram(instances, k)`: the extremes of the averages, the
      bucket width and the k counters. The division by `h` needs `h != 0`,
      which fails exactly when every average equals the minimum (0/0 in Go). */
  method CalculateHistogram(instances: seq<Ec2Instance>, k: int) returns (hist: Histogram)
    requires k > 0
    requires MinAverage(instances) != MaxAverage(instances)
    ensures hist.min == MinAverage(instances) && hist.max == MaxAverage(instances)
    ensures hist.h == (hist.max - hist.min) / (k as real) && hist.k == k
    ensures hist.values == Counts(instances, hist.min, hist.h, k)
  {
    var min, max := Extremes(instances);
    var h := (max - min) / (k as real);
    var histValues := CountBuckets(instances, min, max, k);
    hist := Histogram(min, max, histValues, h, k);
  }

  /** The loop searching for the minimum and the maximum average. */
  method Extremes(instances: seq<Ec2Instance>) returns (min: real, max: real)
    ensures min == MinAverage(instances) && max == MaxAverage(instances)
  {
    min, max := 100.0, 0.0;
    for i := 0 to |instances|
      invariant min == MinAverage(instances[..i]) && max == MaxAverage(instances[..i])
    {
      assert instances[..i + 1][..i] == instances[..i];
      min := MathMin(min, instances[i].cpuAverage);
      max := MathMax(max, instances[i].cpuAverage);
    }
    assert instances[..|instances|] == instances;
  }

  /** The counting loop of `calculateHistogram`, on an array of `k` counters
      that starts at zero. */
  method CountBuckets(instances: seq<Ec2Instance>, min: real, max: real, k: int) returns (values: seq<int>)
    requires k > 0 && min == MinAverage(instances) && max == MaxAverage(instances) && min != max
    ensures values == Counts(instances, min, (max - min) / (k as real), k)
  {
    var h := (max - min) / (k as real);
    var histValues := new int[k](_ => 0);
    assert histValues[..] == Counts([], min, h, k);
    for i := 0 to |instances|
      invariant histValues[..] == Counts(instances[..i], min, h, k)
    {
      BucketWithinCounters(instances, i, min, max, k);
      var bucket := Trunc((instances[i].cpuAverage - min) / h);
      if bucket >= k {
        bucket := k - 1;
      }
      assert instances[..i + 1][..i] == instances[..i];
      assert Counts(instances[..i + 1], min, h, k) == histValues[..][bucket := histValues[bucket] + 1];
      histValues[bucket] := histValues[bucket] + 1;
    }
    assert instances[..|instances|] == instances;
    values := histValues[..];
  }

  /** Every average lies between the running minimum and maximum. */
  lemma {:induction false} AverageWithinExtremes(s: seq<Ec2Instance>, i: int)
    requires 0 <= i < |s|
    ensures MinAverage(s) <= s[i].cpuAverage <= MaxAverage(s)
  {
    if i < |s| - 1 {
      AverageWithinExtremes(s[..|s| - 1], i);
    }
  }

  lemma BucketWithinCounters(s: seq<Ec2Instance>, i: int, lo: real, hi: real, k: int)
    requires 0 <= i < |s| && k > 0
    requires lo == MinAverage(s) && hi == MaxAverage(s) && lo != hi
    ensures 0 <= Bucket(s[i].cpuAverage, lo, (hi - lo) / (k as real), k) < k
  {
    AverageWithinExtremes(s, i);
    BucketRange(s[i].cpuAverage, lo, hi, k);
  }

  /** With `lo < hi`, an average between them goes to a bucket in [0, k-1], the
      maximum to the last one, and the average lies within its bucket:
      `lo + b*h <= v`, and `v < lo + (b+1)*h` unless `b` is the last bucket. */
  lemma BucketRange(v: real, lo: real, hi: real, k: int)
    requires k > 0 && lo < hi && lo <= v <= hi
    ensures var h := (hi - lo) / (k as real);
            var b := Bucket(v, lo, h, k);
            && 0 <= b < k
            && (v == hi ==> b == k - 1)
            && lo + h * (b as real) <= v
            && (b < k - 1 ==> v < lo + h * ((b + 1) as real))
  {
    var h := (hi - lo) / (k as real);
    var q := (v - lo) / h;
    Divided(hi - lo, k as real);
    Divided(v - lo, h);
    var b := Bucket(v, lo, h, k);
    assert Trunc(q) == q.Floor;
    if q.Floor >= k {
      ScaledBelow(v - lo, hi - lo, h, k as real, q, (k - 1) as real);
    } else {
      ScaledBelow(v - lo, hi - lo, h, k as real, q, q.Floor as real);
      ScaledAbove(v - lo, h, q, q.Floor as real);
    }
  }

  /** `h * (x / h) == x` for a positive `h`. */
  lemma Divided(x: real, h: real)
    requires h > 0.0
    ensures h * (x / h) == x && (x >= 0.0 ==> x / h >= 0.0)
  {
  }

  /** With `h > 0`, `d == h*q` and `0 <= d <= w == h*kr`: `q <= kr`, and any
      `br <= q` gives `h*br <= d`. */
  lemma ScaledBelow(d: real, w: real, h: real, kr: real, q: real, br: real)
    requires h > 0.0 && h * kr == w && h * q == d && 0.0 <= d <= w && br <= q
    ensures q <= kr && h * br <= d
    ensures d == w ==> q == kr
  {
    if q > kr {
      Positive(h, q - kr);
    }
    if d == w && q < kr {
      Positive(h, kr - q);
    }
    if br < q {
      Positive(h, q - br);
    }
  }

  lemma Positive(a: real, b: real)
    requires a > 0.0 && b > 0.0
    ensures a * b > 0.0
  {
  }

  /** With `h > 0`, `d == h*q` and `q < br + 1`: `d < h*(br + 1)`. */
  lemma ScaledAbove(d: real, h: real, q: real, br: real)
    requires h > 0.0 && h * q == d && q < br + 1.0
    ensures d < h * (br + 1.0)
  {
    Positive(h, br + 1.0 - q);
  }

  /** Each counter counts exactly the instances of its bucket. */
  lemma {:induction false} CountsCountBuckets(s: seq<Ec2Instance>, lo: real, h: real, k: nat, b: int)
    requires h != 0.0 && 0 <= b < k
    ensures Counts(s, lo, h, k)[b] == InBucket(s, lo, h, k, b)
  {
    if s != [] {
      CountsCountBuckets(s[..|s| - 1], lo, h, k, b);
    }
  }

  /** When every instance's bucket is a counter, the counters add up to the
      number of instances. */
  lemma {:induction false} CountsAddUp(s: seq<Ec2Instance>, lo: real, h: real, k: nat)
    requires h != 0.0
    requires forall i :: 0 <= i < |s| ==> 0 <= Bucket(s[i].cpuAverage, lo, h, k) < k
    ensures Total(Counts(s, lo, h, k)) == |s|
  {
    if s == [] {
      TotalZeros(k);
    } else {
      var init := s[..|s| - 1];
      forall i | 0 <= i < |init| ensures 0 <= Bucket(init[i].cpuAverage, lo, h, k) < k {
        assert init[i] == s[i];
      }
      CountsAddUp(init, lo, h, k);
      var b := Bucket(s[|s| - 1].cpuAverage, lo, h, k);
      TotalIncrement(Counts(init, lo, h, k), b);
    }
  }

  lemma {:induction false} TotalZeros(k: nat)
    ensures Total(seq(k, _ => 0)) == 0
  {
    if k > 0 {
      assert seq(k, _ => 0)[..k - 1] == seq(k - 1, _ => 0);
      TotalZeros(k - 1);
    }
  }

  lemma {:induction false} TotalIncrement(v: seq<int>, b: int)
    requires 0 <= b < |v|
    ensures Total(v[b := v[b] + 1]) == Total(v) + 1
  {
    var w := v[b := v[b] + 1];
    if b < |v| - 1 {
      assert w[..|w| - 1] == v[..|v| - 1][b := v[b] + 1];
      TotalIncrement(v[..|v| - 1], b);
    } else {
      assert w[..|w| - 1] == v[..|v| - 1];
    }
  }

  /** The histogram of a non-empty list of instances with distinct extremes
      counts every instance once. */
  lemma HistogramCountsEveryInstance(instances: seq<Ec2Instance>, k: int)
    requires k > 0 && instances != []
    requires MinAverage(instances) != MaxAverage(instances)
    ensures var lo, hi := MinAverage(instances), MaxAverage(instances);
            Total(Counts(instances, lo, (hi - lo) / (k as real), k)) == |instances|
  {
    var lo, hi := MinAverage(instances), MaxAverage(instances);
    forall i | 0 <= i < |instances|
      ensures 0 <= Bucket(instances[i].cpuAverage, lo, (hi - lo) / (k as real), k) < k
    {
      BucketWithinCounters(instances, i, lo, hi, k);
    }
    CountsAddUp(instances, lo, (hi - lo) / (k as real), k);
  }

  /** Without instances the extremes stay at 100 and 0 and the k counters at 0. */
  lemma NoInstancesNoCounts(k: int)
    requires k > 0
    ensures MinAverage([]) == 100.0 && MaxAverage([]) == 0.0
    ensures Counts([], 100.0, -100.0 / (k as real), k) == seq(k, _ => 0)
  {
  }

  /** For averages within [0, 100], the running minimum and maximum are the
      smallest and the largest average. */
  lemma {:induction false} ExtremesAreAttained(s: seq<Ec2Instance>)
    requires s != []
    requires forall i :: 0 <= i < |s| ==> 0.0 <= s[i].cpuAverage <= 100.0
    ensures exists i :: 0 <= i < |s| && s[i].cpuAverage == MinAverage(s)
    ensures exists i :: 0 <= i < |s| && s[i].cpuAverage == MaxAverage(s)
  {
    var init := s[..|s| - 1];
    var last := |s| - 1;
    if init == [] {
      assert 0.0 <= s[0].cpuAverage <= 100.0 && |s| == 1;
      assert MinAverage(s) == MathMin(MinAverage([]), s[0].cpuAverage);
      assert MaxAverage(s) == MathMax(MaxAverage([]), s[0].cpuAverage);
    } else {
      forall i | 0 <= i < |init| ensures 0.0 <= init[i].cpuAverage <= 100.0 {
        assert init[i] == s[i];
      }
      ExtremesAreAttained(init);
      var p :| 0 <= p < |init| && init[p].cpuAverage == MinAverage(init);
      var q :| 0 <= q < |init| && init[q].cpuAverage == MaxAverage(init);
      assert s[p] == init[p] && s[q] == init[q];
      if s[last].cpuAverage < MinAverage(init) {
        assert s[last].cpuAverage == MinAverage(s);
      } else {
        assert s[p].cpuAverage == MinAverage(s);
      }
      if s[last].cpuAverage > MaxAverage(init) {
        assert s[last].cpuAverage == MaxAverage(s);
      } else {
        assert s[q].cpuAverage == MaxAverage(s);
      }
    }
  }

  // ---------------------------------------------------------------------------
  // `formatHistogram`

  /** One row of the histogram table: the bounds of a bucket, in percent, and
      its count. */
  datatype HistogramRow = HistogramRow(lowerBound: real, upperBound: real, count: int)

  /** The start of bucket `x`, at least 0. */
  function LowerBound(hist: Histogram, x: int): real
  {
    MathMax(hist.min + hist.h * (x as real), 0.0)
  }

  /** The end of bucket `x`, 0.01 below the next bucket's start except for the
      last bucket, which includes its end; at most 100. */
  function UpperBound(hist: Histogram, x: int): real
  {
    var interval := if x == hist.k - 1 then 0.0 else 0.01;
    MathMin(hist.min + hist.h * ((x + 1) as real) - interval, 100.0)
  }

  /** `formatHistogram`, without the HTML: one row per bucket. */
  method FormatHistogram(hist: Histogram) returns (rows: seq<HistogramRow>)
    requires hist.k <= |hist.values|
    ensures |rows| == Max0(hist.k)
    ensures forall x :: 0 <= x < |rows| ==>
              rows[x] == HistogramRow(LowerBound(hist, x), UpperBound(hist, x), hist.values[x])
  {
    rows := [];
    var x := 0;
    while x < hist.k
      invariant 0 <= x <= Max0(hist.k) && |rows| == x
      invariant forall y :: 0 <= y < x ==>
                  rows[y] == HistogramRow(LowerBound(hist, y), UpperBound(hist, y), hist.values[y])
    {
      var interval := 0.01;
      if x == hist.k - 1 {
        interval := 0.0;
      }
      var lowerBound := MathMax(hist.min + hist.h * (x as real), 0.0);
      var upperBound := MathMin(hist.min + hist.h * ((x + 1) as real) - interval, 100.0);
      rows := rows + [HistogramRow(lowerBound, upperBound, hist.values[x])];
      x := x + 1;
    }
  }

  function Max0(k: int): nat { if k > 0 then k else 0 }

  /** For a histogram of averages within [0, 100] with `min < max`, the rows
      tile the range: the first starts at the minimum, the last ends at the
      maximum, and each row ends 0.01 before the next one starts. */
  lemma RowsTileTheRange(hist: Histogram)
    requires hist.k > 0 && 0.0 <= hist.min < hist.max <= 100.0
    requires hist.h == (hist.max - hist.min) / (hist.k as real)
    ensures LowerBound(hist, 0) == hist.min
    ensures UpperBound(hist, hist.k - 1) == hist.max
    ensures forall x :: 0 <= x < hist.k - 1 ==> UpperBound(hist, x) + 0.01 == LowerBound(hist, x + 1)
  {
    var k := hist.k as real;
    var w := hist.max - hist.min;
    Divided(w, k);
    forall x | 0 <= x < hist.k - 1
      ensures UpperBound(hist, x) + 0.01 == LowerBound(hist, x + 1)
    {
      ScaledBelow(w, w, hist.h, k, k, (x + 1) as real);
      assert 0.0 <= hist.h * ((x + 1) as real);
    }
  }

  /** An average counted in bucket `b` lies within that bucket's row: at least
      its lower bound, and below its upper bound plus 0.01 (at most its upper
      bound in the last row). */
  lemma AverageWithinItsRow(hist: Histogram, v: real)
    requires hist.k > 0 && 0.0 <= hist.min < hist.max <= 100.0
    requires hist.h == (hist.max - hist.min) / (hist.k as real)
    requires hist.min <= v <= hist.max
    ensures var b := Bucket(v, hist.min, hist.h, hist.k);
            && 0 <= b < hist.k
            && LowerBound(hist, b) <= v
            && (b < hist.k - 1 ==> v < UpperBound(hist, b) + 0.01)
            && (b == hist.k - 1 ==> v <= UpperBound(hist, b))
  {
    BucketRange(v, hist.min, hist.max, hist.k);
    var b := Bucket(v, hist.min, hist.h, hist.k);
    assert 0.0 <= hist.h * (b as real);
    if b == hist.k - 1 {
      assert hist.h * (hist.k as real) == hist.max - hist.min;
    }
  }

  // ---------------------------------------------------------------------------
  // `formatEc2InstancesProportion`

  function InstanceFactor(x: Ec2Instance): real { x.normalizationFactor }

  function InstanceFamily(x: Ec2Instance): string { x.family }

  predicate AnyInstance(x: Ec2Instance) { true }

  /** A reservation's computational power: count × normalization factor. */
  function ReservedPower(x: ReservedInstance): real { x.instanceCount as real * x.normalizationFactor }

  function ReservedFamily(x: ReservedInstance): string { x.family }

  predicate AnyReserved(x: ReservedInstance) { true }

  /** A family's computational power: the factors of its instances plus the
      power of its reservations. */
  function FamilyPower(instances: seq<Ec2Instance>, ris: seq<ReservedInstance>, f: string): real
  {
    SumWhere(instances, InstanceFactor, AnyInstance, InstanceFamily, f)
    + SumWhere(ris, ReservedPower, AnyReserved, ReservedFamily, f)
  }

  function TotalPower(instances: seq<Ec2Instance>, ris: seq<ReservedInstance>): real
  {
    Sum(instances, InstanceFactor) + Sum(ris, ReservedPower)
  }

  /** Some instance or reservation belongs to family `f`. */
  predicate IsFamily(instances: seq<Ec2Instance>, ris: seq<ReservedInstance>, f: string)
  {
    f in KeysOf(instances, InstanceFamily) || f in KeysOf(ris, ReservedFamily)
  }

  function Families(ps: seq<Ec2Product>): (fs: seq<string>)
    ensures |fs| == |ps| && forall i :: 0 <= i < |ps| ==> fs[i] == ps[i].family
  {
    seq(|ps|, i requires 0 <= i < |ps| => ps[i].family)
  }

  function ProductValue(p: Ec2Product): real { p.value }

  /** `added` holds exactly one product per family, valued at the family's
      percentage of the total power. */
  ghost predicate PowerShares(added: seq<Ec2Product>, instances: seq<Ec2Instance>, ris: seq<ReservedInstance>)
  {
    && TotalPower(instances, ris) > 0.0
    && Distinct(Families(added))
    && (forall f :: IsFamily(instances, ris, f) <==> f in Families(added))
    && (forall i :: 0 <= i < |added| ==>
          added[i].value == 100.0 * (FamilyPower(instances, ris, added[i].family) / TotalPower(instances, ris)))
  }

  predicate ValueAtLeast(x: Ec2Product, y: Ec2Product)
  {
    x.value >= y.value
  }

  /** `formatEc2InstancesProportion`: counts the instances and, when the total
      power is positive, appends one product per family to `PowerProductEc2`
      (returned as `added`) and sorts the whole list by value, largest first. */
  method FormatEc2InstancesProportion(instances: seq<Ec2Instance>, ris: seq<ReservedInstance>, gi: GeneralInformation)
    returns (ghost added: seq<Ec2Product>)
    modifies gi
    ensures gi.State() == old(gi.State()).(totalEc2Instances := old(gi.totalEc2Instances) + |instances|,
                                            powerProductEc2 := gi.powerProductEc2)
    ensures TotalPower(instances, ris) > 0.0 ==>
              && PowerShares(added, instances, ris)
              && SortedBy(gi.powerProductEc2, ValueAtLeast)
              && multiset(gi.powerProductEc2) == multiset(old(gi.powerProductEc2) + added)
    ensures TotalPower(instances, ris) <= 0.0 ==> added == [] && gi.powerProductEc2 == old(gi.powerProductEc2)
  {
    var ec2Power, total := FamilyPowers(instances, ris);
    gi.totalEc2Instances := gi.totalEc2Instances + |instances|;
    added := [];
    if total > 0.0 {
      var products := PowerProducts(ec2Power, total);
      PowerProductsAreShares(products, ec2Power, instances, ris);
      added := products;
      gi.powerProductEc2 := SortedByValue(gi.powerProductEc2 + products);
    }
  }

  /** `sort.Slice` of the products by value, largest first. */
  method SortedByValue(products: seq<Ec2Product>) returns (sorted: seq<Ec2Product>)
    ensures SortedBy(sorted, ValueAtLeast) && multiset(sorted) == multiset(products)
  {
    var a := new Ec2Product[|products|](i requires 0 <= i < |products| => products[i]);
    assert a[..] == products;
    SortBy(a, ValueAtLeast);
    sorted := a[..];
  }

  /** The two accumulation loops of `formatEc2InstancesProportion`: the power
      per family, a key for each family present, and the total. */
  method FamilyPowers(instances: seq<Ec2Instance>, ris: seq<ReservedInstance>)
    returns (ec2Power: map<string, real>, total: real)
    ensures total == TotalPower(instances, ris)
    ensures forall f :: f in ec2Power <==> IsFamily(instances, ris, f)
    ensures forall f :: Get(ec2Power, f) == FamilyPower(instances, ris, f)
  {
    ec2Power, total := AddWeights(map[], 0.0, instances, InstanceFactor, AnyInstance, InstanceFamily);
    ec2Power, total := AddWeights(ec2Power, total, ris, ReservedPower, AnyReserved, ReservedFamily);
  }

  /** One accumulation loop: adds each element's weight to the entry of its
      key, a missing entry reading as 0, and to the running total. */
  method AddWeights<T>(m: map<string, real>, total: real, s: seq<T>, w: T -> real, sel: T -> bool, key: T -> string)
    returns (m': map<string, real>, total': real)
    requires forall x :: sel(x)
    ensures total' == total + Sum(s, w)
    ensures m'.Keys == m.Keys + KeysOf(s, key)
    ensures forall f :: Get(m', f) == Get(m, f) + SumWhere(s, w, sel, key, f)
  {
    m', total' := m, total;
    for i := 0 to |s|
      invariant total' == total + Sum(s[..i], w)
      invariant m'.Keys == m.Keys + KeysOf(s[..i], key)
      invariant forall f :: Get(m', f) == Get(m, f) + SumWhere(s[..i], w, sel, key, f)
    {
      assert s[..i + 1][..i] == s[..i];
      m' := m'[key(s[i]) := Get(m', key(s[i])) + w(s[i])];
      total' := total' + w(s[i]);
    }
    assert s[..|s|] == s;
  }

  /** The loop over `ec2Power` (in the map's order): one product per key with
      its percentage of `total`. */
  method PowerProducts(ec2Power: map<string, real>, total: real) returns (products: seq<Ec2Product>)
    requires total > 0.0
    ensures Distinct(Families(products))
    ensures forall f :: f in ec2Power <==> f in Families(products)
    ensures forall i :: 0 <= i < |products| ==>
              products[i].family in ec2Power && products[i].value == 100.0 * (ec2Power[products[i].family] / total)
  {
    products := [];
    var rest := ec2Power.Keys;
    while rest != {}
      invariant rest <= ec2Power.Keys
      invariant Distinct(Families(products))
      invariant forall f :: f in ec2Power <==> f in rest || f in Families(products)
      invariant forall f :: f in rest ==> f !in Families(products)
      invariant forall i :: 0 <= i < |products| ==>
                  products[i].family in ec2Power && products[i].value == 100.0 * (ec2Power[products[i].family] / total)
      decreases |rest|
    {
      var family :| family in rest;
      var product := Ec2Product(family, 100.0 * (ec2Power[family] / total));
      assert Families(products + [product]) == Families(products) + [family];
      products := products + [product];
      rest := rest - {family};
    }
  }

  lemma PowerProductsAreShares(products: seq<Ec2Product>, ec2Power: map<string, real>,
                               instances: seq<Ec2Instance>, ris: seq<ReservedInstance>)
    requires TotalPower(instances, ris) > 0.0
    requires Distinct(Families(products))
    requires forall f :: f in ec2Power <==> f in Families(products)
    requires forall i :: 0 <= i < |products| ==>
               products[i].family in ec2Power
               && products[i].value == 100.0 * (ec2Power[products[i].family] / TotalPower(instances, ris))
    requires forall f :: f in ec2Power <==> IsFamily(instances, ris, f)
    requires forall f :: Get(ec2Power, f) == FamilyPower(instances, ris, f)
    ensures PowerShares(products, instances, ris)
  {
    forall i | 0 <= i < |products|
      ensures products[i].value == 100.0 * (FamilyPower(instances, ris, products[i].family) / TotalPower(instances, ris))
    {
      assert Get(ec2Power, products[i].family) == ec2Power[products[i].family];
    }
  }

  /** The percentages of the families add up to 100. */
  lemma SharesAddUpTo100(added: seq<Ec2Product>, instances: seq<Ec2Instance>, ris: seq<ReservedInstance>)
    requires PowerShares(added, instances, ris)
    ensures Sum(added, ProductValue) == 100.0
  {
    var total := TotalPower(instances, ris);
    var ks := Families(added);
    SumOfMapped(added, ProductValue, ks, ShareOf(instances, ris));
    ScaleShares(ks, ShareOf(instances, ris), PowerOf(instances, ris), total);
    PowersAddUp(instances, ris, ks);
  }

  /** Percentages of a positive total add up to 100 times the summed parts
      over the total. */
  lemma ScaleShares(ks: seq<string>, share: string -> real, power: string -> real, total: real)
    requires total > 0.0
    requires forall f :: share(f) == 100.0 * (power(f) / total)
    ensures SumKeys(ks, share) == (100.0 / total) * SumKeys(ks, power)
    ensures SumKeys(ks, power) == total ==> SumKeys(ks, share) == 100.0
  {
    forall f | f in ks ensures share(f) == (100.0 / total) * power(f) {
      Rescale(power(f), total);
    }
    SumKeysScale(ks, share, power, 100.0 / total);
    Rescale(total, total);
  }

  function PowerOf(instances: seq<Ec2Instance>, ris: seq<ReservedInstance>): string -> real
  {
    f => FamilyPower(instances, ris, f)
  }

  function ShareOf(instances: seq<Ec2Instance>, ris: seq<ReservedInstance>): string -> real
    requires TotalPower(instances, ris) > 0.0
  {
    f => 100.0 * (FamilyPower(instances, ris, f) / TotalPower(instances, ris))
  }

  lemma Rescale(p: real, total: real)
    requires total > 0.0
    ensures 100.0 * (p / total) == (100.0 / total) * p
    ensures (100.0 / total) * total == 100.0
  {
  }

  /** Summing the families' powers over a duplicate-free list that holds every
      family gives the total power. */
  lemma PowersAddUp(instances: seq<Ec2Instance>, ris: seq<ReservedInstance>, ks: seq<string>)
    requires Distinct(ks)
    requires forall f :: IsFamily(instances, ris, f) ==> f in ks
    ensures SumKeys(ks, PowerOf(instances, ris)) == TotalPower(instances, ris)
  {
    var fromInstances := GroupSum(instances, InstanceFactor, AnyInstance, InstanceFamily);
    var fromReserved := GroupSum(ris, ReservedPower, AnyReserved, ReservedFamily);
    SumKeysAdd(ks, PowerOf(instances, ris), fromInstances, fromReserved);
    forall i | 0 <= i < |instances| ensures instances[i].family in ks {
      assert IsFamily(instances, ris, InstanceFamily(instances[i]));
    }
    forall j | 0 <= j < |ris| ensures ris[j].family in ks {
      assert IsFamily(instances, ris, ReservedFamily(ris[j]));
    }
    KeyedSumsAddUp(instances, InstanceFactor, AnyInstance, InstanceFamily, ks);
    KeyedSumsAddUp(ris, ReservedPower, AnyReserved, ReservedFamily, ks);
    SumSelAll(instances, InstanceFactor, AnyInstance);
    SumSelAll(ris, ReservedPower, AnyReserved);
  }

  // ---------------------------------------------------------------------------
  // `formatProductsUsageInstances`

  function GroupEc2Cost(t: ResourceTags): real { t.ec2Cost }

  function GroupRdsCost(t: ResourceTags): real { t.rdsCost }

  predicate Ec2CostAtLeast(x: ResourceTags, y: ResourceTags)
  {
    x.ec2Cost >= y.ec2Cost
  }

  /** `formatProductsUsageInstances`, without the HTML: adds the EC2 and RDS
      costs of every tag group to the totals, sorts the groups by EC2 cost,
      largest first, and shows the first seven. */
  method FormatProductsUsageInstances(tagsValues: array<ResourceTags>, gi: GeneralInformation)
    returns (shown: seq<ResourceTags>)
    modifies tagsValues, gi
    ensures gi.State() == old(gi.State()).(
              totalCostInstancesEC2 := old(gi.totalCostInstancesEC2) + Sum(old(tagsValues[..]), GroupEc2Cost),
              totalCostInstancesRDS := old(gi.totalCostInstancesRDS) + Sum(old(tagsValues[..]), GroupRdsCost))
    ensures SortedBy(tagsValues[..], Ec2CostAtLeast) && multiset(tagsValues[..]) == multiset(old(tagsValues[..]))
    ensures shown == tagsValues[..Min(7, tagsValues.Length)]
  {
    var ec2Cost, rdsCost := GroupTotals(tagsValues[..]);
    gi.totalCostInstancesEC2 := gi.totalCostInstancesEC2 + ec2Cost;
    gi.totalCostInstancesRDS := gi.totalCostInstancesRDS + rdsCost;
    SortBy(tagsValues, Ec2CostAtLeast);
    shown := [];
    var i := 0;
    while i < 7 && tagsValues.Length > i
      invariant 0 <= i <= Min(7, tagsValues.Length) && shown == tagsValues[..i]
    {
      shown := shown + [tagsValues[i]];
      i := i + 1;
    }
  }

  /** The loop adding up the costs of every tag group. */
  method GroupTotals(groups: seq<ResourceTags>) returns (ec2Cost: real, rdsCost: real)
    ensures ec2Cost == Sum(groups, GroupEc2Cost) && rdsCost == Sum(groups, GroupRdsCost)
  {
    ec2Cost, rdsCost := 0.0, 0.0;
    for i := 0 to |groups|
      invariant ec2Cost == Sum(groups[..i], GroupEc2Cost) && rdsCost == Sum(groups[..i], GroupRdsCost)
    {
      SumStep(groups, i, GroupEc2Cost);
      SumStep(groups, i, GroupRdsCost);
      ec2Cost := ec2Cost + groups[i].ec2Cost;
      rdsCost := rdsCost + groups[i].rdsCost;
    }
    assert groups[..|groups|] == groups;
  }
}
