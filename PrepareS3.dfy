/** reports/prepare_s3.go: the S3 section of the weekly mail. Every bucket
    becomes a product row and adds its usage and cost to the summary; the
    table shows the five most expensive buckets. */
module PrepareS3 {
  import opened Common
  import opened Sorting
  import opened ReportTypes
  import opened ReportUtils

  /** The per-bucket figures of the S3 cost query (`s3/costs`' bucket info). */
  datatype BucketInfo = BucketInfo(gbMonth: real, storageCost: real, bandwidthCost: real, requestsCost: real)

  /** What a bucket costs: storage, bandwidth and requests. */
  function BucketCost(b: BucketInfo): real
  {
    b.storageCost + b.bandwidthCost + b.requestsCost
  }

  /** The storage price per GB, or 0 for an empty bucket. */
  function ValueGb(b: BucketInfo): real
  {
    if b.gbMonth > 0.0 then b.storageCost / b.gbMonth else 0.0
  }

  /** The price per GB times the usage gives the storage cost back. */
  lemma ValueGbIsStoragePrice(b: BucketInfo)
    ensures b.gbMonth > 0.0 ==> ValueGb(b) * b.gbMonth == b.storageCost
    ensures b.gbMonth <= 0.0 ==> ValueGb(b) == 0.0
  {
  }

  /** The usage of every bucket, by name. */
  ghost function Usage(buckets: map<string, BucketInfo>): (m: map<string, real>)
    ensures m.Keys == buckets.Keys
  {
    map k | k in buckets :: buckets[k].gbMonth
  }

  /** The cost of every bucket, by name. */
  ghost function Costs(buckets: map<string, BucketInfo>): (m: map<string, real>)
    ensures m.Keys == buckets.Keys
  {
    map k | k in buckets :: BucketCost(buckets[k])
  }

  /** Every bucket's size has a unit: below 1024^5 GB, where `formatGb`
      would index past its unit names. */
  predicate SizesHaveUnits(buckets: map<string, BucketInfo>)
  {
    forall k :: k in buckets ==> buckets[k].gbMonth < Pow1024(5)
  }

  /** The row of the bucket `name`: its cost, its price per GB and its size
      in the unit `formatGb` picks. */
  predicate IsProductOf(p: S3Product, name: string, b: BucketInfo)
  {
    var (i, size) := Scaled(b.gbMonth * GB);
    && p.name == name
    && p.total == BucketCost(b)
    && p.valueGb == ValueGb(b)
    && i < |Formats|
    && p.simbolSize == Formats[i]
    && p.size == size
  }

  function ProductTotal(p: S3Product): real
  {
    p.total
  }

  /** The names of the rows. */
  function Names(products: seq<S3Product>): set<string>
  {
    if products == [] then {} else Names(products[..|products| - 1]) + {products[|products| - 1].name}
  }

  /** No two rows share a name: each row's name is new to the rows before it. */
  predicate DistinctNames(products: seq<S3Product>)
  {
    products == [] ||
    (DistinctNames(products[..|products| - 1]) && products[|products| - 1].name !in Names(products[..|products| - 1]))
  }

  /** Every row is the row of the bucket it is named after. */
  predicate RowsOf(products: seq<S3Product>, buckets: map<string, BucketInfo>)
  {
    products == [] ||
    (var p := products[|products| - 1];
     RowsOf(products[..|products| - 1], buckets) && p.name in buckets && IsProductOf(p, p.name, buckets[p.name]))
  }

  /** One row per bucket, each named after its bucket, in some order. */
  predicate ProductsOf(products: seq<S3Product>, buckets: map<string, BucketInfo>)
  {
    && |products| == |buckets|
    && Names(products) == buckets.Keys
    && DistinctNames(products)
    && RowsOf(products, buckets)
  }

  /** Read row by row: every row is its bucket's row, no name comes twice,
      and every bucket has a row. */
  lemma {:induction false} RowPerBucket(products: seq<S3Product>, buckets: map<string, BucketInfo>)
    requires ProductsOf(products, buckets)
    ensures forall i :: 0 <= i < |products| ==>
              products[i].name in buckets && IsProductOf(products[i], products[i].name, buckets[products[i].name])
    ensures forall i, j :: 0 <= i < j < |products| ==> products[i].name != products[j].name
    ensures forall k :: k in buckets ==> exists i :: 0 <= i < |products| && products[i].name == k
  {
    RowsRowByRow(products, buckets);
    DistinctRowByRow(products);
    forall k | k in buckets
      ensures exists i :: 0 <= i < |products| && products[i].name == k
    {
      NamedRow(products, k);
    }
  }

  lemma {:induction false} RowsRowByRow(products: seq<S3Product>, buckets: map<string, BucketInfo>)
    requires RowsOf(products, buckets)
    ensures forall i :: 0 <= i < |products| ==>
              products[i].name in buckets && IsProductOf(products[i], products[i].name, buckets[products[i].name])
    decreases |products|
  {
    if products != [] {
      var prefix := products[..|products| - 1];
      RowsRowByRow(prefix, buckets);
      assert forall i :: 0 <= i < |prefix| ==> products[i] == prefix[i];
    }
  }

  lemma {:induction false} DistinctRowByRow(products: seq<S3Product>)
    requires DistinctNames(products)
    ensures forall i, j :: 0 <= i < j < |products| ==> products[i].name != products[j].name
    decreases |products|
  {
    if products != [] {
      var prefix := products[..|products| - 1];
      DistinctRowByRow(prefix);
      forall i | 0 <= i < |prefix|
        ensures products[i].name != products[|prefix|].name
      {
        NameOfRow(prefix, i);
      }
    }
  }

  /** A name among the names is that of some row. */
  lemma {:induction false} NamedRow(products: seq<S3Product>, k: string)
    requires k in Names(products)
    ensures exists i :: 0 <= i < |products| && products[i].name == k
    decreases |products|
  {
    var prefix := products[..|products| - 1];
    if k != products[|products| - 1].name {
      NamedRow(prefix, k);
      var i :| 0 <= i < |prefix| && prefix[i].name == k;
      assert products[i] == prefix[i];
    }
  }

  /** Every row's name is among the names. */
  lemma {:induction false} NameOfRow(products: seq<S3Product>, i: int)
    requires 0 <= i < |products|
    ensures products[i].name in Names(products)
    decreases |products|
  {
    if i < |products| - 1 {
      NameOfRow(products[..|products| - 1], i);
    }
  }

  /** A daily average over `weekdays` days. */
  function Daily(total: real, weekdays: real): real
    requires weekdays > 0.0
  {
    total / weekdays
  }

  /** The row `prepareS3Buckets` appends for one bucket. */
  method ProductRow(bucket: string, data: BucketInfo) returns (p: S3Product)
    requires data.gbMonth < Pow1024(5)
    ensures IsProductOf(p, bucket, data)
  {
    var value := 0.0;
    if data.gbMonth > 0.0 {
      value := data.storageCost / data.gbMonth;
    }
    UnitInRange(data.gbMonth);
    var size := FormatGb(data.gbMonth);
    p := S3Product(bucket, BucketCost(data), value, size.value.1, size.value.0);
  }

  /** Appending a row under a new name. */
  lemma AppendNew(products: seq<S3Product>, p: S3Product, buckets: map<string, BucketInfo>)
    requires DistinctNames(products) && RowsOf(products, buckets)
    requires p.name !in Names(products)
    requires p.name in buckets && IsProductOf(p, p.name, buckets[p.name])
    ensures DistinctNames(products + [p]) && RowsOf(products + [p], buckets)
    ensures Names(products + [p]) == Names(products) + {p.name}
  {
    assert (products + [p])[..|products|] == products;
  }

  /** Distinct names: as many names as rows. */
  lemma {:induction false} NamesCount(products: seq<S3Product>)
    requires DistinctNames(products)
    ensures |Names(products)| == |products|
    decreases |products|
  {
    if products != [] {
      NamesCount(products[..|products| - 1]);
    }
  }

  /** What `m` holds for a row's name, or 0. */
  function RowValue(m: map<string, real>): S3Product -> real
  {
    (p: S3Product) => Get(m, p.name)
  }

  /** Sums that agree row by row agree. */
  lemma {:induction false} SumSameRows(products: seq<S3Product>, f: S3Product -> real, g: S3Product -> real)
    requires forall i :: 0 <= i < |products| ==> f(products[i]) == g(products[i])
    ensures Sum(products, f) == Sum(products, g)
    decreases |products|
  {
    if products != [] {
      var prefix := products[..|products| - 1];
      assert forall i :: 0 <= i < |prefix| ==> prefix[i] == products[i];
      SumSameRows(prefix, f, g);
    }
  }

  /** Summing the values of a map row by row, over rows naming each key once,
      gives the sum of the map whatever the order of the rows. */
  lemma {:induction false} RowsSumMap(products: seq<S3Product>, m: map<string, real>)
    requires DistinctNames(products) && Names(products) == m.Keys
    ensures Sum(products, RowValue(m)) == MapSum(m)
    decreases |products|
  {
    if products != [] {
      var prefix := products[..|products| - 1];
      var k := products[|products| - 1].name;
      MapSumRemove(m, k);
      assert (m - {k}).Keys == Names(prefix);
      RowsSumMap(prefix, m - {k});
      forall i | 0 <= i < |prefix|
        ensures RowValue(m - {k})(prefix[i]) == RowValue(m)(prefix[i])
      {
        NameOfRow(prefix, i);
      }
      SumSameRows(prefix, RowValue(m - {k}), RowValue(m));
    }
  }

  /** What the loop of `prepareS3Buckets` keeps: the buckets left are those
      without a row, every row is its bucket's, and the totals are the sums
      over the rows. */
  ghost predicate Visited(buckets: map<string, BucketInfo>, rest: map<string, BucketInfo>,
                          products: seq<S3Product>, usage: real, cost: real)
  {
    && rest == buckets - Names(products)
    && Names(products) <= buckets.Keys
    && DistinctNames(products) && RowsOf(products, buckets)
    && usage == Sum(products, RowValue(Usage(buckets)))
    && cost == Sum(products, RowValue(Costs(buckets)))
    && cost == Sum(products, ProductTotal)
  }

  /** Visiting one more bucket keeps `Visited`. */
  lemma VisitBucket(buckets: map<string, BucketInfo>, rest: map<string, BucketInfo>,
                    products: seq<S3Product>, usage: real, cost: real,
                    bucket: string, data: BucketInfo, p: S3Product)
    requires Visited(buckets, rest, products, usage, cost)
    requires bucket in rest && rest[bucket] == data && IsProductOf(p, bucket, data)
    ensures Visited(buckets, rest - {bucket}, products + [p], usage + data.gbMonth, cost + BucketCost(data))
    ensures |rest - {bucket}| < |rest|
  {
    assert rest[bucket] == buckets[bucket] && bucket !in Names(products);
    AppendNew(products, p, buckets);
    SumAppend(products, p, RowValue(Usage(buckets)));
    SumAppend(products, p, RowValue(Costs(buckets)));
    SumAppend(products, p, ProductTotal);
    assert rest - {bucket} == buckets - Names(products + [p]);
  }

  /** One turn of the loop of `prepareS3Buckets`: takes a bucket not yet
      visited, adds its usage and cost and appends its row. */
  method VisitNext(ghost buckets: map<string, BucketInfo>, rest: map<string, BucketInfo>,
                   products: seq<S3Product>, usage: real, cost: real)
    returns (rest': map<string, BucketInfo>, products': seq<S3Product>, usage': real, cost': real)
    requires SizesHaveUnits(buckets)
    requires rest != map[] && Visited(buckets, rest, products, usage, cost)
    ensures |rest'| < |rest| && Visited(buckets, rest', products', usage', cost')
  {
    var bucket :| bucket in rest;
    var data := rest[bucket];
    var p := ProductRow(bucket, data);
    VisitBucket(buckets, rest, products, usage, cost, bucket, data, p);
    usage' := usage + data.gbMonth;
    cost' := cost + BucketCost(data);
    products' := products + [p];
    rest' := rest - {bucket};
  }

  /** The loop of `prepareS3Buckets`, in map order: the rows, and the usage
      and cost it adds to the summary. */
  method BucketProducts(buckets: map<string, BucketInfo>) returns (products: seq<S3Product>, usage: real, cost: real)
    requires SizesHaveUnits(buckets)
    ensures ProductsOf(products, buckets)
    ensures usage == MapSum(Usage(buckets))
    ensures cost == MapSum(Costs(buckets)) == Sum(products, ProductTotal)
  {
    products, usage, cost := [], 0.0, 0.0;
    var rest := buckets;
    while rest != map[]
      invariant Visited(buckets, rest, products, usage, cost)
      decreases |rest|
    {
      rest, products, usage, cost := VisitNext(buckets, rest, products, usage, cost);
    }
    AllVisited(buckets, products, usage, cost);
  }

  /** Once no bucket is left, the rows are one per bucket and the totals are
      the sums over the buckets. */
  lemma AllVisited(buckets: map<string, BucketInfo>, products: seq<S3Product>, usage: real, cost: real)
    requires Visited(buckets, map[], products, usage, cost)
    ensures ProductsOf(products, buckets)
    ensures usage == MapSum(Usage(buckets))
    ensures cost == MapSum(Costs(buckets)) == Sum(products, ProductTotal)
  {
    assert Names(products) == buckets.Keys by {
      forall k | k in buckets
        ensures k in Names(products)
      {
        assert k !in buckets - Names(products);
      }
    }
    NamesCount(products);
    RowsSumMap(products, Usage(buckets));
    RowsSumMap(products, Costs(buckets));
  }

  /** `prepareS3Buckets`: the bucket count, the usage and cost totals and
      their daily averages over `weekdays` days, and one row per bucket. */
  method PrepareS3Buckets(buckets: map<string, BucketInfo>, weekdays: real, gi: GeneralInformation)
    returns (products: seq<S3Product>)
    requires SizesHaveUnits(buckets)
    requires weekdays > 0.0
    modifies gi
    ensures ProductsOf(products, buckets)
    ensures gi.State() == old(gi.State()).(
              totalInstancesS3 := |buckets|,
              totalUsageS3 := old(gi.totalUsageS3) + MapSum(Usage(buckets)),
              totalCostS3 := old(gi.totalCostS3) + MapSum(Costs(buckets)),
              totalDailyUsageS3 := gi.totalDailyUsageS3,
              totalDailyCostS3 := gi.totalDailyCostS3)
    ensures gi.totalDailyUsageS3 == Daily(gi.totalUsageS3, weekdays)
    ensures gi.totalDailyCostS3 == Daily(gi.totalCostS3, weekdays)
    ensures gi.totalCostS3 == old(gi.totalCostS3) + Sum(products, ProductTotal)
  {
    var usage, cost;
    products, usage, cost := BucketProducts(buckets);
    AddTotals(gi, |buckets|, usage, cost, weekdays);
  }

  /** The summary updates of `prepareS3Buckets`: the bucket count, the added
      usage and cost, and the daily averages of the new totals. */
  method AddTotals(gi: GeneralInformation, count: int, usage: real, cost: real, weekdays: real)
    requires weekdays > 0.0
    modifies gi
    ensures gi.State() == old(gi.State()).(
              totalInstancesS3 := count,
              totalUsageS3 := old(gi.totalUsageS3) + usage,
              totalCostS3 := old(gi.totalCostS3) + cost,
              totalDailyUsageS3 := gi.totalDailyUsageS3,
              totalDailyCostS3 := gi.totalDailyCostS3)
    ensures gi.totalDailyUsageS3 == Daily(gi.totalUsageS3, weekdays)
    ensures gi.totalDailyCostS3 == Daily(gi.totalCostS3, weekdays)
  {
    var totalUsage := gi.totalUsageS3 + usage;
    var totalCost := gi.totalCostS3 + cost;
    var dailyUsage := Daily(totalUsage, weekdays);
    var dailyCost := Daily(totalCost, weekdays);
    gi.totalInstancesS3 := count;
    gi.totalUsageS3 := totalUsage;
    gi.totalCostS3 := totalCost;
    gi.totalDailyUsageS3 := dailyUsage;
    gi.totalDailyCostS3 := dailyCost;
  }

  predicate TotalAtLeast(x: S3Product, y: S3Product)
  {
    x.total >= y.total
  }

  /** `formatS3Table`, without the HTML: sorts the rows by cost, largest
      first, and shows the first five. */
  method FormatS3Table(instanceBuckets: array<S3Product>) returns (shown: seq<S3Product>)
    modifies instanceBuckets
    ensures SortedBy(instanceBuckets[..], TotalAtLeast)
    ensures multiset(instanceBuckets[..]) == multiset(old(instanceBuckets[..]))
    ensures shown == instanceBuckets[..Min(5, instanceBuckets.Length)]
  {
    SortBy(instanceBuckets, TotalAtLeast);
    shown := [];
    var i := 0;
    while i < 5 && instanceBuckets.Length > i
      invariant 0 <= i <= Min(5, instanceBuckets.Length) && shown == instanceBuckets[..i]
    {
      shown := shown + [instanceBuckets[i]];
      i := i + 1;
    }
  }

  /** `formatS3Buckets`: the rows of `prepareS3Buckets`, of which the table
      shows the five most expensive. */
  method FormatS3Buckets(buckets: map<string, BucketInfo>, weekdays: real, gi: GeneralInformation)
    returns (shown: seq<S3Product>, products: seq<S3Product>)
    requires SizesHaveUnits(buckets)
    requires weekdays > 0.0
    modifies gi
    ensures ProductsOf(products, buckets)
    ensures gi.State() == old(gi.State()).(
              totalInstancesS3 := |buckets|,
              totalUsageS3 := old(gi.totalUsageS3) + MapSum(Usage(buckets)),
              totalCostS3 := old(gi.totalCostS3) + MapSum(Costs(buckets)),
              totalDailyUsageS3 := gi.totalDailyUsageS3,
              totalDailyCostS3 := gi.totalDailyCostS3)
    ensures gi.totalDailyUsageS3 == Daily(gi.totalUsageS3, weekdays)
    ensures gi.totalDailyCostS3 == Daily(gi.totalCostS3, weekdays)
    ensures exists sorted :: SortedBy(sorted, TotalAtLeast) && multiset(sorted) == multiset(products)
                             && shown == sorted[..Min(5, |sorted|)]
  {
    products := PrepareS3Buckets(buckets, weekdays, gi);
    var a := new S3Product[|products|](i requires 0 <= i < |products| => products[i]);
    assert a[..] == products;
    shown := FormatS3Table(a);
    assert SortedBy(a[..], TotalAtLeast) && multiset(a[..]) == multiset(products);
  }

  /** No row shown costs less than a row left out. */
  lemma ShownAreMostExpensive(sorted: seq<S3Product>, n: nat, p: S3Product)
    requires SortedBy(sorted, TotalAtLeast)
    requires n <= |sorted|
    requires p in sorted[n..]
    ensures forall q :: q in sorted[..n] ==> q.total >= p.total
  {
    var j :| n <= j < |sorted| && sorted[j] == p;
    forall q | q in sorted[..n]
      ensures q.total >= p.total
    {
      var i :| 0 <= i < n && sorted[i] == q;
      assert TotalAtLeast(sorted[i], sorted[j]);
    }
  }
}
