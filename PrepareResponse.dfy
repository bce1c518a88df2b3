/** usageReports/ri/prepare_response.go: decoding the reserved-instance search
    results. The JSON decoding itself is foreign: a hit arrives already
    decoded (`Some`) or undecodable (`None`), and the aggregation arrives as
    its bucket tree or as undecodable (`None`). A missing aggregation, on
    which the code dereferences a nil pointer, is not modelled. */
module PrepareResponse {
  import opened Common
  import opened RiUtils

  const StatusOK: int := 200
  const StatusInternalServerError: int := 500

  /** The innermost aggregation bucket: a normalization factor and the usage
      summed under it. */
  datatype FactorBucket = FactorBucket(key: real, usage: real)

  datatype FamilyBucket = FamilyBucket(key: string, factors: seq<FactorBucket>)

  datatype UsageBucket = UsageBucket(key: string, families: seq<FamilyBucket>)

  /** What the handlers get back: a status code, a value, and whether an
      error was returned. */
  datatype Response<T> = Response(code: int, value: T, failed: bool)

  /** The hits decoded in order, or `None` as soon as one does not decode. */
  function Decoded(hits: seq<Option<ReservedInstance>>): Option<seq<ReservedInstance>>
  {
    if hits == [] then Some([])
    else
      match Decoded(hits[..|hits| - 1])
      case None => None
      case Some(xs) => if hits[|hits| - 1].None? then None else Some(xs + [hits[|hits| - 1].value])
  }

  /** `prepareResponseRi`: no hits at all is a success with nothing; an
      undecodable hit aborts with 500; otherwise every hit, in order. */
  method PrepareResponseRi(totalHits: int, hits: seq<Option<ReservedInstance>>)
    returns (r: Response<seq<ReservedInstance>>)
    ensures totalHits == 0 ==> r == Response(StatusOK, [], false)
    ensures totalHits != 0 && Decoded(hits).None? ==> r == Response(StatusInternalServerError, [], true)
    ensures totalHits != 0 && Decoded(hits).Some? ==> r == Response(StatusOK, Decoded(hits).value, false)
  {
    if totalHits == 0 {
      return Response(StatusOK, [], false);
    }
    var instances: seq<ReservedInstance> := [];
    var i := 0;
    while i < |hits|
      invariant 0 <= i <= |hits| && Decoded(hits[..i]) == Some(instances)
    {
      assert hits[..i + 1][..i] == hits[..i];
      if hits[i].None? {
        NoneStaysNone(hits, i + 1);
        return Response(StatusInternalServerError, [], true);
      }
      instances := instances + [hits[i].value];
      i := i + 1;
    }
    assert hits[..i] == hits;
    r := Response(StatusOK, instances, false);
  }

  /** Once a prefix fails to decode, so does everything. */
  lemma {:induction false} NoneStaysNone(hits: seq<Option<ReservedInstance>>, n: nat)
    requires n <= |hits| && Decoded(hits[..n]).None?
    ensures Decoded(hits).None?
    decreases |hits| - n
  {
    if n < |hits| {
      assert hits[..n + 1][..n] == hits[..n];
      NoneStaysNone(hits, n + 1);
    } else {
      assert hits[..n] == hits;
    }
  }

  /** Decoding fails exactly when some hit does not decode, and otherwise
      yields every hit's record, one per hit, in order. */
  lemma {:induction false} DecodedAllOrNothing(hits: seq<Option<ReservedInstance>>)
    ensures Decoded(hits).None? <==> exists i :: 0 <= i < |hits| && hits[i].None?
    ensures Decoded(hits).Some? ==>
              |Decoded(hits).value| == |hits| &&
              forall i :: 0 <= i < |hits| ==> hits[i] == Some(Decoded(hits).value[i])
    decreases |hits|
  {
    if hits != [] {
      var prefix := hits[..|hits| - 1];
      DecodedAllOrNothing(prefix);
      assert forall i :: 0 <= i < |prefix| ==> prefix[i] == hits[i];
      if hits[|hits| - 1].Some? && Decoded(prefix).Some? {
        assert forall i :: 0 <= i < |hits| ==> hits[i].Some?;
      }
    }
  }

  /** The record of one factor bucket. `Cost` is never assigned, so it keeps
      Go's zero value. */
  function Record(usageKey: string, familyKey: string, b: FactorBucket): ReservedInstanceReport
  {
    ReservedInstanceReport(usageKey, familyKey, b.key, b.usage, 0.0)
  }

  /** The records of one family bucket, one per factor bucket, in order. */
  function FactorRecords(usageKey: string, familyKey: string, bs: seq<FactorBucket>): seq<ReservedInstanceReport>
  {
    seq(|bs|, i requires 0 <= i < |bs| => Record(usageKey, familyKey, bs[i]))
  }

  /** The records of one usage bucket: family bucket by family bucket. */
  function FamilyRecords(usageKey: string, families: seq<FamilyBucket>): seq<ReservedInstanceReport>
  {
    if families == [] then []
    else
      var last := families[|families| - 1];
      FamilyRecords(usageKey, families[..|families| - 1]) + FactorRecords(usageKey, last.key, last.factors)
  }

  /** The map built from the usage buckets: a bucket with records stores them
      under its key, a later bucket with the same key replacing an earlier one. */
  function ResponseOf(usages: seq<UsageBucket>): map<string, seq<ReservedInstanceReport>>
  {
    if usages == [] then map[]
    else
      var last := usages[|usages| - 1];
      var instances := FamilyRecords(last.key, last.families);
      var response := ResponseOf(usages[..|usages| - 1]);
      if instances != [] then response[last.key := instances] else response
  }

  /** The inner loop: appends the records of one family bucket. */
  method AppendFactors(instances: seq<ReservedInstanceReport>, usageKey: string, family: FamilyBucket)
    returns (instances': seq<ReservedInstanceReport>)
    ensures instances' == instances + FactorRecords(usageKey, family.key, family.factors)
  {
    instances' := instances;
    var j := 0;
    while j < |family.factors|
      invariant 0 <= j <= |family.factors|
      invariant instances' == instances + FactorRecords(usageKey, family.key, family.factors[..j])
    {
      var usageFactor := family.factors[j];
      instances' := instances' + [ReservedInstanceReport(usageKey, family.key, usageFactor.key, usageFactor.usage, 0.0)];
      j := j + 1;
    }
    assert family.factors[..j] == family.factors;
  }

  /** The two inner loops for one usage bucket. */
  method UsageRecords(usage: UsageBucket) returns (instances: seq<ReservedInstanceReport>)
    ensures instances == FamilyRecords(usage.key, usage.families)
  {
    instances := [];
    var j := 0;
    while j < |usage.families|
      invariant 0 <= j <= |usage.families|
      invariant instances == FamilyRecords(usage.key, usage.families[..j])
    {
      assert usage.families[..j + 1][..j] == usage.families[..j];
      instances := AppendFactors(instances, usage.key, usage.families[j]);
      j := j + 1;
    }
    assert usage.families[..j] == usage.families;
  }

  /** `prepareResponseRiResult`: 500 when the aggregation does not decode,
      otherwise the records of every usage bucket that has any. */
  method PrepareResponseRiResult(aggregation: Option<seq<UsageBucket>>)
    returns (r: Response<map<string, seq<ReservedInstanceReport>>>)
    ensures aggregation.None? ==> r == Response(StatusInternalServerError, map[], true)
    ensures aggregation.Some? ==> r == Response(StatusOK, ResponseOf(aggregation.value), false)
  {
    if aggregation.None? {
      return Response(StatusInternalServerError, map[], true);
    }
    var usages := aggregation.value;
    var response: map<string, seq<ReservedInstanceReport>> := map[];
    var i := 0;
    while i < |usages|
      invariant 0 <= i <= |usages| && response == ResponseOf(usages[..i])
    {
      assert usages[..i + 1][..i] == usages[..i];
      var instances := UsageRecords(usages[i]);
      if instances != [] {
        response := response[usages[i].key := instances];
      }
      i := i + 1;
    }
    assert usages[..i] == usages;
    r := Response(StatusOK, response, false);
  }

  /** Every record of a usage bucket carries the bucket's key as its type and
      a zero cost. */
  lemma {:induction false} FamilyRecordsFields(usageKey: string, families: seq<FamilyBucket>)
    ensures forall r :: r in FamilyRecords(usageKey, families) ==> r.usageType == usageKey && r.cost == 0.0
    decreases |families|
  {
    if families != [] {
      FamilyRecordsFields(usageKey, families[..|families| - 1]);
    }
  }

  /** A usage bucket has records exactly when one of its families has a
      factor bucket; it has one record per factor bucket. */
  lemma {:induction false} FamilyRecordsCount(usageKey: string, families: seq<FamilyBucket>)
    ensures |FamilyRecords(usageKey, families)| == SumInt(families, FactorCount)
    ensures FamilyRecords(usageKey, families) == [] <==> forall f :: f in families ==> f.factors == []
    decreases |families|
  {
    if families != [] {
      var prefix := families[..|families| - 1];
      FamilyRecordsCount(usageKey, prefix);
      assert forall f :: f in families ==> f in prefix || f == families[|families| - 1];
      assert forall f :: f in prefix ==> f in families;
    }
  }

  function FactorCount(f: FamilyBucket): int
  {
    |f.factors|
  }

  /** Every record stored under key `k` has type `k` and cost 0, and a key is
      present exactly when some usage bucket with that key has records. */
  lemma {:induction false} ResponseKeysAndTypes(usages: seq<UsageBucket>)
    ensures forall k :: k in ResponseOf(usages) ==>
              forall r :: r in ResponseOf(usages)[k] ==> r.usageType == k && r.cost == 0.0
    ensures forall k :: k in ResponseOf(usages) <==>
              exists i :: 0 <= i < |usages| && usages[i].key == k && FamilyRecords(k, usages[i].families) != []
    decreases |usages|
  {
    if usages != [] {
      var prefix := usages[..|usages| - 1];
      var last := usages[|usages| - 1];
      ResponseKeysAndTypes(prefix);
      FamilyRecordsFields(last.key, last.families);
      assert forall i :: 0 <= i < |prefix| ==> prefix[i] == usages[i];
      forall k | exists i :: 0 <= i < |usages| && usages[i].key == k && FamilyRecords(k, usages[i].families) != []
        ensures k in ResponseOf(usages)
      {
        var i :| 0 <= i < |usages| && usages[i].key == k && FamilyRecords(k, usages[i].families) != [];
        if i < |prefix| {
          assert prefix[i] == usages[i];
        }
      }
    }
  }
}
