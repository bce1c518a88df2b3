/** aws/usageReports/history/history.go: the previous-week and previous-month
    windows, the cost of every resource over the search partitions, and the
    joining of the errors of the three products into one.

    `time.Now()` is the parameter `now`; the search results arrive per
    partition, already decoded or not. */
module History {
  import opened Common
  import opened Strings
  import opened Calendar

  const NumPartition: nat := 5
  const StatusOK: int := 200
  const MaxErrorLength: nat := 254

  /** `getWeekHistoryDate`: from 00:00:00 UTC on the Sunday that starts the
      previous week to 23:59:59 six days later. */
  function WeekHistoryDate(now: Time): (Time, Time)
  {
    var start := WeekStart(UTC(now));
    (start, WeekEnd(start))
  }

  /** Midnight on the Sunday a week before the Sunday of `n`'s week. */
  function WeekStart(n: Time): Time
  {
    var d := Civil(n);
    UTC(Date(d.year, d.month, d.day - Weekday(n) - 7, 0, 0, 0, 0, n.offset))
  }

  /** 23:59:59 six days after `start`. */
  function WeekEnd(start: Time): Time
  {
    var s := Civil(start);
    UTC(Date(s.year, s.month, s.day + 6, 23, 59, 59, 0, start.offset))
  }

  lemma WeekStartDay(n: Time)
    requires n.offset == 0
    ensures WeekStart(n).offset == 0 && ClockNs(WeekStart(n)) == 0
    ensures DayOf(WeekStart(n)) == DayOf(n) - Weekday(n) - 7
  {
    var d := Civil(n);
    DayOfUtcDate(d.year, d.month, d.day - Weekday(n) - 7, 0, 0, 0, 0);
    ShiftDay(d.year, d.month, d.day, -Weekday(n) - 7);
  }

  lemma WeekEndDay(start: Time)
    requires start.offset == 0
    ensures WeekEnd(start).offset == 0
    ensures ClockNs(WeekEnd(start)) == (23 * 3600 + 59 * 60 + 59) * NsPerSecond
    ensures DayOf(WeekEnd(start)) == DayOf(start) + 6
  {
    var s := Civil(start);
    DayOfUtcDate(s.year, s.month, s.day + 6, 23, 59, 59, 0);
    ShiftDay(s.year, s.month, s.day, 6);
  }

  /** The week window starts on a Sunday at midnight, a week before the
      Sunday of the current week, and ends on the following Saturday at
      23:59:59, the day before the current week begins. */
  lemma WeekHistoryDateWindow(now: Time)
    ensures var (start, end) := WeekHistoryDate(now);
            && start.offset == 0 && end.offset == 0
            && Weekday(start) == 0 && ClockNs(start) == 0
            && DayOf(start) + 7 <= DayOf(UTC(now)) < DayOf(start) + 14
            && Weekday(end) == 6 && DayOf(end) == DayOf(start) + 6
            && ClockNs(end) == (23 * 3600 + 59 * 60 + 59) * NsPerSecond
  {
    var n := UTC(now);
    var start := WeekStart(n);
    WeekStartDay(n);
    WeekEndDay(start);
    var k := DayOf(n);
    var w := Weekday(n);
    var first := k - w - 7;
    var last := k - w - 1;
    WeekdayOf(n, k);
    PreviousWeek(k, w, first, last);
    WeekdayOf(start, first);
    WeekdayOf(WeekEnd(start), last);
  }

  /** A `time.Date` in UTC, read back in UTC, lands on its day at its clock. */
  lemma DayOfUtcDate(y: int, mo: int, d: int, h: int, mi: int, s: int, ns: int)
    requires 0 <= h < 24 && 0 <= mi < 60 && 0 <= s < 60 && 0 <= ns < NsPerSecond
    ensures var t := UTC(Date(y, mo, d, h, mi, s, ns, 0));
            && t == Date(y, mo, d, h, mi, s, ns, 0)
            && DayOf(t) == DayNumber(y, mo, d) && ClockNs(t) == ((h * 60 + mi) * 60 + s) * NsPerSecond + ns
  {
    DateFields(y, mo, d, h, mi, s, ns, 0);
  }

  /** `getHistoryDate`: from the first day of the previous month at midnight
      to its last day at 23:59:59.999999999, in UTC. */
  function HistoryDate(now: Time): (Time, Time)
  {
    (MonthStart(UTC(now)), MonthEnd(UTC(now)))
  }

  function MonthStart(n: Time): Time
  {
    var d := Civil(n);
    UTC(Date(d.year, d.month - 1, 1, 0, 0, 0, 0, n.offset))
  }

  function MonthEnd(n: Time): Time
  {
    var d := Civil(n);
    UTC(Date(d.year, d.month, 0, 23, 59, 59, 999_999_999, n.offset))
  }

  /** The month before `y`-`m`: December of the year before for January. */
  function PreviousMonth(y: int, m: int): (int, int)
    requires 1 <= m <= 12
  {
    if m == 1 then (y - 1, 12) else (y, m - 1)
  }

  /** `time.Date` folds month `m - 1` into the previous month, so day `day`
      of month `m - 1` is day `day` of the previous month. */
  lemma NormalizePrevious(y: int, m: int, day: int)
    requires 1 <= m <= 12
    ensures NormalizeMonth(y, m - 1) == PreviousMonth(y, m)
    ensures DayNumber(y, m - 1, day) == DayNumber(PreviousMonth(y, m).0, PreviousMonth(y, m).1, day)
  {
    var (py, pm) := PreviousMonth(y, m);
    if m == 1 {
      assert (m - 2) / 12 == -1 && (m - 2) % 12 == 11;
    } else {
      assert 0 <= m - 2 < 12;
    }
    assert 0 <= pm - 1 < 12;
    assert NormalizeMonth(py, pm) == (py, pm);
  }

  lemma MonthStartDay(n: Time)
    requires n.offset == 0
    ensures var (py, pm) := PreviousMonth(Civil(n).year, Civil(n).month);
            && MonthStart(n).offset == 0 && ClockNs(MonthStart(n)) == 0
            && DayOf(MonthStart(n)) == DayNumber(py, pm, 1)
  {
    var d := Civil(n);
    DayOfUtcDate(d.year, d.month - 1, 1, 0, 0, 0, 0);
    NormalizePrevious(d.year, d.month, 1);
  }

  lemma MonthEndDay(n: Time)
    requires n.offset == 0
    ensures var (py, pm) := PreviousMonth(Civil(n).year, Civil(n).month);
            && MonthEnd(n).offset == 0 && ClockNs(MonthEnd(n)) == NsPerDay - 1
            && DayOf(MonthEnd(n)) == DayNumber(py, pm, DaysInMonth(py, pm))
  {
    var d := Civil(n);
    DayOfUtcDate(d.year, d.month, 0, 23, 59, 59, 999_999_999);
    DayZeroIsLastOfPreviousMonth(d.year, d.month);
    NormalizePrevious(d.year, d.month, 1);
  }

  /** The end of the window is one nanosecond before midnight on the first
      of `n`'s month. */
  lemma MonthEndTouchesMonth(n: Time)
    requires n.offset == 0
    ensures MonthEnd(n).ns + 1 == Date(Civil(n).year, Civil(n).month, 1, 0, 0, 0, 0, 0).ns
  {
    LastNanosecond(Civil(n).year, Civil(n).month);
  }

  lemma LastNanosecond(y: int, m: int)
    ensures Date(y, m, 0, 23, 59, 59, 999_999_999, 0).ns + 1 == Date(y, m, 1, 0, 0, 0, 0, 0).ns
  {
    var z := DayNumber(y, m, 0);
    ShiftDay(y, m, 0, 1);
    assert Date(y, m, 0, 23, 59, 59, 999_999_999, 0).ns == z * NsPerDay + (NsPerDay - 1);
    assert Date(y, m, 1, 0, 0, 0, 0, 0).ns == (z + 1) * NsPerDay;
  }

  /** The month window covers the whole previous month, January rolling back
      to December of the year before, and ends one nanosecond before the
      current month starts. */
  lemma HistoryDateWindow(now: Time)
    ensures var (start, end) := HistoryDate(now);
            var d := Civil(UTC(now));
            var (py, pm) := PreviousMonth(d.year, d.month);
            && start.offset == 0 && end.offset == 0
            && Civil(start) == YMD(py, pm, 1) && ClockNs(start) == 0
            && Civil(end) == YMD(py, pm, DaysInMonth(py, pm)) && ClockNs(end) == NsPerDay - 1
            && end.ns + 1 == Date(d.year, d.month, 1, 0, 0, 0, 0, 0).ns
  {
    var n := UTC(now);
    var d := Civil(n);
    var (py, pm) := PreviousMonth(d.year, d.month);
    MonthStartDay(n);
    MonthEndDay(n);
    MonthEndTouchesMonth(n);
    CivilFromDayNumber(YMD(py, pm, 1));
    CivilFromDayNumber(YMD(py, pm, DaysInMonth(py, pm)));
  }

  /** One region bucket of a resource: its region key and summed cost. */
  datatype RegionBucket = RegionBucket(region: string, cost: real)

  /** One resource bucket of the search aggregation. */
  datatype ResourceBucket = ResourceBucket(resource: string, regions: seq<RegionBucket>)

  /** `utils.CostPerResource`. */
  datatype CostPerResource = CostPerResource(resource: string, cost: real, region: string)

  /** What the search of one partition gives back: a failed request with the
      status code it reports, an aggregation that does not decode, or the
      decoded resource buckets. */
  datatype PartitionResponse =
    | RequestFailed(code: int, msg: string)
    | Undecodable
    | Decoded(resources: seq<ResourceBucket>)

  function RegionCost(b: RegionBucket): real { b.cost }

  /** The last non-empty region key, or "" when there is none. */
  function LastRegion(regions: seq<RegionBucket>): string
  {
    if regions == [] then ""
    else if regions[|regions| - 1].region != "" then regions[|regions| - 1].region
    else LastRegion(regions[..|regions| - 1])
  }

  /** The region of a resource is "" exactly when every region key is empty,
      and otherwise a non-empty key with only empty keys after it. */
  lemma {:induction false} LastRegionIsLastNonEmpty(regions: seq<RegionBucket>)
    ensures LastRegion(regions) == "" <==> forall i :: 0 <= i < |regions| ==> regions[i].region == ""
    ensures LastRegion(regions) != "" ==>
              exists i :: 0 <= i < |regions| && regions[i].region == LastRegion(regions) &&
                          forall j :: i < j < |regions| ==> regions[j].region == ""
    decreases |regions|
  {
    if regions != [] {
      var n := |regions| - 1;
      var prefix := regions[..n];
      LastRegionIsLastNonEmpty(prefix);
      assert forall i :: 0 <= i < n ==> prefix[i] == regions[i];
      if regions[n].region != "" {
        assert LastRegion(regions) == regions[n].region;
      } else {
        assert LastRegion(regions) == LastRegion(prefix);
        if LastRegion(prefix) != "" {
          var i :| 0 <= i < n && prefix[i].region == LastRegion(prefix) &&
                   forall j :: i < j < n ==> prefix[j].region == "";
          assert regions[i].region == LastRegion(regions);
        }
      }
    }
  }

  /** The inner loop of `getCostPerResource` for one resource: the costs of
      its regions summed, the region the last non-empty key. */
  method ResourceCost(bucket: ResourceBucket) returns (element: CostPerResource)
    ensures element.resource == bucket.resource
    ensures element.cost == Sum(bucket.regions, RegionCost)
    ensures element.region == LastRegion(bucket.regions)
  {
    element := CostPerResource(bucket.resource, 0.0, "");
    var j := 0;
    while j < |bucket.regions|
      invariant 0 <= j <= |bucket.regions|
      invariant element == CostPerResource(bucket.resource, Sum(bucket.regions[..j], RegionCost), LastRegion(bucket.regions[..j]))
    {
      assert bucket.regions[..j + 1][..j] == bucket.regions[..j];
      var region := bucket.regions[j];
      if region.region != "" {
        element := element.(region := region.region);
      }
      element := element.(cost := element.cost + region.cost);
      j := j + 1;
    }
    assert bucket.regions[..j] == bucket.regions;
  }

  /** The elements of one partition, one per resource bucket, in order. */
  function Elements(resources: seq<ResourceBucket>): seq<CostPerResource>
  {
    seq(|resources|, i requires 0 <= i < |resources| =>
      CostPerResource(resources[i].resource, Sum(resources[i].regions, RegionCost), LastRegion(resources[i].regions)))
  }

  /** The elements of the partitions, concatenated in partition order. */
  function Flatten(partitions: seq<seq<ResourceBucket>>): seq<CostPerResource>
  {
    if partitions == [] then [] else Elements(partitions[0]) + Flatten(partitions[1..])
  }

  /** The decoded partitions, up to the first that is not decoded. */
  function DecodedPrefix(responses: seq<PartitionResponse>): seq<seq<ResourceBucket>>
  {
    if responses == [] || !responses[0].Decoded? then []
    else [responses[0].resources] + DecodedPrefix(responses[1..])
  }

  /** The error of the first partition that is not decoded: none for a
      request that fails with status 200 (a missing index), the request's
      error for any other status, "Internal server error" when the
      aggregation does not decode. */
  function FirstError(responses: seq<PartitionResponse>): Option<string>
  {
    if responses == [] then None
    else
      match responses[0]
      case RequestFailed(code, msg) => if code != StatusOK then Some(msg) else None
      case Undecodable => Some("Internal server error")
      case Decoded(_) => FirstError(responses[1..])
  }

  /** The per-partition loop: appends one element per resource bucket. */
  method AppendPartition(response: seq<CostPerResource>, resources: seq<ResourceBucket>)
    returns (response': seq<CostPerResource>)
    ensures response' == response + Elements(resources)
  {
    response' := response;
    var k := 0;
    while k < |resources|
      invariant 0 <= k <= |resources| && response' == response + Elements(resources[..k])
    {
      var element := ResourceCost(resources[k]);
      assert Elements(resources[..k + 1]) == Elements(resources[..k]) + [element];
      response' := response' + [element];
      k := k + 1;
    }
    assert resources[..k] == resources;
  }

  /** `getCostPerResource`: the partitions in order, stopping at the first
      that is not decoded, with what was gathered so far and that
      partition's error. */
  method GetCostPerResource(responses: seq<PartitionResponse>)
    returns (response: seq<CostPerResource>, err: Option<string>)
    requires |responses| == NumPartition
    ensures response == Flatten(DecodedPrefix(responses))
    ensures err == FirstError(responses)
  {
    response := [];
    var i := 0;
    while i < NumPartition
      invariant 0 <= i <= NumPartition
      invariant Flatten(DecodedPrefix(responses)) == response + Flatten(DecodedPrefix(responses[i..]))
      invariant FirstError(responses) == FirstError(responses[i..])
    {
      var result := responses[i];
      assert responses[i..][1..] == responses[i + 1..];
      if result.RequestFailed? {
        err := if result.code != StatusOK then Some(result.msg) else None;
        return;
      }
      if result.Undecodable? {
        return response, Some("Internal server error");
      }
      var rest := Flatten(DecodedPrefix(responses[i + 1..]));
      assert Flatten(DecodedPrefix(responses[i..])) == Elements(result.resources) + rest;
      assert response + (Elements(result.resources) + rest) == response + Elements(result.resources) + rest;
      response := AppendPartition(response, result.resources);
      i := i + 1;
    }
    assert responses[i..] == [];
    err := None;
  }

  /** When every partition decodes, the result holds every resource bucket of
      every partition and no error; a partition failing with status 200 also
      gives no error. */
  lemma {:induction false} NoErrorUnlessFailure(responses: seq<PartitionResponse>)
    ensures FirstError(responses).Some? <==>
              exists i :: 0 <= i < |responses| && !responses[i].Decoded? &&
                          (responses[i].Undecodable? || responses[i].code != StatusOK) &&
                          forall j :: 0 <= j < i ==> responses[j].Decoded?
    ensures (forall i :: 0 <= i < |responses| ==> responses[i].Decoded?) ==> |DecodedPrefix(responses)| == |responses|
    decreases |responses|
  {
    if responses != [] {
      NoErrorUnlessFailure(responses[1..]);
      assert forall i :: 1 <= i < |responses| ==> responses[i] == responses[1..][i - 1];
      if FirstError(responses).Some? && responses[0].Decoded? {
        var i :| 0 <= i < |responses[1..]| && !responses[1..][i].Decoded? &&
                 (responses[1..][i].Undecodable? || responses[1..][i].code != StatusOK) &&
                 forall j :: 0 <= j < i ==> responses[1..][j].Decoded?;
        assert forall j :: 0 <= j < i + 1 ==> responses[j].Decoded? by {
          forall j | 0 <= j < i + 1 ensures responses[j].Decoded? {
            if j > 0 { assert responses[j] == responses[1..][j - 1]; }
          }
        }
      }
    }
  }

  /** Every element comes from a resource bucket of a decoded partition
      before the first failure, with the summed cost of its regions. */
  lemma {:induction false} ElementsFromBuckets(partitions: seq<seq<ResourceBucket>>)
    ensures forall e :: e in Flatten(partitions) ==>
              exists p, b :: p in partitions && b in p && e.resource == b.resource &&
                             e.cost == Sum(b.regions, RegionCost) && e.region == LastRegion(b.regions)
    ensures |Flatten(partitions)| == BucketTotal(partitions)
    decreases |partitions|
  {
    if partitions != [] {
      var first := partitions[0];
      var rest := partitions[1..];
      ElementsFromBuckets(rest);
      forall e | e in Flatten(partitions)
        ensures exists p, b :: p in partitions && b in p && e.resource == b.resource &&
                               e.cost == Sum(b.regions, RegionCost) && e.region == LastRegion(b.regions)
      {
        if e in Flatten(rest) {
          var p, b :| p in rest && b in p && e.resource == b.resource &&
                      e.cost == Sum(b.regions, RegionCost) && e.region == LastRegion(b.regions);
          assert p in partitions;
        } else {
          var i :| 0 <= i < |Elements(first)| && Elements(first)[i] == e;
          assert first[i] in first && first in partitions;
        }
      }
    }
  }

  /** The number of resource buckets over all partitions. */
  function BucketTotal(partitions: seq<seq<ResourceBucket>>): nat
  {
    if partitions == [] then 0 else |partitions[0]| + BucketTotal(partitions[1..])
  }


  /** The message `concatErrors` builds before truncation: the messages of
      the non-nil errors in order, " + " between a message and a non-empty
      text before it. */
  function Accumulated(errors: seq<Option<string>>): string
  {
    if errors == [] then ""
    else
      var before := Accumulated(errors[..|errors| - 1]);
      match errors[|errors| - 1]
      case None => before
      case Some(msg) => if before != "" then before + " + " + msg else before + msg
  }

  /** The messages of the non-nil errors, in order. */
  function Messages(errors: seq<Option<string>>): seq<string>
  {
    if errors == [] then []
    else Messages(errors[..|errors| - 1]) + (match errors[|errors| - 1] case None => [] case Some(msg) => [msg])
  }

  /** `concatErrors`. */
  method ConcatErrors(errors: seq<Option<string>>) returns (r: Option<string>)
    ensures r.None? <==> Accumulated(errors) == ""
    ensures r.Some? ==> r.value == Accumulated(errors)[..Min(|Accumulated(errors)|, MaxErrorLength)]
  {
    var stringError := "";
    var i := 0;
    while i < |errors|
      invariant 0 <= i <= |errors| && stringError == Accumulated(errors[..i])
    {
      assert errors[..i + 1][..i] == errors[..i];
      if errors[i].Some? {
        if stringError != "" {
          stringError := stringError + " + ";
        }
        stringError := stringError + errors[i].value;
      }
      i := i + 1;
    }
    assert errors[..i] == errors;
    if stringError != "" {
      if |stringError| > MaxErrorLength {
        stringError := stringError[0..MaxErrorLength];
      }
      return Some(stringError);
    }
    return None;
  }

  /** With non-empty messages, the accumulated text is the messages joined by
      " + ", and it is empty exactly when every error is nil. */
  lemma {:induction false} AccumulatedIsJoin(errors: seq<Option<string>>)
    requires forall i :: 0 <= i < |errors| && errors[i].Some? ==> errors[i].value != ""
    ensures Accumulated(errors) == Join(Messages(errors), " + ")
    ensures Accumulated(errors) == "" <==> forall i :: 0 <= i < |errors| ==> errors[i].None?
    decreases |errors|
  {
    if errors != [] {
      var prefix := errors[..|errors| - 1];
      assert forall i :: 0 <= i < |prefix| ==> prefix[i] == errors[i];
      AccumulatedIsJoin(prefix);
      NonEmptyMessages(prefix);
      var last := errors[|errors| - 1];
      if last.Some? {
        var msg := last.value;
        assert Messages(errors) == Messages(prefix) + [msg];
        if Messages(prefix) != [] {
          JoinSnoc(Messages(prefix), msg, " + ");
          assert Accumulated(errors) == Accumulated(prefix) + " + " + msg;
        } else {
          assert Accumulated(prefix) == "";
          assert Accumulated(errors) == "" + msg == msg;
          assert Messages(errors) == [msg];
        }
        assert |Accumulated(errors)| >= |msg| > 0;
      } else {
        assert Messages(errors) == Messages(prefix) + [];
        assert Messages(errors) == Messages(prefix);
      }
    }
  }

  /** There are messages exactly when some error is non-nil. */
  lemma {:induction false} NonEmptyMessages(errors: seq<Option<string>>)
    ensures Messages(errors) != [] <==> exists i :: 0 <= i < |errors| && errors[i].Some?
    decreases |errors|
  {
    if errors != [] {
      var prefix := errors[..|errors| - 1];
      NonEmptyMessages(prefix);
      assert forall i :: 0 <= i < |prefix| ==> prefix[i] == errors[i];
    }
  }
}
