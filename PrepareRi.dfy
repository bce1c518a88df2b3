/** reports/prepare_ri.go: the reserved-instance section of the weekly report.
    It totals the reservations, lists the ones that expire before the end of
    next month by instance type, splits usage into on-demand and reserved
    shares, and estimates what reserving the on-demand usage would cost. */
module PrepareRi {
  import opened Common
  import opened Strings
  import opened Calendar
  import opened Floats
  import opened Sorting
  import opened ReportTypes
  import opened RiUtils
  import AwsUtils

  // ---------------------------------------------------------------------------
  // The horizon of `formatReserved`

  /** `time.Date(endDate.Year(), endDate.Month()+2, 0, 23, 59, 59, 999999999, time.Local)`,
      with the local zone a fixed offset. */
  function Horizon(endDate: Time, localOffset: int): Time
  {
    var d := Civil(endDate);
    Date(d.year, d.month + 2, 0, 23, 59, 59, 999_999_999, localOffset)
  }

  /** The horizon is the last nanosecond, local time, of the month after
      `endDate`'s month: day 0 of a month is the last day of the one before. */
  lemma HorizonIsEndOfNextMonth(endDate: Time, localOffset: int)
    ensures var d := Civil(endDate);
            var (y, m) := NormalizeMonth(d.year, d.month + 1);
            var h := Horizon(endDate, localOffset);
            h.offset == localOffset && Civil(h) == YMD(y, m, DaysInMonth(y, m)) && ClockNs(h) == NsPerDay - 1
  {
    var d := Civil(endDate);
    var (y, m) := NormalizeMonth(d.year, d.month + 1);
    DateFields(d.year, d.month + 2, 0, 23, 59, 59, 999_999_999, localOffset);
    DayZeroIsLastOfPreviousMonth(d.year, d.month + 2);
    CivilFromDayNumber(YMD(y, m, DaysInMonth(y, m)));
  }

  /** An instant is before the horizon, or is the horizon itself, exactly
      when its local date is on or before the horizon's date. */
  lemma BeforeHorizon(t: Time, endDate: Time, localOffset: int)
    ensures Before(t, Horizon(endDate, localOffset)) || t.ns == Horizon(endDate, localOffset).ns
            <==> DayOf(Time(t.ns, localOffset)) <= DayOf(Horizon(endDate, localOffset))
  {
    HorizonIsEndOfNextMonth(endDate, localOffset);
    BeforeEndOfDay(t, Horizon(endDate, localOffset));
  }

  /** Before the last nanosecond of a local day means on that day or earlier. */
  lemma BeforeEndOfDay(t: Time, h: Time)
    requires ClockNs(h) == NsPerDay - 1
    ensures Before(t, h) || t.ns == h.ns <==> DayOf(Time(t.ns, h.offset)) <= DayOf(h)
  {
    var w := WallNs(Time(t.ns, h.offset));
    var n := DayOf(h);
    assert WallNs(h) == n * NsPerDay + ClockNs(h);
    assert (n + 1) * NsPerDay == n * NsPerDay + NsPerDay;
    assert Before(t, h) || t.ns == h.ns <==> w < WallNs(h) + 1;
    assert DayOf(Time(t.ns, h.offset)) == w / NsPerDay;
    FloorBelow(w, n);
  }

  /** `w` is below the start of day `n + 1` exactly when its day is at most `n`. */
  lemma FloorBelow(w: int, n: int)
    ensures w < (n + 1) * NsPerDay <==> w / NsPerDay <= n
  {
    var q := w / NsPerDay;
    assert w == q * NsPerDay + w % NsPerDay;
    if q <= n {
      MulMonotonic(q + 1, n + 1);
    } else {
      MulMonotonic(n + 1, q);
    }
  }

  lemma MulMonotonic(a: int, b: int)
    requires a <= b
    ensures a * NsPerDay <= b * NsPerDay
  {
  }

  // ---------------------------------------------------------------------------
  // `riResume`

  function Count(x: ReservedInstance): int { x.instanceCount }

  function Invested(x: ReservedInstance): real { x.instanceCount as real * x.fixedPrice }

  function Power(x: ReservedInstance): real { x.instanceCount as real * x.normalizationFactor }

  function TypeOf(x: ReservedInstance): string { x.instanceType }

  /** The records whose end date is strictly before `horizon`. */
  function ExpiresBefore(horizon: Time): ReservedInstance -> bool
  {
    (x: ReservedInstance) => Before(x.endDate, horizon)
  }

  /** The reservation totals: instances, money invested, and instances whose
      reservation ends before the horizon. */
  function Resume(ris: seq<ReservedInstance>, horizon: Time): Reservations
  {
    Reservations(SumInt(ris, Count), Sum(ris, Invested), SumIntSel(ris, Count, ExpiresBefore(horizon)))
  }

  method RiResume(ris: seq<ReservedInstance>, horizon: Time) returns (r: Reservations)
    ensures r == Resume(ris, horizon)
  {
    r := Reservations(0, 0.0, 0);
    for i := 0 to |ris|
      invariant r == Resume(ris[..i], horizon)
    {
      var instance := ris[i];
      assert ris[..i + 1][..i] == ris[..i];
      r := r.(totalActiveRICost := r.totalActiveRICost + instance.instanceCount as real * instance.fixedPrice);
      r := r.(totalActiveRI := r.totalActiveRI + instance.instanceCount);
      if Before(instance.endDate, horizon) {
        r := r.(reservesWillExpire := r.reservesWillExpire + instance.instanceCount);
      }
    }
    assert ris[..|ris|] == ris;
  }

  /** With non-negative counts, the expiring instances are some of the active ones. */
  lemma {:induction false} ExpiringAtMostActive(ris: seq<ReservedInstance>, horizon: Time)
    requires forall i :: 0 <= i < |ris| ==> ris[i].instanceCount >= 0
    ensures 0 <= Resume(ris, horizon).reservesWillExpire <= Resume(ris, horizon).totalActiveRI
  {
    if ris != [] {
      ExpiringAtMostActive(ris[..|ris| - 1], horizon);
    }
  }

  // ---------------------------------------------------------------------------
  // `getRIProducts` and `collectOrderedDates`

  /** Instance types with at least one record ending before the horizon. */
  function ExpiringTypes(ris: seq<ReservedInstance>, horizon: Time): set<string>
  {
    if ris == [] then {}
    else
      var x := ris[|ris| - 1];
      ExpiringTypes(ris[..|ris| - 1], horizon) + (if Before(x.endDate, horizon) then {x.instanceType} else {})
  }

  /** A record's end date as `EndDate.Format("2006-01-02")` prints it. */
  function ExpiryDay(x: ReservedInstance): string { IsoDate(x.endDate) }

  /** The "2006-01-02" end dates of the records of type `t` ending before the horizon. */
  function ExpiryDates(ris: seq<ReservedInstance>, horizon: Time, t: string): set<string>
  {
    SetWhere(ris, ExpiryDay, ExpiresBefore(horizon), TypeOf, t)
  }

  lemma {:induction false} ExpiringTypesMembers(ris: seq<ReservedInstance>, horizon: Time)
    ensures forall t :: t in ExpiringTypes(ris, horizon) <==>
                        exists i :: 0 <= i < |ris| && Before(ris[i].endDate, horizon) && ris[i].instanceType == t
  {
    if ris != [] {
      var init := ris[..|ris| - 1];
      ExpiringTypesMembers(init, horizon);
      forall t | exists i :: 0 <= i < |ris| && Before(ris[i].endDate, horizon) && ris[i].instanceType == t
        ensures t in ExpiringTypes(ris, horizon)
      {
        var i :| 0 <= i < |ris| && Before(ris[i].endDate, horizon) && ris[i].instanceType == t;
        if i < |init| {
          assert init[i] == ris[i];
        }
      }
      forall t | t in ExpiringTypes(init, horizon)
        ensures exists i :: 0 <= i < |ris| && Before(ris[i].endDate, horizon) && ris[i].instanceType == t
      {
        var i :| 0 <= i < |init| && Before(init[i].endDate, horizon) && init[i].instanceType == t;
        assert ris[i] == init[i];
      }
    }
  }

  /** A type with no expiring record has nothing summed. */
  lemma {:induction false} AbsentTypeIsEmpty(ris: seq<ReservedInstance>, horizon: Time, t: string)
    requires t !in ExpiringTypes(ris, horizon)
    ensures SumIntWhere(ris, Count, ExpiresBefore(horizon), TypeOf, t) == 0
  {
    if ris != [] {
      AbsentTypeIsEmpty(ris[..|ris| - 1], horizon, t);
    }
  }

  /** Nor any weight, whatever the per-record weight `w`. */
  lemma {:induction false} AbsentTypeHasNoWeight(ris: seq<ReservedInstance>, horizon: Time, w: ReservedInstance -> real, t: string)
    requires t !in ExpiringTypes(ris, horizon)
    ensures SumWhere(ris, w, ExpiresBefore(horizon), TypeOf, t) == 0.0
  {
    if ris != [] {
      AbsentTypeHasNoWeight(ris[..|ris| - 1], horizon, w, t);
    }
  }

  /** Nor any day, whatever the per-record day `d`. */
  lemma {:induction false} AbsentTypeHasNoDays(ris: seq<ReservedInstance>, horizon: Time, d: ReservedInstance -> string, t: string)
    requires t !in ExpiringTypes(ris, horizon)
    ensures SetWhere(ris, d, ExpiresBefore(horizon), TypeOf, t) == {}
  {
    if ris != [] {
      AbsentTypeHasNoDays(ris[..|ris| - 1], horizon, d, t);
    }
  }

  /** How one more record changes the expiring types and counts. */
  lemma AppendOne(ris: seq<ReservedInstance>, i: int, horizon: Time, t: string)
    requires 0 <= i < |ris|
    ensures var x := ris[i];
            var hit := Before(x.endDate, horizon) && x.instanceType == t;
            && (t in ExpiringTypes(ris[..i + 1], horizon) <==> t in ExpiringTypes(ris[..i], horizon) || hit)
            && SumIntWhere(ris[..i + 1], Count, ExpiresBefore(horizon), TypeOf, t)
               == SumIntWhere(ris[..i], Count, ExpiresBefore(horizon), TypeOf, t) + (if hit then x.instanceCount else 0)
  {
    assert ris[..i + 1][..i] == ris[..i];
  }

  /** How one more record changes the summed weight of a type. */
  lemma AppendOneWeight(ris: seq<ReservedInstance>, i: int, horizon: Time, w: ReservedInstance -> real, t: string)
    requires 0 <= i < |ris|
    ensures var x := ris[i];
            var hit := Before(x.endDate, horizon) && x.instanceType == t;
            && (t in ExpiringTypes(ris[..i + 1], horizon) <==> t in ExpiringTypes(ris[..i], horizon) || hit)
            && SumWhere(ris[..i + 1], w, ExpiresBefore(horizon), TypeOf, t)
               == SumWhere(ris[..i], w, ExpiresBefore(horizon), TypeOf, t) + (if hit then w(x) else 0.0)
  {
    assert ris[..i + 1][..i] == ris[..i];
  }

  /** How one more record changes the days of a type. */
  lemma AppendOneDay(ris: seq<ReservedInstance>, i: int, horizon: Time, d: ReservedInstance -> string, t: string)
    requires 0 <= i < |ris|
    ensures var x := ris[i];
            var hit := Before(x.endDate, horizon) && x.instanceType == t;
            SetWhere(ris[..i + 1], d, ExpiresBefore(horizon), TypeOf, t)
              == SetWhere(ris[..i], d, ExpiresBefore(horizon), TypeOf, t) + (if hit then {d(x)} else {})
  {
    assert ris[..i + 1][..i] == ris[..i];
  }

  predicate StrictlyAscending(s: seq<string>)
  {
    forall p, q :: 0 <= p < q < |s| ==> Less(s[p], s[q])
  }

  /** What `getRIProducts` returns, up to the order Go visits its map in: one
      product per instance type with an expiring record, carrying the type's
      expiring instance count, its computational power (count times factor)
      and its distinct expiry dates in ascending order. */
  ghost predicate ExpiringProducts(products: seq<RIProduct>, ris: seq<ReservedInstance>, horizon: Time)
  {
    && (forall i, j :: 0 <= i < j < |products| ==> products[i].instanceType != products[j].instanceType)
    && (forall t :: t in ExpiringTypes(ris, horizon) <==> exists i :: 0 <= i < |products| && products[i].instanceType == t)
    && forall i :: 0 <= i < |products| ==>
         && products[i].reserves == SumIntWhere(ris, Count, ExpiresBefore(horizon), TypeOf, products[i].instanceType)
         && products[i].computationalPower == SumWhere(ris, Power, ExpiresBefore(horizon), TypeOf, products[i].instanceType)
         && StrictlyAscending(products[i].dates)
         && forall day :: day in products[i].dates <==> day in ExpiryDates(ris, horizon, products[i].instanceType)
  }

  function Reserves(p: RIProduct): int { p.reserves }

  /** What the first loop of `getRIProducts` knows about the count and date
      entries of type `t` after the records `s`: they exist exactly when one
      of `t`'s records expires, and then hold its expiring count and the set
      of the days `d` of those records. */
  ghost predicate CountsAt(er: map<string, int>, erd: map<string, map<string, int>>,
                           s: seq<ReservedInstance>, horizon: Time, d: ReservedInstance -> string, t: string)
  {
    && (t in er <==> t in ExpiringTypes(s, horizon))
    && (t in erd <==> t in er)
    && (t in er ==> er[t] == SumIntWhere(s, Count, ExpiresBefore(horizon), TypeOf, t)
                    && erd[t].Keys == SetWhere(s, d, ExpiresBefore(horizon), TypeOf, t))
  }

  /** The same for the weight entries, summing the weight `w` of the records. */
  ghost predicate WeightAt(erc: map<string, real>, s: seq<ReservedInstance>, horizon: Time,
                           w: ReservedInstance -> real, t: string)
  {
    && (t in erc <==> t in ExpiringTypes(s, horizon))
    && (t in erc ==> erc[t] == SumWhere(s, w, ExpiresBefore(horizon), TypeOf, t))
  }

  ghost predicate AccumulatedBy(er: map<string, int>, erc: map<string, real>, erd: map<string, map<string, int>>,
                                s: seq<ReservedInstance>, horizon: Time, w: ReservedInstance -> real, d: ReservedInstance -> string)
  {
    && (forall t {:trigger CountsAt(er, erd, s, horizon, d, t)} :: CountsAt(er, erd, s, horizon, d, t))
    && (forall t {:trigger WeightAt(erc, s, horizon, w, t)} :: WeightAt(erc, s, horizon, w, t))
  }

  /** The invariant of the first loop of `getRIProducts`: for every type, its
      expiring count, power and days. */
  ghost predicate Accumulated(er: map<string, int>, erc: map<string, real>, erd: map<string, map<string, int>>,
                              s: seq<ReservedInstance>, horizon: Time)
  {
    AccumulatedBy(er, erc, erd, s, horizon, Power, ExpiryDay)
  }

  /** The count and date entries for `k` after the loop body has seen `x`, which
      ends on `day`: an expiring record adds its count and its day to the
      entries of its type, creating them when absent; every other entry stays
      as it was. */
  ghost predicate StepCountsAt(er: map<string, int>, erd: map<string, map<string, int>>, x: ReservedInstance, day: string,
                               horizon: Time, er2: map<string, int>, erd2: map<string, map<string, int>>, k: string)
  {
    if Before(x.endDate, horizon) && k == x.instanceType then
      && k in er2 && k in erd2
      && er2[k] == (if k in er then er[k] else 0) + x.instanceCount
      && erd2[k].Keys == (if k in erd then erd[k].Keys else {}) + {day}
    else
      && (k in er2 <==> k in er) && (k in erd2 <==> k in erd)
      && (k in er ==> er2[k] == er[k])
      && (k in erd ==> erd2[k] == erd[k])
  }

  /** The weight entry for `k` after the loop body has added `wx`, the weight of `x`. */
  ghost predicate StepWeightAt(erc: map<string, real>, x: ReservedInstance, wx: real, horizon: Time,
                               erc2: map<string, real>, k: string)
  {
    if Before(x.endDate, horizon) && k == x.instanceType then
      k in erc2 && erc2[k] == (if k in erc then erc[k] else 0.0) + wx
    else
      (k in erc2 <==> k in erc) && (k in erc ==> erc2[k] == erc[k])
  }

  lemma CountsStep(ris: seq<ReservedInstance>, i: int, horizon: Time, d: ReservedInstance -> string,
                   er: map<string, int>, erd: map<string, map<string, int>>,
                   er2: map<string, int>, erd2: map<string, map<string, int>>, t: string)
    requires 0 <= i < |ris|
    requires CountsAt(er, erd, ris[..i], horizon, d, t)
    requires StepCountsAt(er, erd, ris[i], d(ris[i]), horizon, er2, erd2, t)
    ensures CountsAt(er2, erd2, ris[..i + 1], horizon, d, t)
  {
    AppendOne(ris, i, horizon, t);
    AppendOneDay(ris, i, horizon, d, t);
    if t !in er {
      AbsentTypeIsEmpty(ris[..i], horizon, t);
      AbsentTypeHasNoDays(ris[..i], horizon, d, t);
    }
  }

  lemma WeightStep(ris: seq<ReservedInstance>, i: int, horizon: Time, w: ReservedInstance -> real,
                   erc: map<string, real>, erc2: map<string, real>, t: string)
    requires 0 <= i < |ris|
    requires WeightAt(erc, ris[..i], horizon, w, t)
    requires StepWeightAt(erc, ris[i], w(ris[i]), horizon, erc2, t)
    ensures WeightAt(erc2, ris[..i + 1], horizon, w, t)
  {
    AppendOneWeight(ris, i, horizon, w, t);
    if t !in erc {
      AbsentTypeHasNoWeight(ris[..i], horizon, w, t);
    }
  }

  /** The body of the first loop of `getRIProducts` for an expiring record `x`
      that ends on `day`: add its count, its power and its day to the entries
      of its instance type, creating them when absent. */
  method AddExpiring(expireReserve: map<string, int>, expireReserveComputational: map<string, real>,
                     expireReserveDate: map<string, map<string, int>>, x: ReservedInstance, day: string, horizon: Time)
    returns (er2: map<string, int>, erc2: map<string, real>, erd2: map<string, map<string, int>>)
    requires Before(x.endDate, horizon)
    ensures forall k :: StepCountsAt(expireReserve, expireReserveDate, x, day, horizon, er2, erd2, k)
    ensures forall k :: StepWeightAt(expireReserveComputational, x, Power(x), horizon, erc2, k)
  {
    var t := x.instanceType;
    er2 := expireReserve[t := (if t in expireReserve then expireReserve[t] else 0) + x.instanceCount];
    erc2 := expireReserveComputational[t :=
      (if t in expireReserveComputational then expireReserveComputational[t] else 0.0)
      + x.instanceCount as real * x.normalizationFactor];
    var dates := if t in expireReserveDate then expireReserveDate[t] else map[];
    ghost var before := dates;
    dates := dates[day := (if day in dates then dates[day] else 0) + 1];
    assert dates.Keys == before.Keys + {day};
    erd2 := expireReserveDate[t := dates];
  }

  /** What `Accumulated` says, key by key. */
  lemma AccumulatedFacts(er: map<string, int>, erc: map<string, real>, erd: map<string, map<string, int>>,
                         ris: seq<ReservedInstance>, horizon: Time)
    requires Accumulated(er, erc, erd, ris, horizon)
    ensures forall t :: t in er <==> t in ExpiringTypes(ris, horizon)
    ensures forall t :: (t in erc <==> t in er) && (t in erd <==> t in er)
    ensures forall t :: t in er ==>
              && er[t] == SumIntWhere(ris, Count, ExpiresBefore(horizon), TypeOf, t)
              && erc[t] == SumWhere(ris, Power, ExpiresBefore(horizon), TypeOf, t)
              && erd[t].Keys == ExpiryDates(ris, horizon, t)
  {
    forall t
      ensures (t in er <==> t in ExpiringTypes(ris, horizon)) && (t in erc <==> t in er) && (t in erd <==> t in er)
      ensures t in er ==>
                && er[t] == SumIntWhere(ris, Count, ExpiresBefore(horizon), TypeOf, t)
                && erc[t] == SumWhere(ris, Power, ExpiresBefore(horizon), TypeOf, t)
                && erd[t].Keys == ExpiryDates(ris, horizon, t)
    {
      assert CountsAt(er, erd, ris, horizon, ExpiryDay, t);
      assert WeightAt(erc, ris, horizon, Power, t);
    }
  }

  /** One iteration of the first loop keeps `AccumulatedBy`. */
  lemma AccumulateStep(ris: seq<ReservedInstance>, i: int, horizon: Time, w: ReservedInstance -> real,
                       d: ReservedInstance -> string, day: string,
                       er: map<string, int>, erc: map<string, real>, erd: map<string, map<string, int>>,
                       er2: map<string, int>, erc2: map<string, real>, erd2: map<string, map<string, int>>)
    requires 0 <= i < |ris| && day == d(ris[i])
    requires AccumulatedBy(er, erc, erd, ris[..i], horizon, w, d)
    requires forall k :: StepCountsAt(er, erd, ris[i], day, horizon, er2, erd2, k)
    requires forall k :: StepWeightAt(erc, ris[i], w(ris[i]), horizon, erc2, k)
    ensures AccumulatedBy(er2, erc2, erd2, ris[..i + 1], horizon, w, d)
  {
    var s2 := ris[..i + 1];
    forall t ensures CountsAt(er2, erd2, s2, horizon, d, t) {
      CountsStep(ris, i, horizon, d, er, erd, er2, erd2, t);
    }
    forall t ensures WeightAt(erc2, s2, horizon, w, t) {
      WeightStep(ris, i, horizon, w, erc, erc2, t);
    }
  }

  /** The first loop of `getRIProducts`: per instance type, the expiring
      count, the expiring power and the set of expiry dates (kept as the keys
      of a map of counts, as in Go). */
  method AccumulateExpiring(ris: seq<ReservedInstance>, horizon: Time)
    returns (expireReserve: map<string, int>, expireReserveComputational: map<string, real>,
             expireReserveDate: map<string, map<string, int>>)
    ensures forall t :: t in expireReserve <==> t in ExpiringTypes(ris, horizon)
    ensures forall t :: (t in expireReserveComputational <==> t in expireReserve)
                        && (t in expireReserveDate <==> t in expireReserve)
    ensures forall t :: t in expireReserve ==>
              && expireReserve[t] == SumIntWhere(ris, Count, ExpiresBefore(horizon), TypeOf, t)
              && expireReserveComputational[t] == SumWhere(ris, Power, ExpiresBefore(horizon), TypeOf, t)
              && expireReserveDate[t].Keys == ExpiryDates(ris, horizon, t)
  {
    expireReserve := map[];
    expireReserveComputational := map[];
    expireReserveDate := map[];
    for i := 0 to |ris|
      invariant Accumulated(expireReserve, expireReserveComputational, expireReserveDate, ris[..i], horizon)
    {
      var instance := ris[i];
      ghost var er, erc, erd := expireReserve, expireReserveComputational, expireReserveDate;
      if Before(instance.endDate, horizon) {
        var day := IsoDate(instance.endDate);
        expireReserve, expireReserveComputational, expireReserveDate :=
          AddExpiring(expireReserve, expireReserveComputational, expireReserveDate, instance, day, horizon);
        AccumulateStep(ris, i, horizon, Power, ExpiryDay, day, er, erc, erd,
                       expireReserve, expireReserveComputational, expireReserveDate);
      } else {
        AccumulateStep(ris, i, horizon, Power, ExpiryDay, ExpiryDay(instance), er, erc, erd,
                       expireReserve, expireReserveComputational, expireReserveDate);
      }
    }
    assert ris[..|ris|] == ris;
    AccumulatedFacts(expireReserve, expireReserveComputational, expireReserveDate, ris, horizon);
  }

  /** `getRIProducts`: the first loop gathers the per-type figures, the second
      builds one product per type, in the order Go visits the map. */
  method GetRIProducts(ris: seq<ReservedInstance>, horizon: Time) returns (products: seq<RIProduct>)
    ensures ExpiringProducts(products, ris, horizon)
    ensures SumInt(products, Reserves) == Resume(ris, horizon).reservesWillExpire
  {
    var expireReserve, expireReserveComputational, expireReserveDate := AccumulateExpiring(ris, horizon);
    ghost var types;
    products, types := BuildProducts(expireReserve, expireReserveComputational, expireReserveDate);
    ProductsMeetSpec(products, types, expireReserve, expireReserveComputational, expireReserveDate, ris, horizon);
    ReservesAddUp(products, types, ris, horizon);
  }

  /** The product built for type `t` from the accumulated maps. */
  ghost predicate ProductOf(p: RIProduct, t: string, er: map<string, int>, erc: map<string, real>, erd: map<string, map<string, int>>)
  {
    && p.instanceType == t && t in er && t in erc && t in erd
    && p.reserves == er[t]
    && p.computationalPower == erc[t]
    && StrictlyAscending(p.dates)
    && forall day :: day in p.dates <==> day in erd[t]
  }

  /** The second loop of `getRIProducts`: one product per key of the maps,
      with its dates sorted; `types` records the order the keys were visited in. */
  method BuildProducts(expireReserve: map<string, int>, expireReserveComputational: map<string, real>,
                       expireReserveDate: map<string, map<string, int>>)
    returns (products: seq<RIProduct>, ghost types: seq<string>)
    requires forall t :: (t in expireReserveComputational <==> t in expireReserve)
                         && (t in expireReserveDate <==> t in expireReserve)
    ensures Distinct(types) && |products| == |types|
    ensures forall t :: t in expireReserve <==> t in types
    ensures forall i :: 0 <= i < |products| ==>
              ProductOf(products[i], types[i], expireReserve, expireReserveComputational, expireReserveDate)
  {
    products := [];
    types := [];
    var rest := expireReserve.Keys;
    while rest != {}
      invariant rest <= expireReserve.Keys
      invariant Distinct(types) && |products| == |types|
      invariant forall t :: t in expireReserve <==> t in rest || t in types
      invariant forall t :: t in types ==> t !in rest
      invariant forall i :: 0 <= i < |products| ==>
                  ProductOf(products[i], types[i], expireReserve, expireReserveComputational, expireReserveDate)
      decreases |rest|
    {
      var instanceType :| instanceType in rest;
      var dates := CollectOrderedDates(expireReserveDate[instanceType]);
      products := products + [RIProduct(instanceType, expireReserve[instanceType],
                                        expireReserveComputational[instanceType], dates)];
      types := types + [instanceType];
      rest := rest - {instanceType};
    }
  }

  /** The products built from the accumulated maps are the expiring products. */
  lemma ProductsMeetSpec(products: seq<RIProduct>, types: seq<string>,
                         er: map<string, int>, erc: map<string, real>, erd: map<string, map<string, int>>,
                         ris: seq<ReservedInstance>, horizon: Time)
    requires forall t :: t in er <==> t in ExpiringTypes(ris, horizon)
    requires forall t :: (t in erc <==> t in er) && (t in erd <==> t in er)
    requires forall t :: t in er ==>
               && er[t] == SumIntWhere(ris, Count, ExpiresBefore(horizon), TypeOf, t)
               && erc[t] == SumWhere(ris, Power, ExpiresBefore(horizon), TypeOf, t)
               && erd[t].Keys == ExpiryDates(ris, horizon, t)
    requires Distinct(types) && |products| == |types|
    requires forall t :: t in er <==> t in types
    requires forall i :: 0 <= i < |products| ==> ProductOf(products[i], types[i], er, erc, erd)
    ensures ExpiringProducts(products, ris, horizon)
  {
    forall t ensures t in ExpiringTypes(ris, horizon) <==> exists i :: 0 <= i < |products| && products[i].instanceType == t {
      if t in types {
        var i :| 0 <= i < |types| && types[i] == t;
        assert products[i].instanceType == t;
      }
    }
  }

  /** Products carrying, type by type, the expiring count of their type add up
      to the expiring count of `riResume`. */
  lemma ReservesAddUp(products: seq<RIProduct>, types: seq<string>, ris: seq<ReservedInstance>, horizon: Time)
    requires Distinct(types) && |products| == |types|
    requires forall t :: t in types <==> t in ExpiringTypes(ris, horizon)
    requires forall i :: 0 <= i < |products| ==>
               products[i].reserves == SumIntWhere(ris, Count, ExpiresBefore(horizon), TypeOf, types[i])
    ensures SumInt(products, Reserves) == Resume(ris, horizon).reservesWillExpire
  {
    SumIntOfMapped(products, Reserves, types, GroupSumInt(ris, Count, ExpiresBefore(horizon), TypeOf));
    ExpiringTypesMembers(ris, horizon);
    KeyedIntSumsAddUp(ris, Count, ExpiresBefore(horizon), TypeOf, types);
  }

  /** `collectOrderedDates`: the keys of the date set, sorted with `sort.Sort`. */
  method CollectOrderedDates(mapset: map<string, int>) returns (keys: seq<string>)
    ensures StrictlyAscending(keys)
    ensures forall day :: day in keys <==> day in mapset
  {
    var collected: seq<string> := [];
    var rest := mapset.Keys;
    while rest != {}
      invariant rest <= mapset.Keys
      invariant Distinct(collected)
      invariant forall day :: day in mapset <==> day in rest || day in collected
      invariant forall day :: day in collected ==> day !in rest
      decreases |rest|
    {
      var key :| key in rest;
      collected := collected + [key];
      rest := rest - {key};
    }
    var a := new string[|collected|](i requires 0 <= i < |collected| => collected[i]);
    assert a[..] == collected;
    LessEqIsTotalPreorder();
    SortBy(a, LessEq);
    keys := a[..];
    PermutationKeepsDistinct(collected, keys);
    forall day ensures day in keys <==> day in collected {
      assert day in keys <==> day in multiset(keys);
      assert day in collected <==> day in multiset(collected);
    }
  }

  /** `formatReserved`, without the HTML: it stores the reservation totals in
      `gi` and returns the products of the expiration table. */
  method FormatReserved(ris: seq<ReservedInstance>, gi: GeneralInformation, endDate: Time, localOffset: int)
    returns (products: seq<RIProduct>)
    modifies gi
    ensures gi.State() == old(gi.State()).(reservations := Resume(ris, Horizon(endDate, localOffset)))
    ensures ExpiringProducts(products, ris, Horizon(endDate, localOffset))
  {
    var nextReport := Horizon(endDate, localOffset);
    var reservations := RiResume(ris, nextReport);
    gi.reservations := reservations;
    products := GetRIProducts(ris, nextReport);
  }

  // ---------------------------------------------------------------------------
  // `proportionReserves`

  function NormFactor(r: ReservedInstanceReport): real { r.normalizationFactor }

  /** Σ of the normalization factors of the records under `key`; a missing key
      reads as 0, as a Go map does. */
  function UsageTotal(reportRI: map<string, seq<ReservedInstanceReport>>, key: string): real
  {
    if key in reportRI then Sum(reportRI[key], NormFactor) else 0.0
  }

  /** The on-demand ("Usage") and reserved ("DiscountedUsage") shares of the
      summed factors in percent, or `None` when the two together are not positive. */
  function Proportions(reportRI: map<string, seq<ReservedInstanceReport>>): (r: Option<(real, real)>)
    ensures var u := UsageTotal(reportRI, "Usage");
            var d := UsageTotal(reportRI, "DiscountedUsage");
            && (r.Some? <==> u + d > 0.0)
            && (r.Some? ==> r.value.0 + r.value.1 == 100.0)
            && (r.Some? ==> r.value.0 * (u + d) == 100.0 * u && r.value.1 * (u + d) == 100.0 * d)
  {
    var u := UsageTotal(reportRI, "Usage");
    var d := UsageTotal(reportRI, "DiscountedUsage");
    var total := u + d;
    if total > 0.0 then
      SharesAddUp(u, d);
      Some(((u / total) * 100.0, (d / total) * 100.0))
    else None
  }

  lemma SharesAddUp(u: real, d: real)
    requires u + d > 0.0
    ensures (u / (u + d)) * 100.0 + (d / (u + d)) * 100.0 == 100.0
    ensures (u / (u + d)) * 100.0 * (u + d) == 100.0 * u
    ensures (d / (u + d)) * 100.0 * (u + d) == 100.0 * d
  {
    var t := u + d;
    assert u / t + d / t == t / t;
  }

  /** With non-negative factors, each share is a percentage. */
  lemma ProportionsWithinRange(reportRI: map<string, seq<ReservedInstanceReport>>)
    requires forall k, i :: k in reportRI && 0 <= i < |reportRI[k]| ==> reportRI[k][i].normalizationFactor >= 0.0
    ensures Proportions(reportRI).Some? ==>
              0.0 <= Proportions(reportRI).value.0 <= 100.0 && 0.0 <= Proportions(reportRI).value.1 <= 100.0
  {
    if "Usage" in reportRI {
      SumNonNegative(reportRI["Usage"]);
    }
    if "DiscountedUsage" in reportRI {
      SumNonNegative(reportRI["DiscountedUsage"]);
    }
  }

  lemma {:induction false} SumNonNegative(s: seq<ReservedInstanceReport>)
    requires forall i :: 0 <= i < |s| ==> s[i].normalizationFactor >= 0.0
    ensures Sum(s, NormFactor) >= 0.0
  {
    if s != [] {
      SumNonNegative(s[..|s| - 1]);
    }
  }

  /** `proportionReserves`: sets the two shares when the total is positive and
      leaves `gi` as it was otherwise. */
  method ProportionReserves(reportRI: map<string, seq<ReservedInstanceReport>>, gi: GeneralInformation)
    modifies gi
    ensures gi.State() == match Proportions(reportRI)
                          case None => old(gi.State())
                          case Some((u, d)) => old(gi.State()).(usageProportion := u, discountedProportion := d)
  {
    var totalUsages := TotalUsages(reportRI);
    var usage, discounted := Get(totalUsages, "Usage"), Get(totalUsages, "DiscountedUsage");
    assert usage == UsageTotal(reportRI, "Usage") && discounted == UsageTotal(reportRI, "DiscountedUsage");
    var total := usage + discounted;
    if total > 0.0 {
      gi.usageProportion := (usage / total) * 100.0;
      gi.discountedProportion := (discounted / total) * 100.0;
    }
  }

  /** The loops of `proportionReserves`: the summed factors under every key,
      a missing key reading as 0. */
  method TotalUsages(reportRI: map<string, seq<ReservedInstanceReport>>) returns (totalUsages: map<string, real>)
    ensures forall k :: Get(totalUsages, k) == UsageTotal(reportRI, k)
  {
    totalUsages := map[];
    var keys := reportRI.Keys;
    while keys != {}
      invariant keys <= reportRI.Keys
      invariant forall k :: Get(totalUsages, k) == if k in reportRI && k !in keys then Sum(reportRI[k], NormFactor) else 0.0
      decreases |keys|
    {
      var key :| key in keys;
      keys := keys - {key};
      totalUsages := AddFactors(totalUsages, key, reportRI[key]);
    }
  }

  /** The inner loop of `proportionReserves`: adds the factors of `report` to
      the entry of `key` and leaves the other entries alone. */
  method AddFactors(totalUsages: map<string, real>, key: string, report: seq<ReservedInstanceReport>)
    returns (updated: map<string, real>)
    ensures Get(updated, key) == Get(totalUsages, key) + Sum(report, NormFactor)
    ensures forall k :: k != key ==> Get(updated, k) == Get(totalUsages, k)
  {
    updated := totalUsages;
    for j := 0 to |report|
      invariant Get(updated, key) == Get(totalUsages, key) + Sum(report[..j], NormFactor)
      invariant forall k :: k != key ==> Get(updated, k) == Get(totalUsages, k)
    {
      assert report[..j + 1][..j] == report[..j];
      updated := updated[key := Get(updated, key) + report[j].normalizationFactor];
    }
    assert report[..|report|] == report;
  }

  // ---------------------------------------------------------------------------
  // `getUnreservedInstance`

  /** `endDate.Sub(startDate).Hours()`. */
  function IntervalHours(startDate: Time, endDate: Time): real
  {
    (endDate.ns - startDate.ns) as real / 3_600_000_000_000.0
  }

  /** A price lookup; a missing instance type reads as 0. */
  function Price(prices: map<string, real>, instanceType: string): real
  {
    if instanceType in prices then prices[instanceType] else 0.0
  }

  /** The instance type named by a usage record's family and factor. */
  function SuggestedType(usage: ReservedInstanceReport): string
  {
    usage.family + "." + AwsUtils.InverseNormalizationFactor(usage.normalizationFactor)
  }

  /** The suggestion made for one usage record, if any. */
  function Suggest(usage: ReservedInstanceReport, prices: map<string, real>, hours: real): Option<UnreservedSuggestion>
  {
    var instanceType := SuggestedType(usage);
    if usage.family != "" && Price(prices, instanceType) > 0.0 && hours > 0.0 && usage.normalizationFactor > 0.0 then
      var hoursUsage := usage.normalizedUsage / usage.normalizationFactor;
      var machines := Ceil(hoursUsage / hours);
      var riCost := machines as real * Price(prices, instanceType) * hours;
      Some(UnreservedSuggestion(instanceType, Quotient(100.0 * (usage.cost - riCost), usage.cost), riCost, machines, usage.cost))
    else None
  }

  /** A suggestion is made exactly when the family is known, the type has a
      price, and the interval and the factor are positive; its machine count is
      the least that covers the record's hours of use within the interval, and
      its difference is the saving relative to the on-demand cost, in percent. */
  lemma SuggestSpec(usage: ReservedInstanceReport, prices: map<string, real>, hours: real)
    ensures var s := Suggest(usage, prices, hours);
            && (s.Some? <==> usage.family != "" && Price(prices, SuggestedType(usage)) > 0.0 && hours > 0.0
                             && usage.normalizationFactor > 0.0)
            && (s.Some? ==>
                  var used := usage.normalizedUsage / usage.normalizationFactor;
                  && s.value.machines as real * hours >= used
                  && (s.value.machines - 1) as real * hours < used
                  && s.value.instanceType == SuggestedType(usage)
                  && s.value.unreservedCost == usage.cost
                  && s.value.riCost == s.value.machines as real * Price(prices, s.value.instanceType) * hours
                  && s.value.difference == Quotient(100.0 * (usage.cost - s.value.riCost), usage.cost))
  {
    if hours > 0.0 && usage.normalizationFactor > 0.0 {
      CeilCovers(usage.normalizedUsage / usage.normalizationFactor, hours);
    }
  }

  lemma CeilCovers(used: real, hours: real)
    requires hours > 0.0
    ensures Ceil(used / hours) as real * hours >= used
    ensures (Ceil(used / hours) - 1) as real * hours < used
  {
    var x := used / hours;
    assert x * hours == used;
    var n := Ceil(x) as real;
    assert (Ceil(x) - 1) as real == n - 1.0;
    assert n - 1.0 < x;
    MulLess(x, n, hours);
    MulLess(n - 1.0, x, hours);
    assert (n - 1.0) * hours < used;
  }

  lemma MulLess(a: real, b: real, c: real)
    requires c > 0.0
    ensures a <= b ==> a * c <= b * c
    ensures a < b ==> a * c < b * c
  {
  }

  /** The suggestions for `usages`, in input order, at most one per record. */
  function Suggestions(usages: seq<ReservedInstanceReport>, prices: map<string, real>, hours: real): (r: seq<UnreservedSuggestion>)
    ensures |r| <= |usages|
  {
    if usages == [] then []
    else
      Suggestions(usages[..|usages| - 1], prices, hours)
        + match Suggest(usages[|usages| - 1], prices, hours) case Some(s) => [s] case None => []
  }

  /** Appending one record appends its suggestion, if it makes one. */
  lemma SuggestionsStep(usages: seq<ReservedInstanceReport>, i: int, prices: map<string, real>, hours: real)
    requires 0 <= i < |usages|
    ensures Suggestions(usages[..i + 1], prices, hours)
              == Suggestions(usages[..i], prices, hours)
                 + match Suggest(usages[i], prices, hours) case Some(s) => [s] case None => []
  {
    assert usages[..i + 1][..i] == usages[..i];
  }

  /** The body of the loop of `getUnreservedInstance`, for one usage record. */
  method SuggestFor(usage: ReservedInstanceReport, productsPrice: map<string, real>, hours: real)
    returns (found: bool, suggestion: UnreservedSuggestion)
    ensures found <==> Suggest(usage, productsPrice, hours).Some?
    ensures found ==> suggestion == Suggest(usage, productsPrice, hours).value
  {
    var instanceType := usage.family + "." + AwsUtils.InverseNormalizationFactor(usage.normalizationFactor);
    var price := if instanceType in productsPrice then productsPrice[instanceType] else 0.0;
    suggestion := UnreservedSuggestion("", Finite(0.0), 0.0, 0, 0.0);
    found := usage.family != "" && price > 0.0 && hours > 0.0 && usage.normalizationFactor > 0.0;
    if found {
      var hoursUsage := usage.normalizedUsage / usage.normalizationFactor;
      var machines := Ceil(hoursUsage / hours);
      var riCost := machines as real * price * hours;
      var difference := Quotient(100.0 * (usage.cost - riCost), usage.cost);
      suggestion := UnreservedSuggestion(instanceType, difference, riCost, machines, usage.cost);
    }
  }

  /** `getUnreservedInstance`: the suggestions for the usage records, in order. */
  method GetUnreservedInstance(usages: seq<ReservedInstanceReport>, productsPrice: map<string, real>, startDate: Time, endDate: Time)
    returns (unreserveds: seq<UnreservedSuggestion>)
    ensures unreserveds == Suggestions(usages, productsPrice, IntervalHours(startDate, endDate))
  {
    var hours := IntervalHours(startDate, endDate);
    unreserveds := [];
    for i := 0 to |usages|
      invariant unreserveds == Suggestions(usages[..i], productsPrice, hours)
    {
      SuggestionsStep(usages, i, productsPrice, hours);
      var found, suggestion := SuggestFor(usages[i], productsPrice, hours);
      if found {
        unreserveds := unreserveds + [suggestion];
      }
    }
    assert usages[..|usages|] == usages;
  }

  /** A record with no cost never yields a positive difference: the division by
      a zero cost gives negative infinity, or NaN when nothing was used. */
  lemma ZeroCostNeverPositive(usage: ReservedInstanceReport, prices: map<string, real>, hours: real)
    requires usage.cost == 0.0 && usage.normalizedUsage >= 0.0
    ensures Suggest(usage, prices, hours).Some? ==> !Positive(Suggest(usage, prices, hours).value.difference)
  {
    var s := Suggest(usage, prices, hours);
    SuggestSpec(usage, prices, hours);
    if s.Some? {
      var used := usage.normalizedUsage / usage.normalizationFactor;
      assert used >= 0.0;
      assert s.value.machines >= 0;
      var price := Price(prices, s.value.instanceType);
      assert s.value.machines as real * price >= 0.0;
      assert s.value.riCost >= 0.0;
      QuotientPositive(100.0 * (usage.cost - s.value.riCost), usage.cost);
    }
  }

  lemma {:induction false} ZeroCostUsagesSuggestNothing(usages: seq<ReservedInstanceReport>, prices: map<string, real>, hours: real)
    requires forall i :: 0 <= i < |usages| ==> usages[i].cost == 0.0 && usages[i].normalizedUsage >= 0.0
    ensures forall i :: 0 <= i < |Suggestions(usages, prices, hours)| ==>
              !Positive(Suggestions(usages, prices, hours)[i].difference)
  {
    if usages != [] {
      ZeroCostUsagesSuggestNothing(usages[..|usages| - 1], prices, hours);
      ZeroCostNeverPositive(usages[|usages| - 1], prices, hours);
    }
  }

  // ---------------------------------------------------------------------------
  // `formatTableUnreservedEc2`

  /** The table of suggestions, or the "no suggestion" text. */
  datatype SuggestionTable = NoSuggestion | Rows(rows: seq<UnreservedSuggestion>)

  /** The first `n` suggestions with a positive difference, in order. */
  function FirstPositive(s: seq<UnreservedSuggestion>, n: nat): seq<UnreservedSuggestion>
  {
    if s == [] || n == 0 then []
    else if Positive(s[0].difference) then [s[0]] + FirstPositive(s[1..], n - 1)
    else FirstPositive(s[1..], n)
  }

  /** All suggestions with a positive difference, in order. */
  function PositiveOnes(s: seq<UnreservedSuggestion>): (r: seq<UnreservedSuggestion>)
    ensures forall i :: 0 <= i < |r| ==> Positive(r[i].difference) && r[i] in s
  {
    if s == [] then []
    else if Positive(s[0].difference) then [s[0]] + PositiveOnes(s[1..])
    else PositiveOnes(s[1..])
  }


  /** The rows shown are the first up to `n` of the positive suggestions. */
  lemma {:induction false} FirstPositiveIsPrefix(s: seq<UnreservedSuggestion>, n: nat)
    ensures FirstPositive(s, n) == PositiveOnes(s)[..Min(n, |PositiveOnes(s)|)]
  {
    if s != [] && n != 0 {
      FirstPositiveIsPrefix(s[1..], if Positive(s[0].difference) then n - 1 else n);
    }
  }

  /** No positive suggestion at all is the only way to get an empty table. */
  lemma {:induction false} NoPositiveOnes(s: seq<UnreservedSuggestion>)
    ensures PositiveOnes(s) == [] <==> forall i :: 0 <= i < |s| ==> !Positive(s[i].difference)
  {
    if s != [] {
      NoPositiveOnes(s[1..]);
      assert forall i :: 1 <= i < |s| ==> s[i] == s[1..][i - 1];
    }
  }

  predicate CostAtLeast(x: UnreservedSuggestion, y: UnreservedSuggestion)
  {
    x.unreservedCost >= y.unreservedCost
  }

  /** `formatTableUnreservedEc2`, without the HTML: sorts the suggestions by
      on-demand cost, most expensive first, and shows at most 7 of those whose
      difference is positive, or the "no suggestion" text when there is none. */
  method FormatTableUnreservedEc2(us: array<UnreservedSuggestion>) returns (table: SuggestionTable)
    modifies us
    ensures SortedBy(us[..], CostAtLeast) && multiset(us[..]) == multiset(old(us[..]))
    ensures table == if FirstPositive(us[..], 7) == [] then NoSuggestion else Rows(FirstPositive(us[..], 7))
  {
    SortBy(us, CostAtLeast);
    var sorted := us[..];
    var shown: seq<UnreservedSuggestion> := [];
    var suggestionsCount := 0;
    var i := 0;
    while suggestionsCount < 7 && |sorted| > i
      invariant us[..] == sorted
      invariant 0 <= i <= |sorted| && suggestionsCount == |shown| <= 7
      invariant shown + FirstPositive(sorted[i..], 7 - suggestionsCount) == FirstPositive(sorted, 7)
    {
      FirstPositiveStep(sorted, i, shown, 7 - suggestionsCount);
      if Positive(sorted[i].difference) {
        suggestionsCount := suggestionsCount + 1;
        shown := shown + [sorted[i]];
      }
      i := i + 1;
    }
    assert sorted[0..] == sorted;
    if suggestionsCount == 0 {
      table := NoSuggestion;
    } else {
      table := Rows(shown);
    }
  }

  /** Scanning one more suggestion: a positive one is shown, the others are
      skipped, and what is shown plus what is still to be shown stays the same. */
  lemma FirstPositiveStep(s: seq<UnreservedSuggestion>, i: int, shown: seq<UnreservedSuggestion>, n: nat)
    requires 0 <= i < |s| && n > 0
    ensures Positive(s[i].difference) ==>
              shown + FirstPositive(s[i..], n) == (shown + [s[i]]) + FirstPositive(s[i + 1..], n - 1)
    ensures !Positive(s[i].difference) ==>
              shown + FirstPositive(s[i..], n) == shown + FirstPositive(s[i + 1..], n)
  {
    assert s[i..][0] == s[i] && s[i..][1..] == s[i + 1..];
    if Positive(s[i].difference) {
      assert FirstPositive(s[i..], n) == [s[i]] + FirstPositive(s[i + 1..], n - 1);
      assert shown + ([s[i]] + FirstPositive(s[i + 1..], n - 1)) == (shown + [s[i]]) + FirstPositive(s[i + 1..], n - 1);
    }
  }

  /** `formatUnreservedEc2`, without the HTML and the metrics submission: the
      suggestions for the "Usage" records, sorted by on-demand cost, most
      expensive first, of which the table shows the first 7 with a positive
      difference; it shows nothing exactly when no suggestion has one. */
  method FormatUnreservedEc2(rRI: map<string, seq<ReservedInstanceReport>>, ec2pp: map<string, real>, startDate: Time, endDate: Time)
    returns (table: SuggestionTable)
    ensures var s := Suggestions(if "Usage" in rRI then rRI["Usage"] else [], ec2pp, IntervalHours(startDate, endDate));
            exists sorted :: SortedBy(sorted, CostAtLeast) && multiset(sorted) == multiset(s)
                             && table == (if FirstPositive(sorted, 7) == [] then NoSuggestion else Rows(FirstPositive(sorted, 7)))
    ensures var s := Suggestions(if "Usage" in rRI then rRI["Usage"] else [], ec2pp, IntervalHours(startDate, endDate));
            table.NoSuggestion? <==> forall i :: 0 <= i < |s| ==> !Positive(s[i].difference)
  {
    var usages := if "Usage" in rRI then rRI["Usage"] else [];
    var suggestions := GetUnreservedInstance(usages, ec2pp, startDate, endDate);
    var a := new UnreservedSuggestion[|suggestions|](i requires 0 <= i < |suggestions| => suggestions[i]);
    assert a[..] == suggestions;
    table := FormatTableUnreservedEc2(a);
    FirstPositiveEmpty(a[..], 7);
    NoPositiveIsPermutationInvariant(a[..], suggestions);
  }

  /** The table is empty exactly when no suggestion has a positive difference. */
  lemma FirstPositiveEmpty(s: seq<UnreservedSuggestion>, n: nat)
    requires n > 0
    ensures FirstPositive(s, n) == [] <==> forall i :: 0 <= i < |s| ==> !Positive(s[i].difference)
  {
    FirstPositiveIsPrefix(s, n);
    NoPositiveOnes(s);
  }

  lemma NoPositiveIsPermutationInvariant(s: seq<UnreservedSuggestion>, t: seq<UnreservedSuggestion>)
    requires multiset(s) == multiset(t)
    ensures (forall i :: 0 <= i < |s| ==> !Positive(s[i].difference)) <==> (forall i :: 0 <= i < |t| ==> !Positive(t[i].difference))
  {
    forall x ensures x in s <==> x in t {
      assert x in s <==> x in multiset(s);
      assert x in t <==> x in multiset(t);
    }
    if forall i :: 0 <= i < |s| ==> !Positive(s[i].difference) {
      forall i | 0 <= i < |t| ensures !Positive(t[i].difference) {
        assert t[i] in s;
      }
    }
    if forall i :: 0 <= i < |t| ==> !Positive(t[i].difference) {
      forall i | 0 <= i < |s| ensures !Positive(s[i].difference) {
        assert s[i] in t;
      }
    }
  }
}
