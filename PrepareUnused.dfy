/** reports/prepare_unused.go without the HTML: the low-used EC2 and RDS
    instances grouped by type or class, the counters and costs they add to
    `GeneralInformation`, and the five most expensive groups of the tables.
    Whether an instance is low-used is decided by `IsInstanceUnused` of the
    usageReports packages, which is not part of this model: it is a parameter. */
module PrepareUnused {
  import opened Common
  import opened Sorting
  import opened ReportTypes
  import RdsUtils

  // ---------------------------------------------------------------------------
  // The grouping loop shared by `getLowUsedEc2` and `getLowUsedRds`

  /** The zero `LowUsedInstance`, which Go's map read yields for a missing key. */
  function NoInstances(): LowUsedInstance { LowUsedInstance("", 0.0, 0.0, []) }

  function GetGroup(m: map<string, LowUsedInstance>, k: string): LowUsedInstance
  {
    if k in m then m[k] else NoInstances()
  }

  /** The sum of an instance's costs, whatever their keys. */
  ghost function CostOf<T>(costs: T -> map<string, real>): T -> real
  {
    x => MapSum(costs(x))
  }

  /** The names of the selected elements with key `k`, in input order. */
  function NamesWhere<T, K(==)>(s: seq<T>, name: T -> string, sel: T -> bool, key: T -> K, k: K): seq<string>
  {
    if s == [] then []
    else
      var x := s[|s| - 1];
      NamesWhere(s[..|s| - 1], name, sel, key, k) + (if sel(x) && key(x) == k then [name(x)] else [])
  }

  function One<T>(x: T): int { 1 }

  /** The group of key `k`: the instance type stays "" (it is never assigned),
      the power and the cost are those of the low-used instances with that key,
      and there is one name per such instance. */
  ghost function Group<T>(s: seq<T>, unused: T -> bool, key: T -> string, power: T -> real,
                          costs: T -> map<string, real>, name: T -> string, k: string): LowUsedInstance
  {
    LowUsedInstance("", SumWhere(s, power, unused, key, k), SumWhere(s, CostOf(costs), unused, key, k),
                    NamesWhere(s, name, unused, key, k))
  }

  /** The loop over the instances: for each low-used one, the sum of its costs
      is added to the running count and total and to the group of its key. */
  method GroupUnused<T>(s: seq<T>, unused: T -> bool, key: T -> string, power: T -> real,
                        costs: T -> map<string, real>, name: T -> string)
    returns (lowUsed: map<string, LowUsedInstance>, count: int, total: real)
    ensures count == SumIntSel(s, One, unused)
    ensures total == SumSel(s, CostOf(costs), unused)
    ensures lowUsed.Keys == KeysWhere(s, unused, key)
    ensures forall k :: GetGroup(lowUsed, k) == Group(s, unused, key, power, costs, name, k)
  {
    lowUsed, count, total := map[], 0, 0.0;
    for i := 0 to |s|
      invariant count == SumIntSel(s[..i], One, unused)
      invariant total == SumSel(s[..i], CostOf(costs), unused)
      invariant lowUsed.Keys == KeysWhere(s[..i], unused, key)
      invariant forall k :: GetGroup(lowUsed, k) == Group(s[..i], unused, key, power, costs, name, k)
    {
      GroupStep(s, i, unused, key, power, costs, name);
      var x := s[i];
      if unused(x) {
        var cost := MapTotal(costs(x));
        count := count + 1;
        total := total + cost;
        var prev := GetGroup(lowUsed, key(x));
        ghost var before := lowUsed;
        lowUsed := lowUsed[key(x) := LowUsedInstance(prev.instanceType, prev.computationalPower + power(x),
                                                     prev.cost + cost, prev.names + [name(x)])];
        forall k ensures GetGroup(lowUsed, k) == Group(s[..i + 1], unused, key, power, costs, name, k) {
          if k != key(x) {
            assert GetGroup(lowUsed, k) == GetGroup(before, k);
          }
        }
      }
    }
    assert s[..|s|] == s;
  }

  /** One more instance changes only the group of its key, and only when it is low-used. */
  lemma GroupStep<T>(s: seq<T>, i: int, unused: T -> bool, key: T -> string, power: T -> real,
                     costs: T -> map<string, real>, name: T -> string)
    requires 0 <= i < |s|
    ensures SumIntSel(s[..i + 1], One, unused) == SumIntSel(s[..i], One, unused) + (if unused(s[i]) then 1 else 0)
    ensures SumSel(s[..i + 1], CostOf(costs), unused)
            == SumSel(s[..i], CostOf(costs), unused) + (if unused(s[i]) then MapSum(costs(s[i])) else 0.0)
    ensures KeysWhere(s[..i + 1], unused, key) == KeysWhere(s[..i], unused, key) + (if unused(s[i]) then {key(s[i])} else {})
    ensures forall k :: Group(s[..i + 1], unused, key, power, costs, name, k)
                        == var g := Group(s[..i], unused, key, power, costs, name, k);
                           if unused(s[i]) && key(s[i]) == k
                           then LowUsedInstance(g.instanceType, g.computationalPower + power(s[i]),
                                                g.cost + MapSum(costs(s[i])), g.names + [name(s[i])])
                           else g
  {
    assert s[..i + 1][..i] == s[..i];
  }

  /** The loop copying the map's values into a slice, in the map's order;
      `keys` are the keys they were read from. */
  method Values(m: map<string, LowUsedInstance>) returns (values: seq<LowUsedInstance>, ghost keys: seq<string>)
    ensures |keys| == |values| && Distinct(keys)
    ensures forall k :: k in m <==> k in keys
    ensures forall i :: 0 <= i < |values| ==> keys[i] in m && values[i] == m[keys[i]]
  {
    values, keys := [], [];
    var rest := m.Keys;
    while rest != {}
      invariant rest <= m.Keys && |keys| == |values| && Distinct(keys)
      invariant forall k :: k in m <==> k in rest || k in keys
      invariant forall k :: k in rest ==> k !in keys
      invariant forall i :: 0 <= i < |values| ==> keys[i] in m && values[i] == m[keys[i]]
      decreases |rest|
    {
      var k :| k in rest;
      values, keys := values + [m[k]], keys + [k];
      rest := rest - {k};
    }
  }

  /** `groups` holds exactly one group per key of a low-used instance; `keys`
      says which. */
  ghost predicate GroupsOf<T>(groups: seq<LowUsedInstance>, keys: seq<string>, s: seq<T>, unused: T -> bool,
                              key: T -> string, power: T -> real, costs: T -> map<string, real>, name: T -> string)
  {
    && |keys| == |groups| && Distinct(keys)
    && (forall k :: k in keys <==> k in KeysWhere(s, unused, key))
    && (forall i :: 0 <= i < |groups| ==> groups[i] == Group(s, unused, key, power, costs, name, keys[i]))
  }

  function GroupCost(g: LowUsedInstance): real { g.cost }

  function GroupSize(g: LowUsedInstance): int { |g.names| }

  /** The groups' costs add up to the cost of all low-used instances, and
      their names to one per low-used instance. */
  lemma GroupsAddUp<T>(groups: seq<LowUsedInstance>, keys: seq<string>, s: seq<T>, unused: T -> bool,
                       key: T -> string, power: T -> real, costs: T -> map<string, real>, name: T -> string)
    requires GroupsOf(groups, keys, s, unused, key, power, costs, name)
    ensures Sum(groups, GroupCost) == SumSel(s, CostOf(costs), unused)
    ensures SumInt(groups, GroupSize) == SumIntSel(s, One, unused)
  {
    SumOfMapped(groups, GroupCost, keys, GroupSum(s, CostOf(costs), unused, key));
    forall k | k in keys ensures |NamesWhere(s, name, unused, key, k)| == SumIntWhere(s, One, unused, key, k) {
      NamesCount(s, name, unused, key, k);
    }
    SumIntOfMapped(groups, GroupSize, keys, GroupSumInt(s, One, unused, key));
    KeyedSumsAddUp(s, CostOf(costs), unused, key, keys);
    KeyedIntSumsAddUp(s, One, unused, key, keys);
  }

  lemma {:induction false} NamesCount<T>(s: seq<T>, name: T -> string, unused: T -> bool, key: T -> string, k: string)
    ensures |NamesWhere(s, name, unused, key, k)| == SumIntWhere(s, One, unused, key, k)
  {
    if s != [] {
      NamesCount(s[..|s| - 1], name, unused, key, k);
    }
  }

  // ---------------------------------------------------------------------------
  // `getLowUsedEc2`

  function Ec2Type(x: Ec2Instance): string { x.instanceType }

  function Ec2Factor(x: Ec2Instance): real { x.normalizationFactor }

  function Ec2Costs(x: Ec2Instance): map<string, real> { x.costs }

  /** `Tags["Name"]`, "" when the instance has no such tag. */
  function Ec2Name(x: Ec2Instance): string { if "Name" in x.tags then x.tags["Name"] else "" }

  /** `getLowUsedEc2`: counts the low-used instances and their cost in `gi` and
      returns one group per instance type, in the map's order. */
  method GetLowUsedEc2(instances: seq<Ec2Instance>, unused: Ec2Instance -> bool, gi: GeneralInformation)
    returns (groups: seq<LowUsedInstance>, ghost types: seq<string>)
    modifies gi
    ensures gi.State() == old(gi.State()).(
              lowUsedInstancesEc2 := old(gi.lowUsedInstancesEc2) + SumIntSel(instances, One, unused),
              totalLowUsedInatancesEc2Cost := old(gi.totalLowUsedInatancesEc2Cost) + SumSel(instances, CostOf(Ec2Costs), unused))
    ensures GroupsOf(groups, types, instances, unused, Ec2Type, Ec2Factor, Ec2Costs, Ec2Name)
  {
    var lowUsed, count, total := GroupUnused(instances, unused, Ec2Type, Ec2Factor, Ec2Costs, Ec2Name);
    gi.lowUsedInstancesEc2 := gi.lowUsedInstancesEc2 + count;
    gi.totalLowUsedInatancesEc2Cost := gi.totalLowUsedInatancesEc2Cost + total;
    groups, types := Values(lowUsed);
    forall i | 0 <= i < |groups|
      ensures groups[i] == Group(instances, unused, Ec2Type, Ec2Factor, Ec2Costs, Ec2Name, types[i])
    {
      assert GetGroup(lowUsed, types[i]) == lowUsed[types[i]];
    }
  }

  // ---------------------------------------------------------------------------
  // `getLowUsedRds`

  function RdsClass(x: RdsUtils.InstanceReport): string { x.instance.dbInstanceClass }

  function RdsFactor(x: RdsUtils.InstanceReport): real { x.instance.normalizationFactor }

  function RdsCosts(x: RdsUtils.InstanceReport): map<string, real> { x.instance.costs }

  /** `getLowUsedRds`: counts every instance and the low-used ones with their
      cost in `gi`, and returns one group per instance class, in the map's
      order; the names it records are the class, not the identifier. */
  method GetLowUsedRds(instances: seq<RdsUtils.InstanceReport>, unused: RdsUtils.InstanceReport -> bool, gi: GeneralInformation)
    returns (groups: seq<LowUsedInstance>, ghost classes: seq<string>)
    modifies gi
    ensures gi.State() == old(gi.State()).(
              totalInstancesRds := old(gi.totalInstancesRds) + |instances|,
              lowUsedInstancesRds := old(gi.lowUsedInstancesRds) + SumIntSel(instances, One, unused),
              lowUsedRdsCost := old(gi.lowUsedRdsCost) + SumSel(instances, CostOf(RdsCosts), unused))
    ensures GroupsOf(groups, classes, instances, unused, RdsClass, RdsFactor, RdsCosts, RdsClass)
  {
    var lowUsed, count, total := GroupUnused(instances, unused, RdsClass, RdsFactor, RdsCosts, RdsClass);
    gi.totalInstancesRds := gi.totalInstancesRds + |instances|;
    gi.lowUsedInstancesRds := gi.lowUsedInstancesRds + count;
    gi.lowUsedRdsCost := gi.lowUsedRdsCost + total;
    groups, classes := Values(lowUsed);
    forall i | 0 <= i < |groups|
      ensures groups[i] == Group(instances, unused, RdsClass, RdsFactor, RdsCosts, RdsClass, classes[i])
    {
      assert GetGroup(lowUsed, classes[i]) == lowUsed[classes[i]];
    }
  }

  /** Every name of an RDS group is the group's class. */
  lemma {:induction false} RdsNamesAreClasses(s: seq<RdsUtils.InstanceReport>, unused: RdsUtils.InstanceReport -> bool, c: string)
    ensures forall j :: 0 <= j < |NamesWhere(s, RdsClass, unused, RdsClass, c)| ==> NamesWhere(s, RdsClass, unused, RdsClass, c)[j] == c
  {
    if s != [] {
      RdsNamesAreClasses(s[..|s| - 1], unused, c);
    }
  }

  // ---------------------------------------------------------------------------
  // `formatEc2Table`

  predicate CostAtLeast(x: LowUsedInstance, y: LowUsedInstance)
  {
    x.cost >= y.cost
  }

  /** `formatEc2Table`, without the HTML: sorts the groups by cost, largest
      first, and shows the first five. */
  method FormatEc2Table(lowUsed: array<LowUsedInstance>) returns (shown: seq<LowUsedInstance>)
    modifies lowUsed
    ensures SortedBy(lowUsed[..], CostAtLeast) && multiset(lowUsed[..]) == multiset(old(lowUsed[..]))
    ensures shown == lowUsed[..Min(5, lowUsed.Length)]
  {
    SortBy(lowUsed, CostAtLeast);
    shown := [];
    var i := 0;
    while i < 5 && lowUsed.Length > i
      invariant 0 <= i <= Min(5, lowUsed.Length) && shown == lowUsed[..i]
    {
      shown := shown + [lowUsed[i]];
      i := i + 1;
    }
  }

  /** `formatUnusedEc2Instances`: the low-used EC2 groups, of which the table
      shows the five most expensive. */
  method FormatUnusedEc2Instances(instances: seq<Ec2Instance>, unused: Ec2Instance -> bool, gi: GeneralInformation)
    returns (shown: seq<LowUsedInstance>, groups: seq<LowUsedInstance>, ghost types: seq<string>)
    modifies gi
    ensures gi.State() == old(gi.State()).(
              lowUsedInstancesEc2 := old(gi.lowUsedInstancesEc2) + SumIntSel(instances, One, unused),
              totalLowUsedInatancesEc2Cost := old(gi.totalLowUsedInatancesEc2Cost) + SumSel(instances, CostOf(Ec2Costs), unused))
    ensures GroupsOf(groups, types, instances, unused, Ec2Type, Ec2Factor, Ec2Costs, Ec2Name)
    ensures exists sorted :: SortedBy(sorted, CostAtLeast) && multiset(sorted) == multiset(groups)
                             && shown == sorted[..Min(5, |sorted|)]
  {
    groups, types := GetLowUsedEc2(instances, unused, gi);
    shown := ShowMostExpensive(groups);
  }

  /** `formatUnusedRdsInstances`: the low-used RDS groups, shown through the
      same five-row table. */
  method FormatUnusedRdsInstances(instances: seq<RdsUtils.InstanceReport>, unused: RdsUtils.InstanceReport -> bool, gi: GeneralInformation)
    returns (shown: seq<LowUsedInstance>, groups: seq<LowUsedInstance>, ghost classes: seq<string>)
    modifies gi
    ensures gi.State() == old(gi.State()).(
              totalInstancesRds := old(gi.totalInstancesRds) + |instances|,
              lowUsedInstancesRds := old(gi.lowUsedInstancesRds) + SumIntSel(instances, One, unused),
              lowUsedRdsCost := old(gi.lowUsedRdsCost) + SumSel(instances, CostOf(RdsCosts), unused))
    ensures GroupsOf(groups, classes, instances, unused, RdsClass, RdsFactor, RdsCosts, RdsClass)
    ensures exists sorted :: SortedBy(sorted, CostAtLeast) && multiset(sorted) == multiset(groups)
                             && shown == sorted[..Min(5, |sorted|)]
  {
    groups, classes := GetLowUsedRds(instances, unused, gi);
    shown := ShowMostExpensive(groups);
  }

  /** Copies the groups into a slice and runs `formatEc2Table` on it. */
  method ShowMostExpensive(groups: seq<LowUsedInstance>) returns (shown: seq<LowUsedInstance>)
    ensures exists sorted :: SortedBy(sorted, CostAtLeast) && multiset(sorted) == multiset(groups)
                             && shown == sorted[..Min(5, |sorted|)]
  {
    var a := new LowUsedInstance[|groups|](i requires 0 <= i < |groups| => groups[i]);
    assert a[..] == groups;
    shown := FormatEc2Table(a);
    assert SortedBy(a[..], CostAtLeast) && multiset(a[..]) == multiset(groups);
  }
}
