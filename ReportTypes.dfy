/** The report records of reports/prepare_mail.go and `GeneralInformation`, the
    accumulator every report section writes its totals into. */
module ReportTypes {
  import opened Floats

  datatype Reservations = Reservations(totalActiveRI: int, totalActiveRICost: real, reservesWillExpire: int)

  /** Low-used instances of one type or class, as grouped for the tables. */
  datatype LowUsedInstance = LowUsedInstance(instanceType: string, computationalPower: real, cost: real, names: seq<string>)

  datatype Histogram = Histogram(min: real, max: real, values: seq<int>, h: real, k: int)

  datatype S3Product = S3Product(name: string, total: real, valueGb: real, size: real, simbolSize: string)

  datatype RIProduct = RIProduct(instanceType: string, reserves: int, computationalPower: real, dates: seq<string>)

  /** `Difference` is a float64 percentage that may be infinite or NaN. */
  datatype UnreservedSuggestion = UnreservedSuggestion(
    instanceType: string,
    difference: Float,
    riCost: real,
    machines: int,
    unreservedCost: real)

  datatype Ec2Product = Ec2Product(family: string, value: real)

  /** The fields the report sections read of an EC2 instance report of the
      usageReports/ec2 package: the instance's type, family, normalization
      factor, average CPU use, costs per item and tags by key. */
  datatype Ec2Instance = Ec2Instance(
    instanceType: string,
    family: string,
    normalizationFactor: real,
    cpuAverage: real,
    costs: map<string, real>,
    tags: map<string, string>)

  /** Every field of `GeneralInformation` at one moment, so that a method can say
      which fields it changed and that the others kept their values. */
  datatype Snapshot = Snapshot(
    reservations: Reservations,
    lowUsedInstancesEc2: int,
    totalLowUsedInatancesEc2Cost: real,
    histogramUnusedEc2: Histogram,
    lowUsedInstancesRds: int,
    totalUsageS3: real,
    totalCostS3: real,
    totalInstancesS3: int,
    totalDailyUsageS3: real,
    totalDailyCostS3: real,
    usageProportion: real,
    discountedProportion: real,
    totalCostInstancesEC2: real,
    powerProductEc2: seq<Ec2Product>,
    totalPowerEc2: real,
    totalEc2Instances: int,
    unreservedEc2Instances: real,
    totalCostInstancesRDS: real,
    lowUsedRdsCost: real,
    totalInstancesRds: int)

  /** The summary the report sections fill in, passed around by pointer. */
  class GeneralInformation {
    var reservations: Reservations
    var lowUsedInstancesEc2: int
    var totalLowUsedInatancesEc2Cost: real
    var histogramUnusedEc2: Histogram
    var lowUsedInstancesRds: int
    var totalUsageS3: real
    var totalCostS3: real
    var totalInstancesS3: int
    var totalDailyUsageS3: real
    var totalDailyCostS3: real
    var usageProportion: real
    var discountedProportion: real
    var totalCostInstancesEC2: real
    var powerProductEc2: seq<Ec2Product>
    var totalPowerEc2: real
    var totalEc2Instances: int
    var unreservedEc2Instances: real
    var totalCostInstancesRDS: real
    var lowUsedRdsCost: real
    var totalInstancesRds: int

    function State(): Snapshot
      reads this
    {
      Snapshot(reservations, lowUsedInstancesEc2, totalLowUsedInatancesEc2Cost, histogramUnusedEc2,
               lowUsedInstancesRds, totalUsageS3, totalCostS3, totalInstancesS3, totalDailyUsageS3,
               totalDailyCostS3, usageProportion, discountedProportion, totalCostInstancesEC2,
               powerProductEc2, totalPowerEc2, totalEc2Instances, unreservedEc2Instances,
               totalCostInstancesRDS, lowUsedRdsCost, totalInstancesRds)
    }

    /** `&GeneralInformation{}`: every field at its zero value. */
    constructor()
      ensures State() == Zero()
    {
      reservations := Reservations(0, 0.0, 0);
      lowUsedInstancesEc2 := 0;
      totalLowUsedInatancesEc2Cost := 0.0;
      histogramUnusedEc2 := Histogram(0.0, 0.0, [], 0.0, 0);
      lowUsedInstancesRds := 0;
      totalUsageS3 := 0.0;
      totalCostS3 := 0.0;
      totalInstancesS3 := 0;
      totalDailyUsageS3 := 0.0;
      totalDailyCostS3 := 0.0;
      usageProportion := 0.0;
      discountedProportion := 0.0;
      totalCostInstancesEC2 := 0.0;
      powerProductEc2 := [];
      totalPowerEc2 := 0.0;
      totalEc2Instances := 0;
      unreservedEc2Instances := 0.0;
      totalCostInstancesRDS := 0.0;
      lowUsedRdsCost := 0.0;
      totalInstancesRds := 0;
    }
  }

  function Zero(): Snapshot
  {
    Snapshot(Reservations(0, 0.0, 0), 0, 0.0, Histogram(0.0, 0.0, [], 0.0, 0), 0, 0.0, 0.0, 0, 0.0, 0.0,
             0.0, 0.0, 0.0, [], 0.0, 0, 0.0, 0.0, 0.0, 0)
  }
}
