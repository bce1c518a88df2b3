/** aws/usageReports/ec2/utils.go: the EC2 instance record and this package's
    copy of `familyNormalizeFactor`. */
module Ec2Utils {
  import opened Common
  import opened InstanceType
  import AwsUtils
  import Calendar

  /** A CPU statistic of an instance, as read from CloudWatch. */
  datatype Cpu = Cpu(average: real, peak: real)

  /** The statistics of an instance; network and volume statistics are not
      part of this model. */
  datatype Stats = Stats(cpu: Cpu)

  datatype Tag = Tag(key: string, value: string)

  /** An EC2 instance as the usage report records it; `instanceType` is Go's `Type`. */
  datatype Instance = Instance(
    id: string,
    region: string,
    state: string,
    purchasing: string,
    keyPair: string,
    instanceType: string,
    tags: seq<Tag>,
    costs: map<string, real>,
    stats: Stats,
    normalizationFactor: real,
    family: string)

  /** An instance as saved in Elasticsearch, with the account and date of its report. */
  datatype InstanceReport = InstanceReport(account: string, reportDate: Calendar.Time, reportType: string, instance: Instance)

  const NormalizationFactor: map<string, real> := map[
    "nano" := 0.25,
    "micro" := 0.5,
    "small" := 1.0,
    "medium" := 2.0,
    "large" := 4.0,
    "xlarge" := 8.0,
    "2xlarge" := 16.0,
    "4xlarge" := 32.0,
    "8xlarge" := 64.0,
    "9xlarge" := 72.0,
    "10xlarge" := 80.0,
    "12xlarge" := 96.0,
    "16xlarge" := 128.0,
    "18xlarge" := 144.0,
    "24xlarge" := 192.0,
    "32xlarge" := 256.0
  ]

  /** The factor of a size token; a Go map yields 0 for a missing key. */
  function Factor(size: string): real
  {
    if size in NormalizationFactor then NormalizationFactor[size] else 0.0
  }

  /** `familyNormalizeFactor`: splits "<family>.<size>" and looks the size up. */
  function FamilyNormalizeFactor(instanceType: string): (r: (string, real))
    ensures '\n' !in instanceType ==>
      var d := LastIndexOf(instanceType, '.');
      r == if d > 0 && IsSizeToken(instanceType[d + 1..]) then (instanceType[..d], Factor(instanceType[d + 1..]))
           else ("unknown", 0.0)
  {
    NewlineFreeMatch(instanceType);
    match FindSubmatch(instanceType)
    case Some((family, size)) => (family, Factor(size))
    case None => ("unknown", 0.0)
  }

  /** This copy of the table is entry for entry `aws.Normalization`. */
  lemma TableIsNormalization()
    ensures NormalizationFactor == AwsUtils.Normalization
  {
  }

  /** Splitting "<family>.<size>" and naming the factor again rebuilds the
      instance type, for every size in the table. */
  lemma InverseRebuildsInstanceType(family: string, size: string)
    requires family != [] && '\n' !in family && size in NormalizationFactor
    ensures var (f, factor) := FamilyNormalizeFactor(family + "." + size);
            f == family && factor == AwsUtils.Normalization[size]
            && f + "." + AwsUtils.InverseNormalizationFactor(factor) == family + "." + size
  {
    TableIsNormalization();
    TokensAreSizeTokens();
    MatchOfFamilyAndSize(family, size);
    AwsUtils.InverseOfFactor(size);
  }

  lemma ExampleSplit()
    ensures FamilyNormalizeFactor("m5.2xlarge") == ("m5", 16.0)
  {
    var family, size := "m5", "2xlarge";
    assert IsSizeToken(size) && '\n' !in family;
    MatchOfFamilyAndSize(family, size);
    assert family + "." + size == "m5.2xlarge";
  }

  /** A well-formed size missing from the table gives factor 0 with the family. */
  lemma ExampleUnknownSize()
    ensures FamilyNormalizeFactor("c5.metal") == ("c5", 0.0)
  {
    var family, size := "c5", "metal";
    assert IsSizeToken(size) && '\n' !in family;
    MatchOfFamilyAndSize(family, size);
    assert family + "." + size == "c5.metal";
  }

  lemma ExampleNoMatch()
    ensures FamilyNormalizeFactor("t2") == ("unknown", 0.0)
    ensures FamilyNormalizeFactor("t2.") == ("unknown", 0.0)
  {
    assert LastIndexOf("t2", '.') == -1;
    assert LastIndexOf("t2.", '.') == 2;
    assert "t2."[3..] == "";
  }
}
