/** aws/usageReports/rds/utils.go: the RDS instance record and this package's
    copy of `familyNormalizeFactor`, whose no-match sentinel is spelled "unkown". */
module RdsUtils {
  import opened Common
  import opened InstanceType
  import AwsUtils
  import Calendar

  /** An RDS instance as the usage report records it; `dbInstanceClass` is the
      class such as "db.t2.micro". */
  datatype Instance = Instance(
    dbInstanceIdentifier: string,
    availabilityZone: string,
    dbInstanceClass: string,
    engine: string,
    allocatedStorage: int,
    multiAZ: bool,
    costs: map<string, real>,
    family: string,
    normalizationFactor: real)

  /** An RDS instance as saved in Elasticsearch, with the account and date of its report. */
  datatype InstanceReport = InstanceReport(account: string, reportDate: Calendar.Time, reportType: string, instance: Instance)

  const NormalizationFactor: map<string, real> := map[
    "nano" := 0.25,
    "micro" := 0.5,
    "small" := 1.0,
    "medium" := 2.0,
    "large" := 4.0,
    "xlarge" := 8.0,
    "2xlarge" := 16.0,
    "4xlarge" := 32.0,
    "8xlarge" := 64.0,
    "9xlarge" := 72.0,
    "10xlarge" := 80.0,
    "12xlarge" := 96.0,
    "16xlarge" := 128.0,
    "18xlarge" := 144.0,
    "24xlarge" := 192.0,
    "32xlarge" := 256.0
  ]

  /** The factor of a size token; a Go map yields 0 for a missing key. */
  function Factor(size: string): real
  {
    if size in NormalizationFactor then NormalizationFactor[size] else 0.0
  }

  /** `familyNormalizeFactor`: splits "<family>.<size>" and looks the size up. */
  function FamilyNormalizeFactor(instanceType: string): (r: (string, real))
    ensures '\n' !in instanceType ==>
      var d := LastIndexOf(instanceType, '.');
      r == if d > 0 && IsSizeToken(instanceType[d + 1..]) then (instanceType[..d], Factor(instanceType[d + 1..]))
           else ("unkown", 0.0)
  {
    NewlineFreeMatch(instanceType);
    match FindSubmatch(instanceType)
    case Some((family, size)) => (family, Factor(size))
    case None => ("unkown", 0.0)
  }

  /** This copy of the table is entry for entry `aws.Normalization`. */
  lemma TableIsNormalization()
    ensures NormalizationFactor == AwsUtils.Normalization
  {
  }

  /** Splitting "<family>.<size>" and naming the factor again rebuilds the
      instance type, for every size in the table. */
  lemma InverseRebuildsInstanceType(family: string, size: string)
    requires family != [] && '\n' !in family && size in NormalizationFactor
    ensures var (f, factor) := FamilyNormalizeFactor(family + "." + size);
            f == family && factor == AwsUtils.Normalization[size]
            && f + "." + AwsUtils.InverseNormalizationFactor(factor) == family + "." + size
  {
    TableIsNormalization();
    TokensAreSizeTokens();
    MatchOfFamilyAndSize(family, size);
    AwsUtils.InverseOfFactor(size);
  }

  /** RDS classes keep their "db." prefix in the family. */
  lemma ExampleKeepsDbPrefix()
    ensures FamilyNormalizeFactor("db.t2.micro") == ("db.t2", 0.5)
  {
    var family, size := "db.t2", "micro";
    assert IsSizeToken(size) && '\n' !in family;
    MatchOfFamilyAndSize(family, size);
    assert family + "." + size == "db.t2.micro";
  }

  /** Non-matching classes give the sentinel spelled "unkown". */
  lemma ExampleNoMatch()
    ensures FamilyNormalizeFactor("db") == ("unkown", 0.0)
    ensures FamilyNormalizeFactor("db.t2.Large") == ("unkown", 0.0)
  {
    assert LastIndexOf("db", '.') == -1;
    var family, size := "db.t2", "Large";
    assert !IsSizeToken(size) && '.' !in size;
    NoMatchOfBadSize(family, size);
    assert family + "." + size == "db.t2.Large";
  }
}
