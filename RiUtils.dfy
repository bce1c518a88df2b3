/** aws/ri/utils.go: the reserved-instance records and this package's copy of
    `familyNormalizeFactor`. */
module RiUtils {
  import opened Common
  import opened Calendar
  import opened InstanceType
  import AwsUtils

  /** A reserved-instance purchase, as fetched from EC2. */
  datatype ReservedInstance = ReservedInstance(
    reservedInstancesId: string,
    offeringType: string,
    endDate: Time,
    scope: string,
    usagePrice: real,
    startDate: Time,
    state: string,
    productDescription: string,
    currencyCode: string,
    duration: int,
    instanceType: string,
    instanceCount: int,
    availabilityZone: string,
    fixedPrice: real,
    offeringClass: string,
    family: string,
    normalizationFactor: real,
    region: string)

  /** One usage aggregate; `usageType` is the record's `Type` ("Usage",
      "DiscountedUsage", ...). */
  datatype ReservedInstanceReport = ReservedInstanceReport(
    usageType: string,
    family: string,
    normalizationFactor: real,
    normalizedUsage: real,
    cost: real)

  const NormalizationFactor: map<string, real> := map[
    "nano" := 0.25,
    "micro" := 0.5,
    "small" := 1.0,
    "medium" := 2.0,
    "large" := 4.0,
    "xlarge" := 8.0,
    "2xlarge" := 16.0,
    "4xlarge" := 32.0,
    "8xlarge" := 64.0,
    "9xlarge" := 72.0,
    "10xlarge" := 80.0,
    "12xlarge" := 96.0,
    "16xlarge" := 128.0,
    "18xlarge" := 144.0,
    "24xlarge" := 192.0,
    "32xlarge" := 256.0
  ]

  /** The factor of a size token; a Go map yields 0 for a missing key. */
  function Factor(size: string): real
  {
    if size in NormalizationFactor then NormalizationFactor[size] else 0.0
  }

  /** `familyNormalizeFactor`: splits "<family>.<size>" and looks the size up. */
  function FamilyNormalizeFactor(instanceType: string): (r: (string, real))
    ensures '\n' !in instanceType ==>
      var d := LastIndexOf(instanceType, '.');
      r == if d > 0 && IsSizeToken(instanceType[d + 1..]) then (instanceType[..d], Factor(instanceType[d + 1..]))
           else ("unknown", 0.0)
  {
    NewlineFreeMatch(instanceType);
    match FindSubmatch(instanceType)
    case Some((family, size)) => (family, Factor(size))
    case None => ("unknown", 0.0)
  }

  /** This copy of the table is entry for entry `aws.Normalization`. */
  lemma TableIsNormalization()
    ensures NormalizationFactor == AwsUtils.Normalization
  {
  }

  /** Splitting "<family>.<size>" and naming the factor again rebuilds the
      instance type, for every size in the table. */
  lemma InverseRebuildsInstanceType(family: string, size: string)
    requires family != [] && '\n' !in family && size in NormalizationFactor
    ensures var (f, factor) := FamilyNormalizeFactor(family + "." + size);
            f == family && factor == AwsUtils.Normalization[size]
            && f + "." + AwsUtils.InverseNormalizationFactor(factor) == family + "." + size
  {
    TableIsNormalization();
    TokensAreSizeTokens();
    MatchOfFamilyAndSize(family, size);
    AwsUtils.InverseOfFactor(size);
  }

  /** "db.m4.large" keeps everything before the last dot as the family. */
  lemma ExampleFamilyKeepsPrefix()
    ensures FamilyNormalizeFactor("db.m4.large") == ("db.m4", 4.0)
  {
    var family, size := "db.m4", "large";
    assert IsSizeToken(size) && '\n' !in family;
    MatchOfFamilyAndSize(family, size);
    assert family + "." + size == "db.m4.large";
  }

  /** A well-formed size missing from the table gives factor 0, not "unknown". */
  lemma ExampleUnknownSize()
    ensures FamilyNormalizeFactor("m5.metal") == ("m5", 0.0)
  {
    var family, size := "m5", "metal";
    assert IsSizeToken(size) && '\n' !in family;
    MatchOfFamilyAndSize(family, size);
    assert family + "." + size == "m5.metal";
  }

  /** Without a dot, or with nothing before it, there is no match. */
  lemma ExampleNoMatch()
    ensures FamilyNormalizeFactor("m5") == ("unknown", 0.0)
    ensures FamilyNormalizeFactor(".large") == ("unknown", 0.0)
  {
    assert LastIndexOf("m5", '.') == -1;
    assert LastIndexOf(".large", '.') == 0;
  }

  /** A size with trailing digits is not a size token: no match. */
  lemma ExampleTrailingDigits()
    ensures FamilyNormalizeFactor("m5.large2") == ("unknown", 0.0)
  {
    var family, size := "m5", "large2";
    assert !IsSizeToken(size) && '.' !in size;
    NoMatchOfBadSize(family, size);
    assert family + "." + size == "m5.large2";
  }
}
