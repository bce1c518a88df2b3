/** aws/utils.go: account-id validation and the instance-size normalization
    table with its inverse lookup. */
module AwsUtils {
  import opened Common

  /** `ValidateAwsAccounts`: `None` when every account id is exactly 12
      characters long, else the error for the first one that is not. Only the
      length is checked: characters are not required to be digits. */
  function ValidateAwsAccounts(accounts: seq<string>): (err: Option<string>)
    ensures err.None? <==> forall i :: 0 <= i < |accounts| ==> |accounts[i]| == 12
    ensures err.Some? ==> exists i :: 0 <= i < |accounts| && |accounts[i]| != 12
                            && (forall j :: 0 <= j < i ==> |accounts[j]| == 12)
                            && err.value == "invalid account format : " + accounts[i]
  {
    if accounts == [] then None
    else if |accounts[0]| != 12 then Some("invalid account format : " + accounts[0])
    else
      var rest := ValidateAwsAccounts(accounts[1..]);
      FirstInvalidShifts(accounts, rest);
      rest
  }

  lemma FirstInvalidShifts(accounts: seq<string>, rest: Option<string>)
    requires accounts != [] && |accounts[0]| == 12
    requires rest.Some? ==> exists i :: 0 <= i < |accounts[1..]| && |accounts[1..][i]| != 12
                              && (forall j :: 0 <= j < i ==> |accounts[1..][j]| == 12)
                              && rest.value == "invalid account format : " + accounts[1..][i]
    ensures rest.Some? ==> exists i :: 0 <= i < |accounts| && |accounts[i]| != 12
                             && (forall j :: 0 <= j < i ==> |accounts[j]| == 12)
                             && rest.value == "invalid account format : " + accounts[i]
  {
    if rest.Some? {
      var i :| 0 <= i < |accounts[1..]| && |accounts[1..][i]| != 12
               && (forall j :: 0 <= j < i ==> |accounts[1..][j]| == 12)
               && rest.value == "invalid account format : " + accounts[1..][i];
      forall j | 0 <= j < i + 1 ensures |accounts[j]| == 12 {
        if j > 0 { assert accounts[j] == accounts[1..][j - 1]; }
      }
      assert accounts[i + 1] == accounts[1..][i];
    }
  }

  /** `Normalization`: instance size token to normalization factor. */
  const Normalization: map<string, real> := map[
    "nano" := 0.25,
    "micro" := 0.5,
    "small" := 1.0,
    "medium" := 2.0,
    "large" := 4.0,
    "xlarge" := 8.0,
    "2xlarge" := 16.0,
    "4xlarge" := 32.0,
    "8xlarge" := 64.0,
    "9xlarge" := 72.0,
    "10xlarge" := 80.0,
    "12xlarge" := 96.0,
    "16xlarge" := 128.0,
    "18xlarge" := 144.0,
    "24xlarge" := 192.0,
    "32xlarge" := 256.0
  ]

  /** The table's tokens, in the order they are written. */
  const Tokens: seq<string> := ["nano", "micro", "small", "medium", "large", "xlarge", "2xlarge", "4xlarge",
                                "8xlarge", "9xlarge", "10xlarge", "12xlarge", "16xlarge", "18xlarge", "24xlarge", "32xlarge"]

  const Unknown: string := "unkown"

  function Abs(x: real): real
  {
    if x < 0.0 then -x else x
  }

  predicate Near(norm: real, f: real)
  {
    Abs(norm - f) < 0.001
  }

  /** The table has 16 entries, those listed in `Tokens`, with factors from
      0.25 (nano) to 256 (32xlarge). */
  lemma TableShape()
    ensures |Tokens| == 16
    ensures forall t :: t in Normalization <==> t in Tokens
    ensures forall t :: t in Normalization ==> 0.25 <= Normalization[t] <= 256.0
  {
  }

  lemma TokensDistinct()
    ensures Distinct(Tokens)
  {
  }

  /** The token whose factor is exactly `v`, by value. */
  function TokenOf(v: real): string
  {
    if v == 0.25 then "nano" else if v == 0.5 then "micro" else if v == 1.0 then "small"
    else if v == 2.0 then "medium" else if v == 4.0 then "large" else if v == 8.0 then "xlarge"
    else if v == 16.0 then "2xlarge" else if v == 32.0 then "4xlarge" else if v == 64.0 then "8xlarge"
    else if v == 72.0 then "9xlarge" else if v == 80.0 then "10xlarge" else if v == 96.0 then "12xlarge"
    else if v == 128.0 then "16xlarge" else if v == 144.0 then "18xlarge" else if v == 192.0 then "24xlarge"
    else if v == 256.0 then "32xlarge" else Unknown
  }

  /** Each factor determines its token, so the 16 factors are pairwise distinct. */
  lemma TokenOfFactor()
    ensures forall t :: t in Normalization ==> TokenOf(Normalization[t]) == t
  {
  }

  lemma {:induction false} FactorGap(v: real, w: real)
    requires v in Normalization.Values && w in Normalization.Values && v != w
    ensures Abs(v - w) >= 0.25
  {
  }

  /** Distinct tokens have factors at least 0.25 apart, so no factor is near two of them. */
  lemma {:induction false} FactorsApart(t: string, u: string)
    requires t in Normalization && u in Normalization && t != u
    ensures Abs(Normalization[t] - Normalization[u]) >= 0.25
  {
    TokenOfFactor();
    FactorGap(Normalization[t], Normalization[u]);
  }

  /** The first token of `order` whose factor is within 0.001 of `f`, or "unkown":
      the loop over the map, with `order` the order Go happened to visit it in. */
  function InverseIn(order: seq<string>, f: real): (name: string)
    requires forall i :: 0 <= i < |order| ==> order[i] in Normalization
    ensures name == Unknown || name in order
  {
    if order == [] then Unknown
    else if Near(Normalization[order[0]], f) then order[0]
    else InverseIn(order[1..], f)
  }

  /** `InverseNormalizationFactor`, visiting the table in written order. */
  function InverseNormalizationFactor(f: real): (name: string)
    ensures name == Unknown || name in Normalization
  {
    TableShape();
    InverseIn(Tokens, f)
  }

  lemma {:induction false} InverseInFinds(order: seq<string>, f: real, t: string)
    requires forall i :: 0 <= i < |order| ==> order[i] in Normalization
    requires t in order && Near(Normalization[t], f)
    ensures InverseIn(order, f) == t
  {
    if order[0] != t {
      assert !Near(Normalization[order[0]], f) by {
        FactorsApart(t, order[0]);
      }
      assert t in order[1..];
      InverseInFinds(order[1..], f, t);
    }
  }

  lemma {:induction false} InverseInMisses(order: seq<string>, f: real)
    requires forall i :: 0 <= i < |order| ==> order[i] in Normalization
    requires forall i :: 0 <= i < |order| ==> !Near(Normalization[order[i]], f)
    ensures InverseIn(order, f) == Unknown
  {
    if order != [] {
      InverseInMisses(order[1..], f);
    }
  }

  /** The lookup names the one token whose factor is within 0.001 of `f`, and
      "unkown" when there is none (for instance for 0); whatever order the map is
      visited in gives the same answer. */
  lemma InverseNormalizationFactorSpec(order: seq<string>, f: real)
    requires forall t :: t in Normalization <==> t in order
    ensures forall t :: t in Normalization && Near(Normalization[t], f) ==> InverseIn(order, f) == t
    ensures (forall t :: t in Normalization ==> !Near(Normalization[t], f)) ==> InverseIn(order, f) == Unknown
    ensures InverseIn(order, f) == InverseNormalizationFactor(f)
  {
    TableShape();
    if t :| t in Normalization && Near(Normalization[t], f) {
      InverseInFinds(order, f, t);
      InverseInFinds(Tokens, f, t);
      forall u | u in Normalization && Near(Normalization[u], f) ensures InverseIn(order, f) == u {
        InverseInFinds(order, f, u);
      }
    } else {
      InverseInMisses(order, f);
      InverseInMisses(Tokens, f);
    }
  }

  /** Round trip: looking up a token's own factor gives the token back. */
  lemma InverseOfFactor(t: string)
    requires t in Normalization
    ensures InverseNormalizationFactor(Normalization[t]) == t
  {
    TableShape();
    InverseInFinds(Tokens, Normalization[t], t);
  }
}
