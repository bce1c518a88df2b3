/** costs/tags/tags_ec2.go: turning the Elasticsearch "tag group" buckets into
    one cost record per (application, owner) pair. The query itself is not part
    of this model; its outcome is a parameter. */
module TagsEc2 {
  import opened Common
  import opened Strings

  /** EC2 and RDS cost of one application/owner pair. */
  datatype ResourceTags = ResourceTags(owner: string, application: string, ec2Cost: real, rdsCost: real)

  /** A product-code bucket of a tag group, with its summed cost. */
  datatype ProductBucket = ProductBucket(product: string, cost: real)

  /** A tag-group bucket; `tagGroup` is a key such as "[app, owner]". */
  datatype TagGroupBucket = TagGroupBucket(tagGroup: string, products: seq<ProductBucket>)

  /** What the Elasticsearch request gave back: a failure with its status
      code, an aggregation that does not decode, or the decoded buckets. */
  datatype EsOutcome =
    | RequestFailed(returnCode: int, message: string)
    | Undecodable(message: string)
    | Decoded(buckets: seq<TagGroupBucket>)

  const StatusOK := 200
  const StatusInternalServerError := 500
  const TagGroupError := "The ES hasn't returned a tagroup with two values for only EC2 Instances Grouped by tags."

  /** The key with its leading '[' and trailing ']' characters removed, split at
      every ','; a key that does not give exactly two parts is rejected. The
      key is accepted exactly when the trimmed key holds one comma, and the two
      values joined by a comma give the trimmed key back. */
  function ParseTagGroup(key: string): (r: Option<(string, string)>)
    ensures var trimmed := TrimRight(TrimLeft(key, '['), ']');
            && (r.Some? <==> Count(trimmed, ',') == 1)
            && (r.Some? ==> ',' !in r.value.0 && ',' !in r.value.1 && r.value.0 + "," + r.value.1 == trimmed)
  {
    var tags := Split(TrimRight(TrimLeft(key, '['), ']'), ',');
    if |tags| != 2 then None
    else
      assert Join(tags, [',']) == tags[0] + "," + Join(tags[1..], [',']);
      Some((tags[0], tags[1]))
  }

  /** Keys as the query writes them, "[" + application + "," + owner + "]",
      give both values back, untrimmed, provided neither holds a comma, the
      application does not start with '[' and the owner does not end with ']'. */
  lemma ParseTagGroupOfKey(application: string, owner: string)
    requires ',' !in application && ',' !in owner
    requires application == [] || application[0] != '['
    requires owner == [] || owner[|owner| - 1] != ']'
    ensures ParseTagGroup("[" + application + "," + owner + "]") == Some((application, owner))
  {
    var key := "[" + application + "," + owner + "]";
    var inner := application + "," + owner;
    InnerEnds(application, owner);
    TrimBrackets(inner);
    SplitInner(application, owner);
    ParseOfParts(key, inner, application, owner);
  }

  lemma ParseOfParts(key: string, inner: string, application: string, owner: string)
    requires TrimRight(TrimLeft(key, '['), ']') == inner
    requires Split(inner, ',') == [application, owner]
    ensures ParseTagGroup(key) == Some((application, owner))
  {
  }

  lemma InnerEnds(application: string, owner: string)
    requires application == [] || application[0] != '['
    requires owner == [] || owner[|owner| - 1] != ']'
    ensures var inner := application + "," + owner;
            |inner| >= 1 && inner[0] != '[' && inner[|inner| - 1] != ']'
            && "[" + application + "," + owner + "]" == "[" + inner + "]"
  {
    var inner := application + "," + owner;
    assert inner[0] != '[' by {
      if application == [] { assert inner[0] == ','; } else { assert inner[0] == application[0]; }
    }
    assert inner[|inner| - 1] != ']' by {
      if owner == [] { assert inner[|inner| - 1] == ','; } else { assert inner[|inner| - 1] == owner[|owner| - 1]; }
    }
  }

  lemma SplitInner(application: string, owner: string)
    requires ',' !in application && ',' !in owner
    ensures Split(application + "," + owner, ',') == [application, owner]
  {
    assert Join([application, owner], [',']) == application + "," + owner;
    SplitJoin([application, owner], ',');
  }

  lemma TrimBrackets(inner: string)
    requires |inner| >= 1 && inner[0] != '[' && inner[|inner| - 1] != ']'
    ensures TrimRight(TrimLeft("[" + inner + "]", '['), ']') == inner
  {
    assert "[" + inner + "]" == ['['] + (inner + "]");
    TrimOneLeft(inner + "]", '[');
    TrimOneRight(inner, ']');
  }

  lemma TrimOneLeft(s: string, c: char)
    requires s == [] || s[0] != c
    ensures TrimLeft([c] + s, c) == s
  {
    assert ([c] + s)[1..] == s;
  }

  lemma TrimOneRight(s: string, c: char)
    requires s == [] || s[|s| - 1] != c
    ensures TrimRight(s + [c], c) == s
  {
    assert (s + [c])[..|s|] == s;
  }

  /** The EC2 cost of a tag group: the cost of its last "AmazonEC2" bucket, or 0. */
  function Ec2CostOf(products: seq<ProductBucket>): real
  {
    if products == [] then 0.0
    else if products[|products| - 1].product == "AmazonEC2" then products[|products| - 1].cost
    else Ec2CostOf(products[..|products| - 1])
  }

  /** The RDS cost of a tag group: the cost of its last bucket of any other product, or 0. */
  function RdsCostOf(products: seq<ProductBucket>): real
  {
    if products == [] then 0.0
    else if products[|products| - 1].product != "AmazonEC2" then products[|products| - 1].cost
    else RdsCostOf(products[..|products| - 1])
  }

  /** A later bucket of the same kind overwrites an earlier one: the EC2 cost is
      that of the last "AmazonEC2" bucket, and 0 when there is none. */
  lemma {:induction false} Ec2CostIsLast(products: seq<ProductBucket>)
    ensures (forall i :: 0 <= i < |products| ==> products[i].product != "AmazonEC2") ==> Ec2CostOf(products) == 0.0
    ensures forall j :: 0 <= j < |products| && products[j].product == "AmazonEC2"
                        && (forall i :: j < i < |products| ==> products[i].product != "AmazonEC2")
                        ==> Ec2CostOf(products) == products[j].cost
  {
    if products != [] {
      var init := products[..|products| - 1];
      Ec2CostIsLast(init);
      assert forall i :: 0 <= i < |init| ==> init[i] == products[i];
    }
  }

  /** The same for the RDS cost and the buckets of other products. */
  lemma {:induction false} RdsCostIsLast(products: seq<ProductBucket>)
    ensures (forall i :: 0 <= i < |products| ==> products[i].product == "AmazonEC2") ==> RdsCostOf(products) == 0.0
    ensures forall j :: 0 <= j < |products| && products[j].product != "AmazonEC2"
                        && (forall i :: j < i < |products| ==> products[i].product == "AmazonEC2")
                        ==> RdsCostOf(products) == products[j].cost
  {
    if products != [] {
      var init := products[..|products| - 1];
      RdsCostIsLast(init);
      assert forall i :: 0 <= i < |init| ==> init[i] == products[i];
    }
  }

  /** The record of one tag group, or `None` when its key does not parse. */
  function TagsOf(b: TagGroupBucket): Option<ResourceTags>
  {
    match ParseTagGroup(b.tagGroup)
    case None => None
    case Some((application, owner)) => Some(ResourceTags(owner, application, Ec2CostOf(b.products), RdsCostOf(b.products)))
  }

  /** The converted elements up to the first one `f` rejects, and whether
      `f` accepted them all. */
  function Convert<T, U>(s: seq<T>, f: T -> Option<U>): (seq<U>, bool)
  {
    if s == [] then ([], true)
    else
      var prior := Convert(s[..|s| - 1], f);
      if !prior.1 then prior
      else match f(s[|s| - 1])
           case None => (prior.0, false)
           case Some(u) => (prior.0 + [u], true)
  }

  /** `Convert` succeeds exactly when `f` accepts every element, and then gives
      one result per element. */
  lemma {:induction false} ConvertSucceeds<T, U>(s: seq<T>, f: T -> Option<U>)
    ensures Convert(s, f).1 <==> forall i :: 0 <= i < |s| ==> f(s[i]).Some?
    ensures Convert(s, f).1 ==> |Convert(s, f).0| == |s|
  {
    if s != [] {
      var init := s[..|s| - 1];
      ConvertSucceeds(init, f);
      assert forall i :: 0 <= i < |init| ==> init[i] == s[i];
    }
  }

  /** The results are those of the elements in order, up to the first one `f`
      rejects, where `Convert` stops. */
  lemma {:induction false} ConvertRecords<T, U>(s: seq<T>, f: T -> Option<U>)
    ensures |Convert(s, f).0| <= |s|
    ensures forall i :: 0 <= i < |Convert(s, f).0| ==> f(s[i]) == Some(Convert(s, f).0[i])
    ensures !Convert(s, f).1 ==> |Convert(s, f).0| < |s| && f(s[|Convert(s, f).0|]).None?
  {
    if s != [] {
      var init := s[..|s| - 1];
      ConvertRecords(init, f);
      ConvertSucceeds(init, f);
      assert forall i :: 0 <= i < |init| ==> init[i] == s[i];
    }
  }

  /** Once a prefix has failed, every longer prefix fails with the same results. */
  lemma {:induction false} ConvertKeepsFailure<T, U>(s: seq<T>, f: T -> Option<U>, n: int)
    requires 0 <= n <= |s| && !Convert(s[..n], f).1
    ensures Convert(s, f) == Convert(s[..n], f)
    decreases |s| - n
  {
    if n < |s| {
      assert s[..n + 1][..n] == s[..n];
      ConvertKeepsFailure(s, f, n + 1);
    } else {
      assert s[..n] == s;
    }
  }

  /** One more element: accepted ones are appended. */
  lemma ConvertStep<T, U>(s: seq<T>, f: T -> Option<U>, i: int)
    requires 0 <= i < |s| && Convert(s[..i], f).1
    ensures f(s[i]).Some? ==> Convert(s[..i + 1], f) == (Convert(s[..i], f).0 + [f(s[i]).value], true)
    ensures f(s[i]).None? ==> Convert(s[..i + 1], f) == (Convert(s[..i], f).0, false)
  {
    var next := s[..i + 1];
    assert next[..i] == s[..i] && next[i] == s[i];
  }

  /** The inner loop over the product buckets of one tag group. */
  method AddProductCosts(tagsValue: ResourceTags, products: seq<ProductBucket>) returns (r: ResourceTags)
    requires tagsValue.ec2Cost == 0.0 && tagsValue.rdsCost == 0.0
    ensures r == tagsValue.(ec2Cost := Ec2CostOf(products), rdsCost := RdsCostOf(products))
  {
    r := tagsValue;
    for j := 0 to |products|
      invariant r == tagsValue.(ec2Cost := Ec2CostOf(products[..j]), rdsCost := RdsCostOf(products[..j]))
    {
      assert products[..j + 1][..j] == products[..j];
      if products[j].product == "AmazonEC2" {
        r := r.(ec2Cost := products[j].cost);
      } else {
        r := r.(rdsCost := products[j].cost);
      }
    }
    assert products[..|products|] == products;
  }

  /** The body of the loop over the tag groups, for one bucket. */
  method TagsFor(b: TagGroupBucket) returns (r: Option<ResourceTags>)
    ensures r == TagsOf(b)
  {
    var parsed := ParseTagGroup(b.tagGroup);
    if parsed.None? {
      return None;
    }
    var tagsValue := ResourceTags(parsed.value.1, parsed.value.0, 0.0, 0.0);
    tagsValue := AddProductCosts(tagsValue, b.products);
    return Some(tagsValue);
  }

  /** `getEc2GroupedTagsWithParsedParams` on the outcome of the request: a
      failed request with status 200 is an empty success, any other failure
      passes its code and message on, an undecodable aggregation is a 500, and a
      bad key stops the loop with a 500 and the records gathered so far. */
  method GetEc2GroupedTags(outcome: EsOutcome) returns (code: int, response: seq<ResourceTags>, err: Option<string>)
    ensures outcome.RequestFailed? ==>
              code == outcome.returnCode && response == []
              && (err.None? <==> outcome.returnCode == StatusOK)
    ensures outcome.Undecodable? ==> code == StatusInternalServerError && response == [] && err.Some?
    ensures outcome.Decoded? ==>
              && response == Convert(outcome.buckets, TagsOf).0
              && (Convert(outcome.buckets, TagsOf).1 ==> code == StatusOK && err.None?)
              && (!Convert(outcome.buckets, TagsOf).1 ==> code == StatusInternalServerError && err == Some(TagGroupError))
  {
    response := [];
    match outcome {
      case RequestFailed(returnCode, message) =>
        if returnCode == StatusOK {
          return returnCode, response, None;
        }
        return returnCode, response, Some(message);
      case Undecodable(message) =>
        return StatusInternalServerError, response, Some(message);
      case Decoded(buckets) =>
        for i := 0 to |buckets|
          invariant Convert(buckets[..i], TagsOf) == (response, true)
        {
          ConvertStep(buckets, TagsOf, i);
          var tagsValue := TagsFor(buckets[i]);
          if tagsValue.None? {
            ConvertKeepsFailure(buckets, TagsOf, i + 1);
            return StatusInternalServerError, response, Some(TagGroupError);
          }
          response := response + [tagsValue.value];
        }
        assert buckets[..|buckets|] == buckets;
        return StatusOK, response, None;
    }
  }
}
