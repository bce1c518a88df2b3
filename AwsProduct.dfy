/** aws/product/awsec2product.go: picking the one-year, all-upfront, standard
    reserved price of every EC2 product of the price list, and the map of
    hourly prices by instance type.

    The price list is JSON whose objects Go ranges over in map order; here
    every object arrives as a sequence in the order the loop visits it, so
    the search is a function of that order. `strconv.ParseFloat` is an
    oracle: a price arrives parsed (`Some`) or unparsable (`None`). */
module AwsProduct {
  import opened Common

  const HoursYear: real := 8765.81256
  const HoursMonth: real := 730.48438

  const NotFoundMessage: string := "Not found a Full Upfront, 1 year, with USD values."

  /** What `strconv.ParseFloat` reports for a price it cannot parse. */
  const ParseErrorMessage: string := "strconv.ParseFloat: invalid syntax"

  /** One price dimension of a term: its unit and its USD price per unit. */
  datatype PriceDimension = PriceDimension(unit: string, usd: Option<real>)

  /** One reserved term: its attributes and price dimensions. */
  datatype ReservedTerm = ReservedTerm(
    purchaseOption: string,
    offeringClass: string,
    leaseContractLength: string,
    priceDimensions: seq<PriceDimension>)

  /** One item of the price list: the product's instance type and its
      reserved terms. */
  datatype Item = Item(instanceType: string, reserved: seq<ReservedTerm>)

  datatype EC2Product = EC2Product(
    family: string,
    normalization: real,
    instanceType: string,
    instancePricing: real,
    hourlyPricing: real,
    purchaseOption: string,
    priceCurrency: string,
    leaseContractLength: string,
    offeringClass: string)

  /** A term the report can use: all upfront, standard, one year. */
  predicate Qualifies(t: ReservedTerm)
  {
    t.purchaseOption == "All Upfront" && t.offeringClass == "standard" && t.leaseContractLength == "1yr"
  }

  /** The up-front fee: the first price dimension counted in "Quantity". */
  function UpfrontFee(ds: seq<PriceDimension>): (r: Option<PriceDimension>)
    ensures r.None? <==> forall i :: 0 <= i < |ds| ==> ds[i].unit != "Quantity"
    ensures r.Some? ==> r.value in ds && r.value.unit == "Quantity"
  {
    if ds == [] then None
    else if ds[0].unit == "Quantity" then Some(ds[0])
    else
      var r := UpfrontFee(ds[1..]);
      assert forall i :: 1 <= i < |ds| ==> ds[i] == ds[1..][i - 1];
      r
  }

  /** The product built from a qualifying term and its parsed fee. */
  function ProductOf(instanceType: string, t: ReservedTerm, pricing: real): EC2Product
  {
    EC2Product("", 0.0, instanceType, pricing, pricing / HoursYear,
               t.purchaseOption, "USD", t.leaseContractLength, t.offeringClass)
  }

  /** A term that yields a price: it qualifies and has an up-front fee. */
  predicate Priced(t: ReservedTerm)
  {
    Qualifies(t) && UpfrontFee(t.priceDimensions).Some?
  }

  /** `processItemList` over the terms still to visit: the first term that
      qualifies and has an up-front fee decides; a term without one is
      skipped. */
  function SearchTerms(instanceType: string, terms: seq<ReservedTerm>): Result<EC2Product>
  {
    if terms == [] then Err(NotFoundMessage)
    else
      var t := terms[0];
      if Qualifies(t) && UpfrontFee(t.priceDimensions).Some? then
        var fee := UpfrontFee(t.priceDimensions).value;
        if fee.usd.None? then Err(ParseErrorMessage)
        else Ok(ProductOf(instanceType, t, fee.usd.value))
      else
        SearchTerms(instanceType, terms[1..])
  }

  /** The search reports "not found" exactly when no term qualifies with an
      up-front fee; a product comes from such a term and its parsed fee; any
      other error comes from such a term whose fee does not parse. */
  lemma {:induction false} SearchTermsOutcome(instanceType: string, terms: seq<ReservedTerm>)
    ensures var r := SearchTerms(instanceType, terms);
            && (r == Err(NotFoundMessage) <==> forall i :: 0 <= i < |terms| ==> !Priced(terms[i]))
            && (r.Ok? ==>
                  exists i :: 0 <= i < |terms| && Priced(terms[i]) &&
                              UpfrontFee(terms[i].priceDimensions).value.usd == Some(r.value.instancePricing) &&
                              r.value == ProductOf(instanceType, terms[i], r.value.instancePricing))
            && (r.Err? && r.msg != NotFoundMessage ==>
                  exists i :: 0 <= i < |terms| && Priced(terms[i]) && UpfrontFee(terms[i].priceDimensions).value.usd.None?)
  {
    if terms != [] {
      SearchTermsOutcome(instanceType, terms[1..]);
      assert forall i :: 1 <= i < |terms| ==> terms[i] == terms[1..][i - 1];
    }
  }

  /** `processItemList`. */
  function ProcessItemList(item: Item): Result<EC2Product>
  {
    SearchTerms(item.instanceType, item.reserved)
  }

  /** Whatever term it comes from, a product carries the qualifying
      attributes, an empty family, a zero normalization, dollars, and an
      hourly price that is the up-front price spread over a year. */
  lemma ProductShape(item: Item)
    requires ProcessItemList(item).Ok?
    ensures var p := ProcessItemList(item).value;
            && p.instanceType == item.instanceType
            && p.purchaseOption == "All Upfront" && p.offeringClass == "standard" && p.leaseContractLength == "1yr"
            && p.family == "" && p.normalization == 0.0 && p.priceCurrency == "USD"
            && p.hourlyPricing * HoursYear == p.instancePricing
  {
    SearchTermsOutcome(item.instanceType, item.reserved);
  }

  /** The products of a batch, skipping every item that fails. */
  function Kept(items: seq<Item>): seq<EC2Product>
  {
    if items == [] then []
    else
      var last := items[|items| - 1];
      Kept(items[..|items| - 1]) + (if ProcessItemList(last).Ok? then [ProcessItemList(last).value] else [])
  }

  /** Kept products are exactly the successful items' products. */
  lemma {:induction false} KeptAreTheSuccesses(items: seq<Item>)
    ensures forall p :: p in Kept(items) ==> exists i :: 0 <= i < |items| && ProcessItemList(items[i]) == Ok(p)
    ensures forall i :: 0 <= i < |items| && ProcessItemList(items[i]).Ok? ==> ProcessItemList(items[i]).value in Kept(items)
    ensures |Kept(items)| <= |items|
    decreases |items|
  {
    if items != [] {
      var n := |items| - 1;
      var prefix := items[..n];
      KeptAreTheSuccesses(prefix);
      var last := if ProcessItemList(items[n]).Ok? then [ProcessItemList(items[n]).value] else [];
      assert Kept(items) == Kept(prefix) + last;
      forall p | p in Kept(items)
        ensures exists i :: 0 <= i < |items| && ProcessItemList(items[i]) == Ok(p)
      {
        if p in Kept(prefix) {
          var i :| 0 <= i < |prefix| && ProcessItemList(prefix[i]) == Ok(p);
          assert prefix[i] == items[i];
        } else {
          assert ProcessItemList(items[n]) == Ok(p);
        }
      }
      forall i | 0 <= i < |items| && ProcessItemList(items[i]).Ok?
        ensures ProcessItemList(items[i]).value in Kept(items)
      {
        if i < n {
          assert prefix[i] == items[i];
        }
      }
    }
  }

  /** One page of the price list, and whether another follows. */
  datatype Page = Page(priceList: seq<Item>, hasNextToken: bool)

  /** Pages fetched until one has no next token or a fetch fails. */
  function Fetched(responses: seq<Result<Page>>): Result<seq<EC2Product>>
    decreases |responses|
  {
    if responses == [] then Ok([])
    else if responses[0].Err? then Err(responses[0].msg)
    else
      var products := Kept(responses[0].value.priceList);
      if !responses[0].value.hasNextToken then Ok(products)
      else
        match Fetched(responses[1..])
        case Err(msg) => Err(msg)
        case Ok(rest) => Ok(products + rest)
  }

  /** The service stops at some point: a fetch fails or a page has no token. */
  predicate Stops(responses: seq<Result<Page>>)
  {
    exists i :: 0 <= i < |responses| && (responses[i].Err? || !responses[i].value.hasNextToken)
  }

  /** The inner loop of `fetchProducts`: keeps the products of one batch. */
  method ProcessBatch(products: seq<EC2Product>, priceList: seq<Item>) returns (products': seq<EC2Product>)
    ensures products' == products + Kept(priceList)
  {
    products' := products;
    var j := 0;
    while j < |priceList|
      invariant 0 <= j <= |priceList| && products' == products + Kept(priceList[..j])
    {
      assert priceList[..j + 1][..j] == priceList[..j];
      var ec2product := ProcessItemList(priceList[j]);
      if ec2product.Ok? {
        products' := products' + [ec2product.value];
      }
      j := j + 1;
    }
    assert priceList[..j] == priceList;
  }

  /** `fetchProducts`: every page's products, in page order, until the last
      page; a failed fetch returns its error and nothing else. */
  method FetchProducts(responses: seq<Result<Page>>) returns (r: Result<seq<EC2Product>>)
    requires Stops(responses)
    ensures r == Fetched(responses)
  {
    var products: seq<EC2Product> := [];
    var i := 0;
    assert responses[i..] == responses;
    ThenNothing(Fetched(responses));
    while true
      invariant 0 <= i < |responses|
      invariant forall j :: 0 <= j < i ==> responses[j].Ok? && responses[j].value.hasNextToken
      invariant Fetched(responses) == Then(products, Fetched(responses[i..]))
      decreases |responses| - i
    {
      var result := responses[i];
      if result.Err? {
        return Err(result.msg);
      }
      ThenThen(products, Kept(result.value.priceList), Fetched(responses[i + 1..]));
      products := ProcessBatch(products, result.value.priceList);
      if result.value.hasNextToken {
        assert responses[i..][1..] == responses[i + 1..];
        i := i + 1;
      } else {
        return Ok(products);
      }
    }
  }

  /** Products fetched so far, followed by the outcome of the rest. */
  function Then(products: seq<EC2Product>, rest: Result<seq<EC2Product>>): Result<seq<EC2Product>>
  {
    match rest
    case Err(msg) => Err(msg)
    case Ok(more) => Ok(products + more)
  }

  lemma ThenNothing(rest: Result<seq<EC2Product>>)
    ensures Then([], rest) == rest
  {
    if rest.Ok? {
      assert [] + rest.value == rest.value;
    }
  }

  lemma ThenThen(products: seq<EC2Product>, batch: seq<EC2Product>, rest: Result<seq<EC2Product>>)
    ensures Then(products, Then(batch, rest)) == Then(products + batch, rest)
  {
    if rest.Ok? {
      assert products + (batch + rest.value) == products + batch + rest.value;
    }
  }

  /** The hourly price by instance type; a later product of the same type
      replaces an earlier one. */
  function PriceMap(products: seq<EC2Product>): map<string, real>
  {
    if products == [] then map[]
    else
      var last := products[|products| - 1];
      PriceMap(products[..|products| - 1])[last.instanceType := last.hourlyPricing]
  }

  /** The map holds a price for exactly the products' instance types, each
      the price of the last product of that type. */
  lemma {:induction false} PriceMapLastWins(products: seq<EC2Product>)
    ensures forall k :: k in PriceMap(products) <==> exists i :: 0 <= i < |products| && products[i].instanceType == k
    ensures forall k :: k in PriceMap(products) ==>
              exists i :: 0 <= i < |products| && products[i].instanceType == k &&
                          PriceMap(products)[k] == products[i].hourlyPricing &&
                          forall j :: i < j < |products| ==> products[j].instanceType != k
    decreases |products|
  {
    if products != [] {
      var prefix := products[..|products| - 1];
      PriceMapLastWins(prefix);
      assert forall i :: 0 <= i < |prefix| ==> prefix[i] == products[i];
    }
  }

  /** `GetProductsEC2HourlyPrice`: an error without credentials or on a
      failed fetch, otherwise the map of hourly prices. */
  method GetProductsEC2HourlyPrice(credentialsError: Option<string>, responses: seq<Result<Page>>)
    returns (r: Result<map<string, real>>)
    requires Stops(responses)
    ensures credentialsError.Some? ==> r == Err(credentialsError.value)
    ensures credentialsError.None? && Fetched(responses).Err? ==> r == Err(Fetched(responses).msg)
    ensures credentialsError.None? && Fetched(responses).Ok? ==> r == Ok(PriceMap(Fetched(responses).value))
  {
    if credentialsError.Some? {
      return Err(credentialsError.value);
    }
    var products := FetchProducts(responses);
    if products.Err? {
      return Err(products.msg);
    }
    var productsPrice: map<string, real> := map[];
    var i := 0;
    while i < |products.value|
      invariant 0 <= i <= |products.value| && productsPrice == PriceMap(products.value[..i])
    {
      assert products.value[..i + 1][..i] == products.value[..i];
      var product := products.value[i];
      productsPrice := productsPrice[product.instanceType := product.hourlyPricing];
      i := i + 1;
    }
    assert products.value[..i] == products.value;
    r := Ok(productsPrice);
  }
}
