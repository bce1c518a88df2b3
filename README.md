# trackit-server core, modelled in Dafny

trackit-server imports AWS billing and usage data into ElasticSearch. It then
builds reports from that data: the weekly mail with its reserved-instance,
unused-instance, S3 and tag sections, the usage spreadsheet, and the cost
history per resource. This project models the logic the server applies to
data that is already fetched:

- **Instance types.** The normalisation of an instance size into a factor,
  its inverse, and the three copies of `familyNormalizeFactor`, including the
  regular expression `(.+)\.([0-9]*x?[a-z]+$)` they share.
- **Reserved instances.** The decoding of reserved-instance search results,
  the summary of reservations expiring before a horizon, the usage
  proportions, and the suggestions of instances to reserve.
- **Mail sections.** The CPU histogram, the family power shares, the grouping
  of unused EC2 and RDS instances, the S3 bucket table and the byte-unit
  formatter.
- **Tag groups.** The parsing of `[application,owner]` tag groups and the
  EC2/RDS cost of each group.
- **Prices.** The search of the EC2 price list for a one-year, all-upfront,
  standard price, and the hourly price map built from it.
- **Cost history.** The previous-week and previous-month windows, the cost
  per resource over the five partitions, and the joining of errors.
- **Reports route.** The account-ownership check and the week dates.
- **Spreadsheet.** The layout of merged cells, and the ElasticSearch-domain
  sheet.
- **Mail message.** The building of the message, whose header fields follow
  section 3.6 of RFC 5322.
- **`aws_account` records.** The lifecycle of a record: insert, update, save
  and delete.
- **Tasks.** The `ingest` task (its arguments, the bill repository it picks,
  the planning of its next import) and the master-account setup task
  (password generation, and the creation of the user, account and bill
  repository).

The modelling follows the code's own forms:

- Go's `*GeneralInformation` is updated in place, so it is a class, and the
  operations that fill it are methods with `modifies gi`.
- `sort.Slice` sorts in place, so it is an array sort proved sorted and a
  permutation.
- An `AwsAccount` record is a class whose methods change its lifecycle flags.
- Loops are methods, each proved against a specification function.
- Go's maps are Dafny maps. Wherever Go ranges over a map, the method picks
  the keys in an unspecified order, and its contract does not depend on that
  order.
- `float64` is modelled as `real`. A division that may meet a zero divisor
  returns an explicit finite, infinite or NaN result (`Floats.Quotient`).

Shared definitions:

- Common: Option, Result, and sums over sequences and maps.
- Strings: split, join, trim, `strconv.Atoi` and `FormatInt`.
- Calendar: `time.Date` normalisation, day numbers and weekdays.
- Sorting: the array sort.

Where the documentation of the system and its code disagree, the model
follows the code:

- `getEc2GroupedTagsWithParsedParams` returns, together with its 500 error,
  the groups already parsed before a bad key, not an empty response.
- The RDS copy of `familyNormalizeFactor` answers "unkown" (so spelled) for a
  type it cannot split.
- `InverseNormalizationFactor` also answers "unkown" for a factor that is not
  in the table.
- `ValidateAwsAccounts` checks only that each account has length 12, not that
  it is made of digits.

## Model

| member | source | states |
|---|---|---|
| AwsUtils.ValidateAwsAccounts | aws/utils.go:24-31 | no error iff every account has length 12; otherwise the error names the first account whose length is not 12 |
| AwsUtils.TableShape | aws/utils.go:33-50 | the normalisation table has exactly the 16 size tokens, with factors between 0.25 and 256 |
| AwsUtils.TokensDistinct | aws/utils.go:33-50 | the 16 size tokens are pairwise distinct |
| AwsUtils.FactorsApart | aws/utils.go:33-58 | two different tokens have factors at least 0.25 apart, so at most one factor lies within 0.001 of any value |
| AwsUtils.TokenOfFactor | aws/utils.go:33-50 | every factor of the table belongs to exactly one token |
| AwsUtils.InverseNormalizationFactorSpec | aws/utils.go:52-61 | whatever order the map is visited in, the result is the token whose factor is within 0.001 of the argument, or "unkown" when there is none |
| AwsUtils.InverseOfFactor | aws/utils.go:52-58 | round trip: the inverse of a token's factor is that token |
| InstanceType.SizeTokenIsSizePattern | aws/ri/utils.go:97-98 | the size part `[0-9]*x?[a-z]+` of the expression accepts exactly digits followed by at least one lower-case letter |
| InstanceType.FindSubmatchSpec | aws/ri/utils.go:97-100 | the leftmost-first submatch exists iff the expression matches somewhere, and it is the leftmost match, its dot being the last one |
| InstanceType.MatchSplitsAtLastDot | aws/ri/utils.go:97-100 | on newline-free input, a match splits the type at its last dot into a non-empty family and a size token |
| InstanceType.MatchOfFamilyAndSize | aws/ri/utils.go:97-100 | round trip: family "." size matches back to (family, size) for any non-empty newline-free family |
| InstanceType.NewlineFreeMatch | aws/ri/utils.go:97-102 | on newline-free input, the match exists iff there is a dot, something precedes the last dot, and a size token follows it |
| InstanceType.NoMatchOfBadSize | aws/ri/utils.go:101-102 | a suffix that is not a size token never matches |
| InstanceType.TokensAreSizeTokens | aws/utils.go:33-50 | every token of the normalisation table is matched by the size pattern |
| InstanceType.LastIndexOf | aws/ri/utils.go:97-100 | the index of the last occurrence of a character, or -1 when it does not occur |
| RiUtils.FamilyNormalizeFactor | aws/ri/utils.go:78-104 | on newline-free input: (the part before the last dot, the size's factor or 0 for an unknown size) on a match, ("unknown", 0) otherwise |
| RiUtils.TableIsNormalization | aws/ri/utils.go:79-96 | the table is entry for entry the shared normalisation table |
| RiUtils.InverseRebuildsInstanceType | aws/ri/utils.go:78-104 | round trip: the family and the inverse of the factor rebuild the instance type of every known size |
| RiUtils.ExampleFamilyKeepsPrefix | aws/ri/utils.go:99-100 | "db.m4.large" gives ("db.m4", 4) |
| RiUtils.ExampleUnknownSize | aws/ri/utils.go:79-100 | "m5.metal" gives ("m5", 0) |
| RiUtils.ExampleNoMatch | aws/ri/utils.go:101-102 | "m5" and ".large" give ("unknown", 0) |
| RiUtils.ExampleTrailingDigits | aws/ri/utils.go:101-102 | "m5.large2" gives ("unknown", 0) |
| Ec2Utils.FamilyNormalizeFactor | aws/usageReports/ec2/utils.go:171-197 | same split rule as the reserved-instance copy; ("unknown", 0) without a match |
| Ec2Utils.TableIsNormalization | aws/usageReports/ec2/utils.go:172-189 | the table is entry for entry the shared normalisation table |
| Ec2Utils.InverseRebuildsInstanceType | aws/usageReports/ec2/utils.go:171-197 | round trip of family and inverse factor for every known size |
| Ec2Utils.ExampleSplit | aws/usageReports/ec2/utils.go:190-193 | "m5.2xlarge" gives ("m5", 16) |
| Ec2Utils.ExampleUnknownSize | aws/usageReports/ec2/utils.go:172-193 | "c5.metal" gives ("c5", 0) |
| Ec2Utils.ExampleNoMatch | aws/usageReports/ec2/utils.go:194-196 | "t2" and "t2." give ("unknown", 0) |
| RdsUtils.FamilyNormalizeFactor | aws/usageReports/rds/utils.go:157-183 | same split rule, the "db." prefix kept in the family; ("unkown", 0) without a match |
| RdsUtils.TableIsNormalization | aws/usageReports/rds/utils.go:158-175 | the table is entry for entry the shared normalisation table |
| RdsUtils.InverseRebuildsInstanceType | aws/usageReports/rds/utils.go:157-183 | round trip of family and inverse factor for every known size |
| RdsUtils.ExampleKeepsDbPrefix | aws/usageReports/rds/utils.go:176-179 | "db.t2.micro" gives ("db.t2", 0.5) |
| RdsUtils.ExampleNoMatch | aws/usageReports/rds/utils.go:180-182 | "db" and "db.t2.Large" give ("unkown", 0) |
| Floats.Quotient | reports/prepare_ri.go:185 | a float64 division: finite iff the divisor is non-zero, and then the quotient times the divisor is the dividend; NaN iff both are zero |
| Floats.QuotientPositive | reports/prepare_ri.go:185 | the quotient is positive iff the operands have the same sign, or the divisor is zero and the dividend positive |
| Floats.Ceil | reports/prepare_ri.go:182 | `math.Ceil`: the least integer not below its argument |
| Sorting.SortBy | reports/prepare_unused.go:58-60 | the array ends sorted by the given order and is a permutation of its old contents |
| ReportUtils.FormatGb | reports/utils.go:9-20 | the unit is the one the scaled value reaches, or none when the index leaves the 8-unit table |
| ReportUtils.ScaledKeepsValue | reports/utils.go:12-17 | loop invariant: the scaled value times 1024 to the unit index is the value in bytes |
| ReportUtils.ScaledBounds | reports/utils.go:14-19 | the scaled value is below 1024, at least 1 once scaled, and left alone below 1024 bytes |
| ReportUtils.ScaledBelowPower | reports/utils.go:12-17 | the unit index stays below n iff the value is below 1024 to the n |
| ReportUtils.UnitInRange | reports/utils.go:10-19 | the unit exists iff the value is below 1024 to the 5 gigabytes |
| ReportTypes.GeneralInformation.constructor | reports/prepare_mail.go:35-66 | a report summary starts with every total at zero |
| PrepareResponse.PrepareResponseRi | usageReports/ri/prepare_response.go:39-61 | no hits: 200 and nothing; an undecodable hit: 500, nothing and an error; otherwise 200 and every hit, in order |
| PrepareResponse.DecodedAllOrNothing | usageReports/ri/prepare_response.go:48-57 | decoding fails iff some hit is undecodable; otherwise one record per hit, in order |
| PrepareResponse.AppendFactors | usageReports/ri/prepare_response.go:79-86 | one record per factor bucket of the family is appended, in order |
| PrepareResponse.UsageRecords | usageReports/ri/prepare_response.go:77-87 | the records of a usage type, family by family and then factor by factor |
| PrepareResponse.PrepareResponseRiResult | usageReports/ri/prepare_response.go:63-93 | an undecodable aggregation: 500 and an error; otherwise 200 and the records of every usage type |
| PrepareResponse.FamilyRecordsFields | usageReports/ri/prepare_response.go:80-85 | every record carries its usage key as type, and a cost of 0 |
| PrepareResponse.FamilyRecordsCount | usageReports/ri/prepare_response.go:77-90 | one record per factor bucket; none iff no family has a factor bucket |
| PrepareResponse.ResponseKeysAndTypes | usageReports/ri/prepare_response.go:76-91 | a usage key is in the response iff it has records, and every record under key k has type k and cost 0 |
| PrepareRi.HorizonIsEndOfNextMonth | reports/prepare_ri.go:19 | the horizon is 23:59:59.999999999, at the local zone's fixed offset (`time.Local`, the `localOffset` parameter), on the last day of the month after the end date's month |
| PrepareRi.BeforeHorizon | reports/prepare_ri.go:19-20 | an end date is at or before the horizon iff its local day is not after the horizon's day |
| PrepareRi.RiResume | reports/prepare_ri.go:30-41 | the summary of reservations: active, expiring before the horizon, and invested amounts |
| PrepareRi.ExpiringAtMostActive | reports/prepare_ri.go:30-41 | for non-negative counts, the expiring reservations are between 0 and the active ones |
| PrepareRi.AccumulateExpiring | reports/prepare_ri.go:46-60 | the three maps have exactly the expiring types as keys; per type, the count, the power and the set of expiry days of its expiring records |
| PrepareRi.GetRIProducts | reports/prepare_ri.go:43-80 | one product per expiring type; its reserves and power are that type's sums, its dates its distinct expiry days in ascending order; the reserves add up to the expiring total |
| PrepareRi.BuildProducts | reports/prepare_ri.go:64-78 | one product per key of the maps, each built from that key's entries |
| PrepareRi.ReservesAddUp | reports/prepare_ri.go:51-78 | the products' reserves add up to the number of expiring reservations |
| PrepareRi.CollectOrderedDates | reports/prepare_ri.go:100-108 | the keys of the day set, strictly ascending |
| PrepareRi.FormatReserved | reports/prepare_ri.go:17-28 | the summary records the reservation totals at the horizon, and the products are those of the expiring types |
| PrepareRi.Proportions | reports/prepare_ri.go:110-123 | shares exist iff usage plus discounted usage is positive; they are proportional to the two sums and add up to 100 |
| PrepareRi.ProportionsWithinRange | reports/prepare_ri.go:110-123 | with non-negative factors, both shares lie within [0, 100] |
| PrepareRi.ProportionReserves | reports/prepare_ri.go:110-123 | the shares are stored when they exist; otherwise the summary is unchanged |
| PrepareRi.TotalUsages | reports/prepare_ri.go:112-117 | per usage key, the sum of its normalisation factors |
| PrepareRi.SuggestSpec | reports/prepare_ri.go:171-196 | a suggestion exists iff the family, the price, the hours and the factor allow it; its machine count is the least that covers the usage, and its costs and difference follow the source's formulas |
| PrepareRi.Suggestions | reports/prepare_ri.go:171-196 | at most one suggestion per usage |
| PrepareRi.SuggestFor | reports/prepare_ri.go:174-194 | one usage's suggestion, when there is one |
| PrepareRi.GetUnreservedInstance | reports/prepare_ri.go:171-196 | the suggestions of every usage, in usage order, whatever the sign of their difference |
| PrepareRi.ZeroCostNeverPositive | reports/prepare_ri.go:184-185 | with the cost at 0 the difference is never positive |
| PrepareRi.ZeroCostUsagesSuggestNothing | reports/prepare_ri.go:184-185 | usages of cost 0, as decoding leaves them, give no suggestion with a positive difference |
| PrepareRi.PositiveOnes | reports/prepare_ri.go:140-160 | the suggestions with a positive difference, taken from the list |
| PrepareRi.FirstPositiveIsPrefix | reports/prepare_ri.go:140-160 | the rows shown are the first of the positive suggestions, at most the limit |
| PrepareRi.NoPositiveOnes | reports/prepare_ri.go:162-167 | nothing is shown iff no difference is positive |
| PrepareRi.FormatTableUnreservedEc2 | reports/prepare_ri.go:132-169 | the array is sorted by unreserved cost, descending, and is a permutation of its old contents; the table shows the first 7 positive suggestions, or the no-suggestion text |
| PrepareRi.FormatUnreservedEc2 | reports/prepare_ri.go:125-130 | the suggestions of the usage records, sorted by on-demand cost, most expensive first, of which the first 7 with a positive difference are shown; the no-suggestion text iff no suggestion has a positive difference |
| PrepareRi.NoPositiveIsPermutationInvariant | reports/prepare_ri.go:134-167 | sorting cannot change whether some difference is positive |
| PrepareMail.CalculateHistogram | reports/prepare_mail.go:314-340 | min, max, the bucket width (max-min)/k and k are recorded, and the k counters count the instances per bucket |
| PrepareMail.Extremes | reports/prepare_mail.go:315-321 | min and max of the averages, starting from 100 and 0 |
| PrepareMail.CountBuckets | reports/prepare_mail.go:323-331 | the per-bucket counts, the top value clamped to the last bucket |
| PrepareMail.BucketWithinCounters | reports/prepare_mail.go:326-330 | every instance's bucket is within [0, k-1] |
| PrepareMail.BucketRange | reports/prepare_mail.go:326-330 | a value falls in the bucket whose interval holds it; the maximum goes to the last bucket |
| PrepareMail.HistogramCountsEveryInstance | reports/prepare_mail.go:324-331 | the counters add up to the number of instances |
| PrepareMail.NoInstancesNoCounts | reports/prepare_mail.go:315-331 | without instances, min is 100, max is 0 and every counter is 0 |
| PrepareMail.ExtremesAreAttained | reports/prepare_mail.go:315-321 | for averages within [0, 100], min and max are averages of some instance |
| PrepareMail.FormatHistogram | reports/prepare_mail.go:293-312 | one row per counter, with its interval's bounds and its count |
| PrepareMail.RowsTileTheRange | reports/prepare_mail.go:296-309 | the first row starts at min, the last ends at max, and each row ends 0.01 before the next begins |
| PrepareMail.AverageWithinItsRow | reports/prepare_mail.go:296-309 | the row a value is counted in shows an interval that holds it |
| PrepareMail.FormatEc2InstancesProportion | reports/prepare_mail.go:264-291 | the instance count grows by the instances; with positive total power, one share per family is added and the list is kept sorted by share; otherwise nothing is added |
| PrepareMail.FamilyPowers | reports/prepare_mail.go:266-277 | per family, the power of its instances and reservations; the total is the sum over all of them |
| PrepareMail.PowerProducts | reports/prepare_mail.go:279-285 | one product per family, with value 100 times its power over the total |
| PrepareMail.SharesAddUpTo100 | reports/prepare_mail.go:279-285 | the shares of all families add up to 100 |
| PrepareMail.PowersAddUp | reports/prepare_mail.go:266-277 | the powers of all families add up to the total power |
| PrepareMail.SortedByValue | reports/prepare_mail.go:287-289 | sorted by share, descending, and a permutation |
| PrepareMail.FormatProductsUsageInstances | reports/prepare_mail.go:236-262 | the EC2 and RDS totals grow by the groups' costs; the groups are sorted by EC2 cost, descending; at most 7 are shown |
| PrepareMail.GroupTotals | reports/prepare_mail.go:237-240 | the sums of the groups' EC2 and RDS costs |
| PrepareUnused.GroupUnused | reports/prepare_unused.go:22-48 | the unused instances are counted and their costs summed; one group per type of an unused instance, holding exactly that type's instances |
| PrepareUnused.GroupsAddUp | reports/prepare_unused.go:25-48 | the groups' costs add up to the added cost, and their sizes to the number of unused instances |
| PrepareUnused.NamesCount | reports/prepare_unused.go:33-48 | a group holds one name per unused instance of its type |
| PrepareUnused.GetLowUsedEc2 | reports/prepare_unused.go:18-49 | the count and cost of unused EC2 instances grow by those of the unused ones; the groups are those of their types |
| PrepareUnused.GetLowUsedRds | reports/prepare_unused.go:77-109 | every RDS instance is counted; the count and cost of unused ones grow by those of the unused ones, grouped by class |
| PrepareUnused.RdsNamesAreClasses | reports/prepare_unused.go:95 | an RDS group records its instance class, not the identifiers, as names |
| PrepareUnused.FormatEc2Table | reports/prepare_unused.go:51-70 | the groups are sorted by cost, descending, and permuted; at most 5 are shown |
| PrepareUnused.FormatUnusedEc2Instances | reports/prepare_unused.go:13-16 | the EC2 totals and groups as above, the 5 most expensive shown |
| PrepareUnused.FormatUnusedRdsInstances | reports/prepare_unused.go:72-75 | the RDS totals and groups, shown through the same cost table |
| PrepareS3.ValueGbIsStoragePrice | reports/prepare_s3.go:28-31 | the price per GB times the GB-months is the storage cost, and 0 without GB-months |
| PrepareS3.RowPerBucket | reports/prepare_s3.go:19-46 | exactly one row per bucket, each built from its bucket |
| PrepareS3.NamesCount | reports/prepare_s3.go:24-40 | as many rows as distinct bucket names |
| PrepareS3.RowsSumMap | reports/prepare_s3.go:25-39 | summing over the rows is summing over the buckets |
| PrepareS3.ProductRow | reports/prepare_s3.go:28-39 | a row's total is its three costs summed, its size unit comes from the GB formatter |
| PrepareS3.BucketProducts | reports/prepare_s3.go:24-40 | one row per bucket; usage and cost are the sums over all buckets, and the cost is the sum of the row totals |
| PrepareS3.PrepareS3Buckets | reports/prepare_s3.go:19-46 | the bucket count is set, usage and cost grow by the sums, the daily figures are the totals over the weekdays |
| PrepareS3.FormatS3Table | reports/prepare_s3.go:48-71 | the rows are sorted by total, descending, and permuted; at most 5 are shown |
| PrepareS3.FormatS3Buckets | reports/prepare_s3.go:11-17 | the totals as above, and the 5 most expensive buckets shown |
| PrepareS3.ShownAreMostExpensive | reports/prepare_s3.go:50-66 | no bucket left out costs more than one shown |
| TagsEc2.ParseTagGroup | costs/tags/tags_ec2.go:73-83 | after removing leading '[' and trailing ']', the key parses iff it holds exactly one comma; the two parts are what lies around it |
| TagsEc2.ParseTagGroupOfKey | costs/tags/tags_ec2.go:73-83 | round trip: "[application,owner]" parses back to (application, owner) |
| TagsEc2.Ec2CostIsLast | costs/tags/tags_ec2.go:85-91 | the EC2 cost is that of the last "AmazonEC2" bucket, or 0 |
| TagsEc2.RdsCostIsLast | costs/tags/tags_ec2.go:85-91 | the RDS cost is that of the last bucket of any other product, or 0 |
| TagsEc2.ConvertSucceeds | costs/tags/tags_ec2.go:72-93 | the conversion succeeds iff every group parses, and then gives one record per group |
| TagsEc2.ConvertRecords | costs/tags/tags_ec2.go:72-93 | the records are those of the groups before the first bad one, in order |
| TagsEc2.AddProductCosts | costs/tags/tags_ec2.go:85-91 | a group's costs are set from its product buckets |
| TagsEc2.GetEc2GroupedTags | costs/tags/tags_ec2.go:52-95 | a failed request gives its code, nothing, and an error unless the code is 200; an undecodable result gives 500; otherwise the groups in order, with 500 and the tag-group error after a bad key |
| AwsProduct.UpfrontFee | aws/product/awsec2product.go:166-171 | the price dimension in "Quantity", when there is one |
| AwsProduct.SearchTermsOutcome | aws/product/awsec2product.go:153-198 | not found iff no term is a one-year, all-upfront, standard term with an upfront fee; a product comes from such a term's price; an unreadable price is the other error |
| AwsProduct.ProductShape | aws/product/awsec2product.go:182-192 | a product echoes the term, has no family, factor 0, currency "USD", and its hourly price is the upfront price over the hours of a year |
| AwsProduct.KeptAreTheSuccesses | aws/product/awsec2product.go:130-137 | the products kept are exactly those of the items that process, the others skipped |
| AwsProduct.ProcessBatch | aws/product/awsec2product.go:130-137 | a batch appends the products of its processable items |
| AwsProduct.FetchProducts | aws/product/awsec2product.go:121-146 | pages are processed while a next token is given; a failed page fails the fetch |
| AwsProduct.ThenThen | aws/product/awsec2product.go:121-146 | appending batches one after another is appending them together |
| AwsProduct.PriceMapLastWins | aws/product/awsec2product.go:66-69 | the map has a key per instance type, holding the hourly price of the last product of that type |
| AwsProduct.GetProductsEC2HourlyPrice | aws/product/awsec2product.go:51-71 | a credentials error or a fetch error is returned; otherwise the hourly price per instance type |
| History.WeekHistoryDateWindow | aws/usageReports/history/history.go:58-66 | the window runs from 00:00:00 UTC on the Sunday beginning the previous week to 23:59:59 on the Saturday six days later |
| History.HistoryDateWindow | aws/usageReports/history/history.go:69-74 | the window runs from the first to the last nanosecond of the previous month, January going back to December |
| History.MonthEndTouchesMonth | aws/usageReports/history/history.go:72 | the end is one nanosecond before the current month begins |
| History.LastRegionIsLastNonEmpty | aws/usageReports/history/history.go:130-135 | the region kept is the last non-empty one, or "" |
| History.ResourceCost | aws/usageReports/history/history.go:129-136 | a resource's cost is the sum of its regions' costs; its region is the last non-empty one |
| History.AppendPartition | aws/usageReports/history/history.go:128-137 | a partition appends one element per resource, in order |
| History.GetCostPerResource | aws/usageReports/history/history.go:109-140 | the partitions before the first failure are concatenated in order; the error is that of the failure unless its code is 200 |
| History.NoErrorUnlessFailure | aws/usageReports/history/history.go:114-127 | an error iff some partition failed with a code other than 200, or could not be decoded |
| History.ElementsFromBuckets | aws/usageReports/history/history.go:128-137 | every element comes from a resource bucket, and there is one per bucket |
| History.ConcatErrors | aws/usageReports/history/history.go:142-159 | no error iff the joined messages are empty; otherwise their first 254 characters |
| History.AccumulatedIsJoin | aws/usageReports/history/history.go:143-151 | with non-empty messages, the result joins the present ones with " + " and is empty iff there is no error |
| ReportsRoute.IsUserAccount | reports/reports_route.go:115-133 | an owner lookup error gives false and that error; the owner gives true; otherwise true iff a share has the user, a share lookup error giving false |
| ReportsRoute.WeekDatesWindow | reports/reports_route.go:203-208 | begin is 00:00:00 on the Sunday one week before the date's week, end is 23:59:59 six days later, both at the date's fixed offset, and they are a week less a second apart |
| ReportsRoute.WeekBeginDay | reports/reports_route.go:205 | the window opens in UTC at midnight, in the date's location, seven days before the Sunday of the date's week |
| ReportsRoute.WeekEndDay | reports/reports_route.go:206 | the window closes in UTC at 23:59:59, in the date's location, on the day before the Sunday of the date's week |
| Spreadsheet.NewCell | reports/spreadsheet.go:51-61 | the width is the first dimension when one is given, else 1; once converted, the cell is merged with width - 1 cells to its right, and with none for a width of 1 or less (reports/spreadsheet.go:76-80) |
| Spreadsheet.RowCellsLayout | reports/spreadsheet.go:63-85 | a raw cell is placed after its predecessors and their padding; a row of widths w1..wn has n plus the padding of all but the last cell |
| Spreadsheet.ConvertRow | reports/spreadsheet.go:66-83 | a row is converted cell by cell, with padding only before a following cell |
| Spreadsheet.ConvertToSheet | reports/spreadsheet.go:63-85 | one sheet row per raw row, in order, under the sheet's name |
| Spreadsheet.ErrorKeysAreFailures | reports/spreadsheet.go:93-101 | a name is an error key iff a sheet of that name failed to append |
| Spreadsheet.GenerateSpreadsheet | reports/spreadsheet.go:87-103 | every sheet is attempted; the errors are exactly the failed appends; the file holds, in order, the sheet of each table whose append succeeded, with that table's name and its rows converted cell by cell |
| EsReport.HeaderAligned | reports/es.go:32-53 | the widths of the first header row add up to the 14 cells of the second, and both rows span 14 cells |
| EsReport.FormatEsDomain | reports/es.go:55-74 | 14 cells of width 1, one per column of the second header row |
| EsReport.GetEsUsageReport | reports/es.go:76-120 | the data starts with the two header rows; without an account or after a failed lookup only those, with the error; otherwise one row per report, in order |
| Mail.MessageLayout | mail/mail.go:78-88 | the message opens with the originator line; a "To: " line follows iff there are recipients; then the subject line and the MIME header; it ends with an empty line and the body |
| Mail.SenderReadBack | mail/mail.go:80 | the originator is read back as the first line of the message |
| Mail.SendMail | mail/mail.go:45-58 | one recipient, the configured SMTP settings and sender, no MIME header; the message is the From, To and Subject lines, an empty line and the body |
| Mail.SendHtmlMail | mail/mail.go:63-75 | the given recipients and the HTML MIME header; the message has a To line iff there are recipients, and ends with the HTML header, an empty line and the body |
| Mail.PlainLayout | mail/mail.go:78-88 | a mail with one recipient and no MIME header is the From, To and Subject lines, an empty line and the body |
| Mail.MimeTail | mail/mail.go:78-88 | every message ends with its MIME header, an empty line and the body |
| Mail.PlainMessage | mail/mail.go:45-58 | a plain mail's message is its originator, its recipient line, its subject line, an empty line and its body |
| Mail.HtmlMessage | mail/mail.go:63-88 | an HTML mail's message ends with the HTML header, an empty line and the body |
| AwsAccountModel.StepsPreserve | models/awsaccount.xo.go:46-143 | every operation keeps a deleted record stored, never unstores or undeletes, and changes nothing when it fails |
| AwsAccountModel.InsertOnce | models/awsaccount.xo.go:50-78 | after a successful insert, a second insert is refused as already existing |
| AwsAccountModel.DeleteThenSave | models/awsaccount.xo.go:91-142 | after a successful delete, a save is refused as marked for deletion and a second delete does nothing |
| AwsAccountModel.LoadedRecord | models/awsaccount.xo.go:82-143 | a record from the database is updated, saved and deleted with the statement's own outcome |
| AwsAccountModel.AwsAccount.constructor | models/awsaccount.xo.go:15-32 | a new record is neither stored nor deleted |
| AwsAccountModel.AwsAccount.Exists | models/awsaccount.xo.go:36-39 | whether the record is stored |
| AwsAccountModel.AwsAccount.Deleted | models/awsaccount.xo.go:41-44 | whether the record is deleted |
| AwsAccountModel.AwsAccount.Insert | models/awsaccount.xo.go:46-79 | refused on a stored record; otherwise stored with the assigned id once the statement and the id retrieval succeed |
| AwsAccountModel.AwsAccount.Update | models/awsaccount.xo.go:82-104 | refused on a record not stored or deleted; otherwise the statement's outcome |
| AwsAccountModel.AwsAccount.Save | models/awsaccount.xo.go:107-113 | an update of a stored record, an insert otherwise |
| AwsAccountModel.AwsAccount.Delete | models/awsaccount.xo.go:116-143 | nothing on a record not stored or deleted; otherwise deleted once the statement succeeds |
| AwsAccountModel.AwsAccountById | models/awsaccount.xo.go:155-176 | the scanned row as a fresh, stored, undeleted record, or the scan's error |
| AwsAccountModel.AwsAccountsByUserId | models/awsaccount.xo.go:181-215 | one fresh, stored, undeleted record per row, in order; a query error gives no records and that error, and a row that fails to scan gives no records and the first such row's own scan error |
| TaskIngest.IngestTarget | server/taskIngest.go:38-57 | with a master account (0, 0); otherwise exactly two arguments, both integers, as (account, repository) |
| TaskIngest.IngestTargetOfPrintedIds | server/taskIngest.go:47-55 | round trip: two int64 ids written in decimal are ingested as given |
| TaskIngest.BillRepositoryPaths | server/taskIngest.go:102-122 | the master path is taken when either id is 0, and then the ids are not consulted; otherwise the master user is not |
| TaskIngest.MasterRepository | server/taskIngest.go:109-115 | on the master path, the first repository of the first account, or the zero repository when there is none |
| TaskIngest.PlanNextUpdate | server/taskIngest.go:164-178 | the last manifest moves only to a strictly later one, and a manifest at the same instant or earlier leaves it unchanged; the next update is between 300 and 420 minutes from now; nothing else changes |
| TaskIngest.ManifestNeverMovesBack | server/taskIngest.go:172-174 | planning again never moves the manifest back, and an older manifest leaves it in place |
| TaskIngest.CompletionError | server/taskIngest.go:150-162 | the error column holds the error's text, or "" without an error; it is empty iff there was no error or its text was empty |
| TaskIngest.CompletionErrorEmptyIffSuccess | server/taskIngest.go:155-160 | for errors with a text, the column is empty iff the ingestion succeeded |
| TaskIngest.Ingest | server/taskIngest.go:61-98 | committed iff the transaction began and no step failed; success means every lookup and the import succeeded; the completion is recorded in every case |
| TaskIngest.SuccessfulIngestion | server/taskIngest.go:61-98 | a successful ingestion stores the repository found, its error cleared, its manifest forward and its next update in the window |
| TaskSetupMasterAccount.ValidCharsShape | server/taskSetupMasterAccount.go:126 | the alphabet has 68 characters and no 'V' |
| TaskSetupMasterAccount.GeneratePassword | server/taskSetupMasterAccount.go:125-135 | exactly size characters, each the alphabet's character at the draw, so never 'V' |
| TaskSetupMasterAccount.AccountsOfSelects | server/taskSetupMasterAccount.go:77 | the accounts of a user are exactly those with its id |
| TaskSetupMasterAccount.RepositoriesOfSelects | server/taskSetupMasterAccount.go:106 | the repositories of an account are exactly those with its id |
| TaskSetupMasterAccount.TaskSetup | server/taskSetupMasterAccount.go:20-67 | an empty email or bucket fails and changes nothing; any failure rolls the database back; a mail is attempted only for a new user, with the password, and a mail that fails stops the setup with its error and rolls the database back |
| TaskSetupMasterAccount.SetupOfCompleteAccount | server/taskSetupMasterAccount.go:47-122 | a user with an account and a repository is left as is, and no mail is sent |
| TaskSetupMasterAccount.MasterBillDone | server/taskSetupMasterAccount.go:104-122 | after a successful run the account has a repository, and users and accounts are untouched; an existing repository leaves the database as it was, and otherwise one repository on the configured bucket with an empty prefix is added |
| TaskSetupMasterAccount.MasterAwsAccountDone | server/taskSetupMasterAccount.go:76-102 | after a successful run the user has an account, and its first account a repository |
| TaskSetupMasterAccount.ExistingAccountDone | server/taskSetupMasterAccount.go:91-101 | a user's existing first account is kept and ends with a repository |
| TaskSetupMasterAccount.NewAccountDone | server/taskSetupMasterAccount.go:80-101 | a user without an account gets the master account, which ends with a repository |
| TaskSetupMasterAccount.SetupCompletes | server/taskSetupMasterAccount.go:47-122 | a successful setup leaves the user with an account and a repository |
| TaskSetupMasterAccount.SetupIdempotent | server/taskSetupMasterAccount.go:47-122 | a second setup after a successful one changes nothing and sends no mail |
| TaskSetupMasterAccount.FailedAccountLookupCreates | server/taskSetupMasterAccount.go:77-89 | a failed account lookup is treated as no account, and an account is created |

## Left out

- The I/O is foreign throughout. Its results arrive as parameters. This covers:
  - the ElasticSearch queries;
  - the HTTP handlers and routes;
  - the AWS SDK calls (credentials, price list pages, STS);
  - the SMTP dialogue (dial, TLS, authentication, addresses, data);
  - the xlsx file, its upload and its local saving;
  - the SQL statements and transactions;
  - the datadog metrics;
  - the logger.
- The HTML and text templates of the mail and the cell styles are not modelled. The model keeps the data each table or section shows.
- `strconv.ParseFloat` on a price is an oracle. A term's price arrives already parsed, or as a failure. The error text (`AwsProduct.ParseErrorMessage`) is a placeholder: Go's message also quotes the price. The message is only logged.
- The JSON shape of a price-list item is not modelled. An item arrives as its reserved terms and its instance type.
- Go's map iteration order is an input, or an unspecified choice. No contract depends on it.
- Floating-point rounding is not modelled. `float64` values are reals.
- A Go location is modelled as one fixed offset from UTC (`Calendar.Time`). Daylight-saving changes are not modelled. Across such a change, `time.Date(..., date.Location())` (reports/reports_route.go:205-206) can give a begin and an end with different offsets; the model uses the date's offset for both. `time.Local`, the zone of the reserved-instance horizon (reports/prepare_ri.go:19), is likewise one fixed offset, passed as a parameter (`localOffset`).
- Strings are sequences of characters, while Go's `len` and slicing count bytes. For text outside ASCII the model differs. `ValidateAwsAccounts` tests `len(account) != 12` (aws/utils.go:26) in bytes, so it rejects a 12-character account of 13 bytes, which the model accepts. `concatErrors` cuts the message at 254 bytes (aws/usageReports/history/history.go:153-154); `History.ConcatErrors` cuts it at 254 characters.
- Timestamps of an `aws_account` row (creation and update) are not modelled.
- `formatRdsTable` is not modelled. The RDS section is rendered through `formatEc2Table` (reports/prepare_unused.go:72-75); `formatRdsTable` is not called.
- `IsInstanceUnused` and `WEEKDAYS` come from other packages. They are parameters: the predicate, and a positive number of weekdays.
- `formatEmail`, `formatGeneral`, `sendReportMail`, the other route handlers, `taskProcessAccount` and the `FetchHistoryInfos` orchestration only call the modelled functions and foreign code. They are not modelled.
- `prepareResponseRiResult` on a search result without a `usage` aggregation dereferences a nil pointer (usageReports/ri/prepare_response.go:67). That panic is not modelled; the aggregation arrives decoded or undecodable.
- The reuse of `parsedResult` across partitions in `getCostPerResource` is not modelled. Each partition arrives already decoded.
- `getEsUsageReport` uses its date only for the query. The date is not modelled.
- The `ingest` task keeps the random draw and the clock as parameters.
- The master-account setup lookups are modelled as succeeding or failing. A failed lookup counts as returning an empty list, as the code's `err == sql.ErrNoRows || len == 0` test does.
- PrepareMail.CalculateHistogram: requires the averages not to be all equal. Then the bucket width is 0 and Go computes `int(NaN)`, whose value Go leaves to the platform.
- PrepareS3.PrepareS3Buckets: requires every size to be below 1024 to the 5 gigabytes, so that the GB formatter has a unit. It also requires the weekday count to be positive.
- PrepareS3.FormatS3Buckets: has the same two requirements as PrepareS3Buckets.
- AwsProduct.FetchProducts: requires the sequence of pages to end, with a last page or a failure. The paging of an endless price list is not modelled.
- AwsProduct.GetProductsEC2HourlyPrice: has the same requirement on the pages as FetchProducts.
- TaskIngest.PlanNextUpdate: requires the random draw to lie in [0, 120), the range of `rand.Int63n(UpdateIntervalWindow)`.
- History.GetCostPerResource: requires exactly the five partition responses.
- `strconv.Atoi` errors quote the argument without Go's escaping. Only the message's shape is modelled.

## Notes on the source

These behaviours of the code look unintended. The model reproduces each one as written:

- `ReservedInstanceReport.Cost` is never set when reports are decoded (usageReports/ri/prepare_response.go:80-85). Every suggestion's difference therefore divides by a zero cost (reports/prepare_ri.go:185). `PrepareRi.ZeroCostUsagesSuggestNothing` shows the consequence: no suggestion ever has a positive difference, so the mail always shows the no-suggestion text.
- `calculateHistogram` divides 0 by 0 when all averages are equal (reports/prepare_mail.go:323-326).
- `LowUsedInstance.InstanceType` is never assigned (reports/prepare_unused.go:34-40). Every group has an empty type.
- `getBillRespository` can return the zero repository with no error. It does so on the master path when the master user has no account, or its first account has no repository (server/taskIngest.go:109-115).
- `createMasterAwsAccount` and `createMasterBill` treat a lookup error as "none found" and create a new record (server/taskSetupMasterAccount.go:80, 110).
- `ingestBillingDataForBillRepository` passes `aa` to `s3.UpdateReport`, but `aa` is declared and never assigned (server/taskIngest.go:63, 80). The report is always updated for the zero account. The model takes the outcome of `UpdateReport` as a parameter (`TaskIngest.Outcomes.updateReport`), so this is not visible in it.
