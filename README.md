# Job-board DynamoDB backend: attribute codec and table provisioning

This project is a Dafny model of two parts of the job board's DynamoDB backend.

**The attribute codec.** This is how job postings become DynamoDB items and back.
- DynamoDB's `AttributeValue` is a datatype; an item is a `map<string, AttributeValue>` (`AttributeValues`).
- The two closed enums, `JobTypeOption` and `CadenceOption`, become their upper-case text tokens and are read back by exact match.
- The three nested composites are encoded as `M` values:
  - `Address` holds one `S` per field, and `unit` is written only when present (`Addresses`).
  - `Pay` puts the cadence token and `min_base_pay` as decimal text, both in `S` (`Pays`).
  - `ExpectedHoursRange` puts `min` and `max` as decimal text in `N` (`JobPostings`).
- `JobPosting::to_item` and `JobPosting::from_item` are the top-level pair (`JobPostings`).
  - `to_item` is an imperative method that inserts the attributes into a fresh map one by one. It is proved equal to the function `EncodeItem`.
  - `from_item` is an option chain.
  - The round trip and the failure and degradation behaviour are proved as lemmas about these functions.
- Rust's `u8`/`u32` `to_string` and `parse` are modelled in `Decimal`.
  - The parser accepts an optional leading `+`, then one or more ASCII digits, and rejects values above the type's maximum.

**Table provisioning.** This is how the three tables `JobPostings`, `JobCategories` and `JobApplications` are created.
- `TableStore` models the DynamoDB client as a class `Store`:
  - its fields are the existing tables, the schema each was created with, and the log of requests sent;
  - it has methods `ListTables` and `CreateTable`;
  - each method is specified by a step function on a `StoreState` value.
- An `Environment` fixes whether listing fails, the error text for creating a table that already exists, and which other create requests the service rejects, with what error text.
  - Creating a table that already exists is also rejected.
- `JobPostingTables` holds:
  - the request each creator submits;
  - the well-formedness of those requests;
  - the shared skip-if-listed, create-otherwise step;
  - the three creator methods.
- `EnsureTables` models `ensure_all_tables_exist`:
  - it lists the tables once;
  - it then runs the three creators in order against that one snapshot, returning the first error.

Each imperative method is proved against a step function. For example, `Step(r, store.State()) == EnsureAll(store.env, old(store.State()))`. Then the order, fail-fast, idempotence and coverage properties are proved about those functions.

## Model

| member | source | states |
|---|---|---|
| Decimal.ToDecimal | src/models/job_posting.rs:101-102 | `to_string` of an unsigned integer is non-empty, all ASCII digits, without a leading zero, and denotes exactly `n` |
| Decimal.ParseUnsigned | src/models/job_posting.rs:109-110 | `parse` for an unsigned type never yields a value above the type's maximum |
| Decimal.LeadingZeros | src/models/job_posting.rs:109-110 | leading zeros in front of digits keep them digits and do not change the value |
| Decimal.Canonical | src/models/job_posting.rs:101-110 | digits without a leading zero denote a positive value and are exactly that value's `to_string` |
| Decimal.StripZeros | src/models/job_posting.rs:109-110 | every non-empty run of digits is some leading zeros followed by the `to_string` of its value |
| Decimal.ParseUnsignedSpells | src/models/job_posting.rs:109-110 | the parse yields `n` exactly when `n` is at most the maximum and the text is `n.to_string()` behind an optional `+` and any leading zeros |
| Decimal.ParseUnsignedAccepts | src/models/pay.rs:102-103 | the same acceptance set, for every `n` at once: nothing else parses, and each accepted text gives its one value |
| Decimal.ParseU8 | src/models/job_posting.rs:109-110 | `parse::<u8>()` yields a value only for a text that spells it, and yields `n` for every spelling of every `n <= 255` |
| Decimal.ParseU32 | src/models/pay.rs:102-103 | `parse::<u32>()` yields a value only for a text that spells it, and yields `n` for every spelling of every `n <= 2^32-1` |
| Decimal.ParseToDecimal | src/models/pay.rs:102-118 | decimal text of any value within the maximum parses back to that value |
| Decimal.ParseToDecimalOutOfRange | src/models/job_posting.rs:109-110 | decimal text of a value above the maximum is rejected, not truncated |
| Decimal.U8RoundTrip | src/models/job_posting.rs:101-110 | every `u8` survives `to_string` then `parse::<u8>()` |
| Decimal.U32RoundTrip | src/models/pay.rs:102-118 | every `u32` survives `to_string` then `parse::<u32>()` |
| Decimal.OutOfRangeExamples | src/models/job_posting.rs:109-110 | the text of 256 is not a `u8`; the text of 2^32 is not a `u32` |
| Decimal.ParseRejectsNonNumerals | src/models/pay.rs:102-103 | empty text, a bare sign, or any non-digit character never parses |
| Decimal.SignExamples | src/models/job_posting.rs:109-110 | `-1` is rejected, while `+7` and `007` both parse to 7 |
| AttributeValues.GetS | src/models/job_posting.rs:210-214 | `get(k)?.as_s().ok()?` succeeds exactly when `k` holds an `S`, and yields its text |
| AttributeValues.GetN | src/models/job_posting.rs:109-110 | `get(k)?.as_n().ok()?` succeeds exactly when `k` holds an `N`, and yields its text |
| Pays.CadenceToString | src/models/pay.rs:20-28 | every cadence's token is one of `HOUR`, `DAY`, `WEEK`, `MONTH`, `YEAR` |
| Pays.CadenceToStr | src/models/pay.rs:29-37 | `to_str` yields one of the five tokens |
| Pays.CadenceFromString | src/models/pay.rs:38-52 | succeeds exactly on the five tokens, and then inverts `to_string`; any other text gives the `DatabaseError` with the fixed message |
| Pays.CadenceRoundTrip | src/models/pay.rs:19-52 | `from_string(to_string(c)) == Ok(c)` and `to_str(c) == to_string(c)` for every cadence |
| Pays.CadenceTokensInjective | src/models/pay.rs:20-28 | distinct cadences have distinct tokens |
| Pays.NewPay | src/models/pay.rs:86-93 | `Pay::new` fails exactly when the cadence text is not a token; otherwise it keeps `min_base_pay` unchanged |
| Pays.EncodePay | src/models/pay.rs:114-121 | the nested map of a pay; its shape and read-back are `EncodePayShape` and `RoundTrip` |
| Pays.FromAttributeValue | src/models/pay.rs:95-112 | the option chain of `from_attribute_value`; when it succeeds and when it fails is `DecodeSucceedsIff` |
| Pays.ToAttributeValue | src/models/pay.rs:114-121 | the in-place inserts build `EncodePay(p)`: an `M` with the cadence token and the decimal text of `min_base_pay`, both as `S` |
| Pays.RoundTrip | src/models/pay.rs:95-121 | `from_attribute_value(to_attribute_value(p)) == Some(p)` for every cadence and every `u32` |
| Pays.EncodePayShape | src/models/pay.rs:114-121 | the encoded pay has exactly the keys `cadence` and `min_base_pay`; `min_base_pay` is an `S` of decimal text |
| Pays.DecodeSucceedsIff | src/models/pay.rs:95-112 | decoding succeeds exactly for an `M` with a known cadence token in an `S` and `u32` text in an `S` under `min_base_pay` |
| Pays.NumericMinBasePayRejected | src/models/pay.rs:102-103 | a `min_base_pay` stored as `N` makes the decode fail |
| Pays.OverflowingMinBasePayRejected | src/models/pay.rs:102-103 | the text of a value above 2^32-1 makes the decode fail |
| Addresses.ToAttributeValue | src/models/address.rs:139-153 | the conditional inserts build `EncodeAddress(a)` |
| Addresses.EncodeAddress | src/models/address.rs:139-153 | the nested map of an address; its keys and variants are `EncodeAddressKeys` |
| Addresses.UnitOf | src/models/address.rs:115-121 | the unit is read exactly when `unit` holds an `S`, and is then its text; anything else gives `None` |
| Addresses.FromAttributeValue | src/models/address.rs:112-138 | the option chain of `from_attribute_value`; when it succeeds is `DecodeSucceedsIff`, and the round trip is `RoundTrip` |
| Addresses.EncodeAddressKeys | src/models/address.rs:139-153 | the encoding is an `M` of `S` values with keys street, city, state, country, zip, plus `unit` exactly when the unit is present |
| Addresses.EncodeAddressSize | src/models/address.rs:139-153 | no null marker: 5 keys without a unit, 6 with one |
| Addresses.RoundTrip | src/models/address.rs:112-153 | `from_attribute_value(to_attribute_value(a)) == Some(a)` for every address |
| Addresses.DecodeSucceedsIff | src/models/address.rs:112-138 | decoding succeeds exactly for an `M` holding an `S` under each of the five required keys |
| Addresses.UnitDegrades | src/models/address.rs:115-121 | a missing `unit`, a `Null` one or any other non-`S` one gives `unit == None` without failing the decode |
| Addresses.TrimStart | src/models/address.rs:86 | `trim_start` drops exactly the leading whitespace |
| Addresses.TrimEnd | src/models/address.rs:86 | `trim_end` drops exactly the trailing whitespace |
| Addresses.Trim | src/models/address.rs:86-107 | `trim` keeps, character for character, the part of `s` after its leading whitespace, and everything outside that part is whitespace; the result neither starts nor ends with whitespace |
| Addresses.TrimEmptyIffBlank | src/models/address.rs:86-107 | `s.trim().is_empty()` holds exactly when every character of `s` is whitespace |
| Addresses.Validate | src/models/address.rs:75-110 | an error is always one of the six fixed messages, and `Ok` implies the trimmed street matches one of the two patterns |
| Addresses.ValidateReportsFirstFailure | src/models/address.rs:86-109 | `validate` returns the message of the first failing check, in the source order: blank street, street matching neither pattern, then blank city, state, country, zip |
| Addresses.ValidateOkIff | src/models/address.rs:86-109 | `validate` returns `Ok` exactly when all five fields have a non-whitespace character and the trimmed street matches one of the two patterns |
| JobPostings.JobTypeToString | src/models/job_posting.rs:25-34 | every job type's token is one of the six tokens |
| JobPostings.JobTypeToStr | src/models/job_posting.rs:35-44 | `to_str` yields one of the six tokens |
| JobPostings.JobTypeFromString | src/models/job_posting.rs:45-59 | succeeds exactly on `FULL_TIME`, `PART_TIME`, `CONTRACT`, `TEMPORARY`, `SEASONAL`, `REMOTE`, and then inverts `to_string`; there is no default variant, and any other text gives the fixed `DatabaseError` |
| JobPostings.JobTypeRoundTrip | src/models/job_posting.rs:24-60 | `from_string(to_string(t)) == Ok(t)` and `to_str(t) == to_string(t)` for every job type |
| JobPostings.JobTypeTokensInjective | src/models/job_posting.rs:25-34 | distinct job types have distinct tokens |
| JobPostings.EncodeHours | src/models/job_posting.rs:98-105 | the nested map of an hours range; its read-back is `HoursRoundTrip` |
| JobPostings.HoursFromAttributeValue | src/models/job_posting.rs:107-119 | the option chain of `from_attribute_value`; when it succeeds is `HoursDecodeSucceedsIff` |
| JobPostings.HoursToAttributeValue | src/models/job_posting.rs:98-105 | the inserts build `EncodeHours(r)`: an `M` with `min` and `max` as `N` decimal text |
| JobPostings.HoursRoundTrip | src/models/job_posting.rs:98-119 | `from_attribute_value(to_attribute_value(r)) == Some(r)` |
| JobPostings.HoursDecodeSucceedsIff | src/models/job_posting.rs:107-119 | decoding fails exactly when the value is not an `M`, `min` or `max` is missing or not an `N`, or its text is not a `u8` |
| JobPostings.HoursOverflowRejected | src/models/job_posting.rs:109-110 | an hour count above 255 under `min` or `max` makes the range unreadable |
| JobPostings.NewJobPosting | src/models/job_posting.rs:159-195 | `new` fails exactly when the job type text is not a token; on success `created_at == updated_at == now` and every other argument is copied unchanged |
| JobPostings.PrimaryKey | src/models/job_posting.rs:203-205 | the key is the posting's `id`; `EncodeItemId` and `FromItem` tie it to the stored `id` attribute |
| JobPostings.StringsOf | src/models/job_posting.rs:232-244 | `filter_map(as_s)` keeps exactly the `S` elements; with only `S` elements nothing is dropped and the `i`-th string is the `i`-th element's text |
| JobPostings.StringsOfConcat | src/models/job_posting.rs:232-244 | the filtering keeps the order: the strings of `a + b` are those of `a` followed by those of `b` |
| JobPostings.StringsRoundTrip | src/models/job_posting.rs:232-244 | reading back an encoded list of strings gives the list |
| JobPostings.InsertIfPresent | src/models/job_posting.rs:318-323 | `if let Some(v)` then `insert` is `Put`: the map updated when there is a value, unchanged otherwise |
| JobPostings.EncodeItem | src/models/job_posting.rs:300-359 | the item `to_item` builds; its attributes are stated by the `EncodeItem*` lemmas below |
| JobPostings.ToItem | src/models/job_posting.rs:300-359 | the inserts, in the source order, build `EncodeItem(jp)` |
| JobPostings.EncodeItemId | src/models/job_posting.rs:203-205 | the item's `id` is the `S` of the primary key |
| JobPostings.EncodeItemTitle | src/models/job_posting.rs:304 | the item holds `job_title` as an `S` |
| JobPostings.EncodeItemEmployer | src/models/job_posting.rs:305-306 | the item holds `employer_name` and `employer_url` as `S` |
| JobPostings.EncodeItemLocation | src/models/job_posting.rs:307-310 | the item holds the encoded address and a top-level `city` that is the `S` of `address.city` |
| JobPostings.EncodeItemDetails | src/models/job_posting.rs:316-356 | the item holds `job_type` (the token), `job_description`, `expected_hours`, `created_at` and `updated_at` |
| JobPostings.EncodeItemPayAndLink | src/models/job_posting.rs:312-323 | `pay` and `link_to_application` are present exactly when the field is `Some`, holding its encoding |
| JobPostings.EncodeItemListsAndExtra | src/models/job_posting.rs:327-352 | `employee_responsibilities`, `experience_requirements` and `extra_info` are present exactly when the field is `Some` |
| JobPostings.EncodeItemBounded | src/models/job_posting.rs:300-359 | no attribute beyond the eleven fixed and five optional ones is written |
| JobPostings.EncodeItemCarries | src/models/job_posting.rs:300-359 | the built item satisfies `Carries`: all eleven fixed attributes, each optional one exactly when present, nothing else |
| JobPostings.CityMirrorsAddress | src/models/job_posting.rs:307-310 | the top-level `city` equals the city decoded from the nested address |
| JobPostings.FromItem | src/models/job_posting.rs:207-298 | a decoded posting's primary key is the item's `id` text; an absent `created_at` gives the first clock reading and an absent `updated_at` the second |
| JobPostings.CarriedDecodes | src/models/job_posting.rs:207-298 | any item satisfying `Carries` for `jp` decodes to `jp`, provided the timestamp text parses back |
| JobPostings.CarriedOptionalDecodes | src/models/job_posting.rs:218-263 | each optional attribute `to_item` writes (or omits) decodes back to that optional field of the posting |
| JobPostings.RoundTrip | src/models/job_posting.rs:207-359 | `from_item(to_item(jp)) == Some(jp)` for every field, provided the timestamp text parses back |
| JobPostings.FromItemSucceedsIff | src/models/job_posting.rs:207-267 | `from_item` fails exactly when `id`, `job_title`, `employer_name`, `employer_url`, `address`, `job_type`, `job_description` or `expected_hours` is missing, has the wrong variant, or fails its sub-decode |
| JobPostings.MissingRequiredFails | src/models/job_posting.rs:207-267 | removing any of the eight required attributes makes `from_item` return `None` |
| JobPostings.DecodesRequiredDependsOnlyOnDecodeKeys | src/models/job_posting.rs:207-267 | the decode condition looks only at the eight required attributes |
| JobPostings.OptionalNeverFails | src/models/job_posting.rs:218-279 | two items that agree on the required attributes both decode or both fail: optional and timestamp attributes never cause failure |
| JobPostings.StrippedDecodesAlike | src/models/job_posting.rs:218-279 | dropping every optional and timestamp attribute does not change whether an item decodes |
| JobPostings.OptionalDegrades | src/models/job_posting.rs:218-263 | a malformed `pay`, or a non-`S` `link_to_application` or `extra_info`, gives `None` for that field |
| JobPostings.ListsDegrade | src/models/job_posting.rs:232-258 | a non-`L` list attribute gives `None`; an `L` keeps only its `S` elements |
| JobPostings.TimestampsDegrade | src/models/job_posting.rs:269-279 | a missing, non-`S` or unparsable `created_at` / `updated_at` gives that field's clock reading; a parsable one gives the parsed time |
| JobPostings.BakerExample | src/models/job_posting.rs:300-359 | a full-time posting without pay is stored with `job_type` `FULL_TIME` and no `pay`, and reads back that way |
| TableStore.ListStep | src/db/ensure_table_exists.rs:25-32 | listing appends one request to the log and changes nothing else; it succeeds unless the environment makes it fail, and then returns the existing tables |
| TableStore.CreateStep | src/db/job_posting_tables.rs:153-172 | a create appends exactly that request to the log; it succeeds exactly when the table does not already exist and is not rejected; success adds the table with the submitted schema, failure changes neither and carries the environment's text for the refusal (its in-use text for an existing table, else its rejection text) |
| TableStore.CreatePreservesRecorded | src/db/job_posting_tables.rs:153-172 | a table only comes into existence with a recorded schema, and that schema is the submitted request |
| TableStore.Store.ListTables | src/db/ensure_table_exists.rs:25-32 | the client's `list_tables` behaves as `ListStep` |
| TableStore.Store.CreateTable | src/db/job_posting_tables.rs:153-172 | the client's `create_table` behaves as `CreateStep` |
| JobPostingTables.TableRequest | src/db/job_posting_tables.rs:153-166 | a request carries the given table name, one attribute definition per index plus `id`, and one index per index spec |
| JobPostingTables.TableRequestWellFormed | src/db/job_posting_tables.rs:46-166 | with distinct index names and attributes, none being `id`, the request is `WellFormed`: per-request billing, declared attributes exactly the key attributes, each once and all `S`, sole hash key `id`, distinct index names, each index with one hash key and projection `All` |
| JobPostingTables.JobPostingsRequest | src/db/job_posting_tables.rs:46-166 | `JobPostings`, billed per request, declares the string attributes `id`, `employer_name`, `job_type`, `city`, `created_at`, has hash key `id` and the all-projecting hash indexes `EmployerIndex`, `JobTypeIndex`, `LocationIndex`, `CreatedAtIndex` on the last four |
| JobPostingTables.JobCategoriesRequest | src/db/job_posting_tables.rs:196-241 | `JobCategories`, billed per request, declares the string attributes `id` and `category_name`, has hash key `id` and the all-projecting hash index `CategoryNameIndex` on `category_name` |
| JobPostingTables.JobApplicationsRequest | src/db/job_posting_tables.rs:273-377 | `JobApplications`, billed per request, declares the string attributes `id`, `job_posting_id`, `applicant_email`, `application_status`, has hash key `id` and the all-projecting hash indexes `JobPostingIndex`, `ApplicantIndex`, `StatusIndex` on the last three |
| JobPostingTables.JobPostingsRequestWellFormed | src/db/job_posting_tables.rs:46-166 | the `JobPostings` request is well formed |
| JobPostingTables.JobCategoriesRequestWellFormed | src/db/job_posting_tables.rs:196-241 | the `JobCategories` request is well formed |
| JobPostingTables.JobApplicationsRequestWellFormed | src/db/job_posting_tables.rs:273-377 | the `JobApplications` request is well formed |
| JobPostingTables.JobPostingsIndexes | src/db/job_posting_tables.rs:46-166 | `JobPostings` declares `id`, `employer_name`, `job_type`, `city`, `created_at` and has exactly four indexes: `EmployerIndex`, `JobTypeIndex`, `LocationIndex`, `CreatedAtIndex` on those attributes |
| JobPostingTables.IndexKeysWrittenAsStrings | src/db/job_posting_tables.rs:38-150 | every `JobPostings` index key is an attribute `to_item` always writes as an `S`, and the table name is the entity's `table_name` |
| JobPostingTables.CreateFailure | src/db/job_posting_tables.rs:168-172 | a rejected create becomes a `DatabaseError` whose message begins `Failed to create <table> table: ` |
| JobPostingTables.FailureNamesTable | src/db/job_posting_tables.rs:168-172 | that message contains the table name |
| JobPostingTables.CreateIfAbsent | src/db/job_posting_tables.rs:40-172 | a creator never removes a table, and `Ok` means its table was listed or exists now |
| JobPostingTables.SkipWhenListed | src/db/job_posting_tables.rs:40-43 | a table in the listing gives `Ok` with no request sent and nothing changed |
| JobPostingTables.CreateWhenUnlisted | src/db/job_posting_tables.rs:153-172 | otherwise exactly one create request, that table's, is sent; `Ok` exactly when the service creates it, and then the tables and schemas are the old ones plus exactly that table with that schema; on failure the tables and schemas are unchanged and the error names the table and is `CreateFailure` of the environment's text for the refusal |
| JobPostingTables.CreateTableIfAbsent | src/db/job_posting_tables.rs:34-176 | the shared creator body, run on the client, behaves as `CreateIfAbsent` |
| JobPostingTables.CreateJobPostingsTable | src/db/job_posting_tables.rs:34-176 | `create_job_postings_table` is `CreateIfAbsent` with the `JobPostings` request |
| JobPostingTables.CreateJobCategoriesTable | src/db/job_posting_tables.rs:184-251 | `create_job_categories_table` is `CreateIfAbsent` with the `JobCategories` request |
| JobPostingTables.CreateJobApplicationsTable | src/db/job_posting_tables.rs:261-387 | `create_job_applications_table` is `CreateIfAbsent` with the `JobApplications` request |
| EnsureTables.CreateAll | src/db/ensure_table_exists.rs:38-40 | the creators in order never remove a table, only append to the log, and send at most one request each |
| EnsureTables.EnsureAll | src/db/ensure_table_exists.rs:23-44 | the run never removes a table; its log begins with the one listing and holds at most three more requests |
| EnsureTables.TableRequests | src/db/ensure_table_exists.rs:38-40 | the creators' requests, three of them, in the fixed order |
| EnsureTables.EnsureAllTablesExist | src/db/ensure_table_exists.rs:23-44 | the method behaves as `EnsureAll`: one listing, then the three creators against that listing, stopping at the first error |
| EnsureTables.Unlisted | src/db/ensure_table_exists.rs:38-40 | holds exactly the requests whose tables are missing from the snapshot, and is no longer than the input |
| EnsureTables.UnlistedConcat | src/db/ensure_table_exists.rs:38-40 | the filtering keeps the order: the unlisted requests of `a + b` are those of `a` followed by those of `b` |
| EnsureTables.InstallFrame | src/db/job_posting_tables.rs:153-167 | recording the schemas of created tables adds exactly those tables' names and keeps every other table's schema |
| EnsureTables.CreatedCons | src/db/ensure_table_exists.rs:38-40 | a request the service accepts in front of accepted requests: together they were accepted, and the tables and schemas are the starting ones plus theirs |
| EnsureTables.SentPrefixCons | src/db/ensure_table_exists.rs:38-40 | a sent prefix extends by one request at its front when the service accepted that request in the starting state; the exact frame of tables and schemas carries over |
| EnsureTables.CreateAllFailFast | src/db/ensure_table_exists.rs:38-40 | the requests sent are, in order, the first `k` of the unlisted tables' requests; `Ok` means all of them, each accepted (its table neither in the starting tables nor rejected); on an error the first `k-1` were accepted and the last one sent is the one the service refused, the error being `CreateFailure` of the environment's text for that refusal; in both cases the final tables are exactly the starting ones plus the accepted ones, and the final schemas the starting ones with the accepted requests recorded |
| EnsureTables.CreateAllCovers | src/db/ensure_table_exists.rs:38-40 | tables never disappear, and on `Ok` every table is in the snapshot or exists |
| EnsureTables.CreateAllSkipsListed | src/db/ensure_table_exists.rs:38-40 | when every table is in the snapshot, nothing is sent and the result is `Ok` |
| EnsureTables.CreateAllKeepsWellFormed | src/db/ensure_table_exists.rs:38-40 | submitting only well-formed requests keeps every recorded schema well formed |
| EnsureTables.TableRequestsNames | src/db/ensure_table_exists.rs:38-40 | the order is `JobPostings`, `JobCategories`, `JobApplications`, and these are exactly the three table names |
| EnsureTables.TableRequestsWellFormed | src/db/ensure_table_exists.rs:38-40 | all three requests are well formed |
| EnsureTables.ListFailureStops | src/db/ensure_table_exists.rs:25-32 | a failed listing gives a `DatabaseError` with the list-failure message and the quoted cause; the only request sent is the listing |
| EnsureTables.EnsureAllFailFast | src/db/ensure_table_exists.rs:23-44 | after a successful listing, the log is the one listing followed, in the fixed order, by create requests for a prefix of the snapshot's missing tables; `Ok` means all of them were accepted; on an error all but the last were accepted and the last was refused, with the environment's text for the refusal in the error; the final tables and schemas are exactly the starting ones plus those of the accepted requests |
| EnsureTables.EnsureAllFrame | src/db/ensure_table_exists.rs:23-44 | whatever the outcome, the run adds no table and no schema outside the three it creates, and keeps the schema of every table that existed before and of every other table |
| EnsureTables.OkMeansAllExist | src/db/ensure_table_exists.rs:23-44 | on `Ok`, all three tables exist |
| EnsureTables.Idempotent | src/db/ensure_table_exists.rs:23-44 | a second run against the store a successful run left sends only the listing and returns `Ok`, under any service whose listing works, whatever it would refuse |
| EnsureTables.EnsureAllKeepsWellFormed | src/db/ensure_table_exists.rs:23-44 | the run keeps every recorded schema well formed |
| EnsureTables.FreshStore | src/db/ensure_table_exists.rs:23-44 | against an empty store that rejects nothing, the run returns `Ok`, creates exactly the three tables with their requests, and sends the listing and three creates in order |
| EnsureTables.JobPostingsAlreadyThere | src/db/ensure_table_exists.rs:23-44 | with `JobPostings` already listed, only `JobCategories` and `JobApplications` are requested, in that order |

## Left out

- Regular expressions: `Address::validate` takes its street and post-office-box patterns as predicate parameters. The regex engine and these two patterns are not modelled.
- Regex compilation: the `InternalServerError` path that `validate` takes when a pattern fails to compile is left out. Both patterns are constants, so that path never runs.
- Trimming follows Rust's `char::is_whitespace`, the Unicode White_Space property, not an ASCII-only approximation.
- Clock: `Utc::now()` is a parameter. `JobPosting::new` reads it once, as `now`. `from_item` may read it twice, once per missing or unparsable timestamp; these are the two fields of a `Clock`. The model does not say that the second reading is not earlier than the first.
- Timestamps: a timestamp is its display text. `parse::<DateTime<Utc>>()` is a parameter `parseTime`.
- JobPostings.RoundTrip: the timestamp part holds only on the hypothesis that `parseTime` reads the stored text back. Whether chrono's parser accepts chrono's own display text is not modelled.
- Ids: UUID generation in the GraphQL mutation is randomness and is not part of this model. It gives ids with a `job_posting-` prefix.
- The AWS SDK: the client is the deterministic `Store`.
  - Asynchrony, network failure details, pagination of `list_tables` and the SDK's error types are not modelled.
  - A service error is its text, given by the `Environment`. The code formats `e.to_string()` of the SDK's error, whose exact wording is not modelled; the texts are placeholders.
- Concurrency: two processes racing to create the same table are not modelled. A create that fails because the table already exists returns that error, as the code does; it is not recovered.
- The `build` helper from `db::common` is not part of this model. Every builder sets all its required fields, so it is treated as infallible.
- AppErrors.DebugString: `{:?}` of a `String` is modelled as the text between double quotes. Rust's escaping of quotes, backslashes and control characters inside the text is not modelled.
- `AppError` is defined in `src/error.rs`, which is not part of this model. Only its two variants `DatabaseError` and `InternalServerError` appear here.
- `Repository` CRUD operations, the GraphQL schema, resolvers and type getters, and the module files are not part of this model.
- Logging (`println!`, `info!`) has no effect on the model and is not modelled.

## Behaviour of the code that a reader might not expect

In both cases the model follows the code.

- Optional attributes: a present but malformed optional attribute (`pay`, `link_to_application`, the two lists, `extra_info`) does not fail the decode. That field degrades to `None`, or for a list its non-`S` elements are dropped. The same holds for a malformed timestamp, which falls back to the clock reading.
- Already-existing tables: a table created between the listing and the create request is not skipped. The create error is returned as a `DatabaseError` and ends the run.
