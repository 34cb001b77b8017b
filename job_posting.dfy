/**
  A job posting and its DynamoDB item: the job type token, the expected-hours range,
  `JobPosting::new`, the entity contract (table name, primary key) and the
  `to_item` / `from_item` pair.
*/
module JobPostings {
  import opened Wrappers
  import opened Decimal
  import opened AttributeValues
  import opened AppErrors
  import Addresses
  import Pays

  // ---------------------------------------------------------------------------
  // Job type
  // ---------------------------------------------------------------------------

  datatype JobTypeOption = FullTime | PartTime | Contract | Temporary | Seasonal | Remote

  const JobTypeTokens: set<string> :=
    {"FULL_TIME", "PART_TIME", "CONTRACT", "TEMPORARY", "SEASONAL", "REMOTE"}

  const JobTypeParseError := "Cannot perform from_string on JobTypeOption input"

  /** `JobTypeOption::to_string`. */
  function JobTypeToString(t: JobTypeOption): (s: string)
    ensures s in JobTypeTokens
  {
    match t
    case FullTime => "FULL_TIME"
    case PartTime => "PART_TIME"
    case Contract => "CONTRACT"
    case Temporary => "TEMPORARY"
    case Seasonal => "SEASONAL"
    case Remote => "REMOTE"
  }

  /** `JobTypeOption::to_str`. */
  function JobTypeToStr(t: JobTypeOption): (s: string)
    ensures s in JobTypeTokens
  {
    match t
    case FullTime => "FULL_TIME"
    case PartTime => "PART_TIME"
    case Contract => "CONTRACT"
    case Temporary => "TEMPORARY"
    case Seasonal => "SEASONAL"
    case Remote => "REMOTE"
  }

  /** `JobTypeOption::from_string`: exact match against the six tokens, with no default. */
  function JobTypeFromString(s: string): (r: Result<JobTypeOption, AppError>)
    ensures r.Ok? <==> s in JobTypeTokens
    ensures r.Ok? ==> JobTypeToString(r.value) == s
    ensures r.Err? ==> r.error == DatabaseError(JobTypeParseError)
  {
    match s
    case "FULL_TIME" => Ok(FullTime)
    case "PART_TIME" => Ok(PartTime)
    case "CONTRACT" => Ok(Contract)
    case "TEMPORARY" => Ok(Temporary)
    case "SEASONAL" => Ok(Seasonal)
    case "REMOTE" => Ok(Remote)
    case _ => Err(DatabaseError(JobTypeParseError))
  }

  lemma JobTypeRoundTrip(t: JobTypeOption)
    ensures JobTypeFromString(JobTypeToString(t)) == Ok(t)
    ensures JobTypeToStr(t) == JobTypeToString(t)
  {
  }

  /** Distinct job types have distinct tokens. */
  lemma JobTypeTokensInjective(t: JobTypeOption, u: JobTypeOption)
    requires JobTypeToString(t) == JobTypeToString(u)
    ensures t == u
  {
    JobTypeRoundTrip(t);
    JobTypeRoundTrip(u);
  }

  // ---------------------------------------------------------------------------
  // Expected hours
  // ---------------------------------------------------------------------------

  datatype ExpectedHoursRange = ExpectedHoursRange(min: U8, max: U8)

  /** The nested map `ExpectedHoursRange::to_attribute_value` produces. */
  function EncodeHours(r: ExpectedHoursRange): AttributeValue
  {
    M(map["min" := N(ToDecimal(r.min)), "max" := N(ToDecimal(r.max))])
  }

  /** `ExpectedHoursRange::to_attribute_value`. */
  method HoursToAttributeValue(r: ExpectedHoursRange) returns (av: AttributeValue)
    ensures av == EncodeHours(r)
  {
    var item: map<string, AttributeValue> := map[];
    item := item["min" := N(ToDecimal(r.min))];
    item := item["max" := N(ToDecimal(r.max))];
    av := M(item);
  }

  /** `ExpectedHoursRange::from_attribute_value`. */
  function HoursFromAttributeValue(av: AttributeValue): Option<ExpectedHoursRange>
  {
    if av.M? then
      var minText :- GetN(av.m, "min");
      var min :- ParseU8(minText);
      var maxText :- GetN(av.m, "max");
      var max :- ParseU8(maxText);
      Some(ExpectedHoursRange(min, max))
    else
      None
  }

  lemma HoursRoundTrip(r: ExpectedHoursRange)
    ensures HoursFromAttributeValue(EncodeHours(r)) == Some(r)
  {
    U8RoundTrip(r.min);
    U8RoundTrip(r.max);
  }

  /** Decoding fails if the value is not an `M`, if `min`/`max` is missing or not an `N`, or if its text is not a `u8`. */
  lemma HoursDecodeSucceedsIff(av: AttributeValue)
    ensures HoursFromAttributeValue(av).Some? <==>
      && av.M?
      && "min" in av.m && av.m["min"].N? && ParseUnsigned(av.m["min"].n, U8Max).Some?
      && "max" in av.m && av.m["max"].N? && ParseUnsigned(av.m["max"].n, U8Max).Some?
  {
  }

  /** An hour count of 256 or more stored under `min` or `max` makes the range unreadable. */
  lemma HoursOverflowRejected(av: AttributeValue, key: string, n: nat)
    requires key == "min" || key == "max"
    requires av.M? && key in av.m && av.m[key] == N(ToDecimal(n)) && n > U8Max
    ensures HoursFromAttributeValue(av) == None
  {
    ParseToDecimalOutOfRange(n, U8Max);
  }

  // ---------------------------------------------------------------------------
  // The job posting
  // ---------------------------------------------------------------------------

  /** A UTC timestamp, represented by its display text. */
  type Timestamp = string

  datatype JobPosting = JobPosting(
    id: string,
    jobTitle: string,
    employerName: string,
    employerUrl: string,
    address: Addresses.Address,
    pay: Option<Pays.Pay>,
    jobType: JobTypeOption,
    linkToApplication: Option<string>,
    jobDescription: string,
    employeeResponsibilities: Option<seq<string>>,
    experienceRequirements: Option<seq<string>>,
    extraInfo: Option<string>,
    expectedHours: ExpectedHoursRange,
    createdAt: Timestamp,
    updatedAt: Timestamp)

  /** `JobPosting::new`; `now` stands for `Utc::now()`. */
  function NewJobPosting(
    id: string,
    jobTitle: string,
    employerName: string,
    employerUrl: string,
    address: Addresses.Address,
    pay: Option<Pays.Pay>,
    jobTypeString: string,
    linkToApplication: Option<string>,
    jobDescription: string,
    employeeResponsibilities: Option<seq<string>>,
    experienceRequirements: Option<seq<string>>,
    extraInfo: Option<string>,
    expectedHours: ExpectedHoursRange,
    now: Timestamp): (r: Result<JobPosting, AppError>)
    ensures r.Ok? <==> jobTypeString in JobTypeTokens
    ensures r.Err? ==> r.error == DatabaseError(JobTypeParseError)
    ensures r.Ok? ==>
      && r.value.createdAt == now && r.value.updatedAt == now
      && JobTypeToString(r.value.jobType) == jobTypeString
      && r.value.id == id && r.value.jobTitle == jobTitle
      && r.value.employerName == employerName && r.value.employerUrl == employerUrl
      && r.value.address == address && r.value.pay == pay
      && r.value.linkToApplication == linkToApplication
      && r.value.jobDescription == jobDescription
      && r.value.employeeResponsibilities == employeeResponsibilities
      && r.value.experienceRequirements == experienceRequirements
      && r.value.extraInfo == extraInfo && r.value.expectedHours == expectedHours
  {
    var jobType :- JobTypeFromString(jobTypeString);
    Ok(JobPosting(id, jobTitle, employerName, employerUrl, address, pay, jobType,
      linkToApplication, jobDescription, employeeResponsibilities, experienceRequirements,
      extraInfo, expectedHours, now, now))
  }

  /** `DynamoDbEntity::table_name`. */
  const TableName := "JobPostings"

  /** `DynamoDbEntity::primary_key`. */
  function PrimaryKey(jp: JobPosting): string
  {
    jp.id
  }

  /** A list of strings as an `L` of `S` values. */
  function EncodeStrings(xs: seq<string>): (r: seq<AttributeValue>)
    ensures |r| == |xs| && forall i :: 0 <= i < |xs| ==> r[i] == S(xs[i])
  {
    seq(|xs|, i requires 0 <= i < |xs| => S(xs[i]))
  }

  /** `filter_map(as_s)`: the `S` elements of a list, in order; the rest are dropped. */
  function StringsOf(l: seq<AttributeValue>): (r: seq<string>)
    ensures |r| <= |l|
    ensures forall x :: x in r <==> S(x) in l
    ensures (forall i :: 0 <= i < |l| ==> l[i].S?) ==> |r| == |l| && forall i :: 0 <= i < |l| ==> r[i] == l[i].s
  {
    if l == [] then []
    else
      var rest := StringsOf(l[1..]);
      assert forall v :: v in l <==> v == l[0] || v in l[1..];
      if l[0].S? then [l[0].s] + rest else rest
  }

  /** Dropping keeps the order: the strings of `a + b` are those of `a`, then those of `b`. */
  lemma {:induction false} StringsOfConcat(a: seq<AttributeValue>, b: seq<AttributeValue>)
    ensures StringsOf(a + b) == StringsOf(a) + StringsOf(b)
    decreases |a|
  {
    if a == [] {
      assert a + b == b;
    } else {
      assert (a + b)[0] == a[0];
      assert (a + b)[1..] == a[1..] + b;
      StringsOfConcat(a[1..], b);
    }
  }

  lemma {:induction false} StringsRoundTrip(xs: seq<string>)
    ensures StringsOf(EncodeStrings(xs)) == xs
  {
    if xs != [] {
      assert EncodeStrings(xs)[1..] == EncodeStrings(xs[1..]);
      StringsRoundTrip(xs[1..]);
    }
  }

  /** The attributes `to_item` always writes. */
  const RequiredOutputKeys: set<string> := {
    "id", "job_title", "employer_name", "employer_url", "address", "city",
    "job_type", "job_description", "expected_hours", "created_at", "updated_at"}

  /** The attributes `to_item` writes only for a present field. */
  const OptionalKeys: set<string> := {
    "pay", "link_to_application", "employee_responsibilities", "experience_requirements", "extra_info"}

  /** The attributes `from_item` falls back on the clock for. */
  const TimestampKeys: set<string> := {"created_at", "updated_at"}

  /** `item` holds `value` under `name`. */
  predicate Has(item: Item, name: string, value: AttributeValue)
  {
    name in item && item[name] == value
  }

  /** `item` holds the value under `name` when there is one, and no `name` at all otherwise. */
  predicate HasOptional(item: Item, name: string, value: Option<AttributeValue>)
  {
    if value.Some? then Has(item, name, value.value) else name !in item
  }

  function EncodeOptionalStrings(xs: Option<seq<string>>): Option<AttributeValue>
  {
    if xs.Some? then Some(L(EncodeStrings(xs.value))) else None
  }

  function EncodeOptionalString(x: Option<string>): Option<AttributeValue>
  {
    if x.Some? then Some(S(x.value)) else None
  }

  function EncodeOptionalPay(pay: Option<Pays.Pay>): Option<AttributeValue>
  {
    if pay.Some? then Some(Pays.EncodePay(pay.value)) else None
  }

  /** `name := value` when there is a value; the map unchanged otherwise. */
  function Put(item: Item, name: string, value: Option<AttributeValue>): Item
  {
    if value.Some? then item[name := value.value] else item
  }

  /** `if let Some(v) = value { item.insert(name, v) }`. */
  method InsertIfPresent(item: Item, name: string, value: Option<AttributeValue>) returns (r: Item)
    ensures r == Put(item, name, value)
  {
    r := item;
    if value.Some? {
      r := r[name := value.value];
    }
  }

  /** The item `to_item` builds: its inserts, in its order. */
  function EncodeItem(jp: JobPosting): Item
  {
    var identity := map[]
      ["id" := S(jp.id)]
      ["job_title" := S(jp.jobTitle)]
      ["employer_name" := S(jp.employerName)]
      ["employer_url" := S(jp.employerUrl)]
      ["address" := Addresses.EncodeAddress(jp.address)]
      ["city" := S(jp.address.city)];
    var withPay := Put(identity, "pay", EncodeOptionalPay(jp.pay));
    var withLink := Put(withPay["job_type" := S(JobTypeToString(jp.jobType))],
      "link_to_application", EncodeOptionalString(jp.linkToApplication));
    var withLists := Put(Put(withLink["job_description" := S(jp.jobDescription)],
      "employee_responsibilities", EncodeOptionalStrings(jp.employeeResponsibilities)),
      "experience_requirements", EncodeOptionalStrings(jp.experienceRequirements));
    Put(withLists, "extra_info", EncodeOptionalString(jp.extraInfo))
      ["expected_hours" := EncodeHours(jp.expectedHours)]
      ["created_at" := S(jp.createdAt)]
      ["updated_at" := S(jp.updatedAt)]
  }

  /** `JobPosting::to_item`: inserts the attributes one by one into a fresh map. */
  method ToItem(jp: JobPosting) returns (item: Item)
    ensures item == EncodeItem(jp)
  {
    item := map[];
    item := item["id" := S(jp.id)];
    item := item["job_title" := S(jp.jobTitle)];
    item := item["employer_name" := S(jp.employerName)];
    item := item["employer_url" := S(jp.employerUrl)];
    var address := Addresses.ToAttributeValue(jp.address);
    item := item["address" := address];
    // the city is mirrored at the top level for the location index
    item := item["city" := S(jp.address.city)];
    if jp.pay.Some? {
      var pay := Pays.ToAttributeValue(jp.pay.value);
      item := item["pay" := pay];
    }
    item := item["job_type" := S(JobTypeToString(jp.jobType))];
    item := InsertIfPresent(item, "link_to_application", EncodeOptionalString(jp.linkToApplication));
    item := item["job_description" := S(jp.jobDescription)];
    item := InsertIfPresent(item, "employee_responsibilities", EncodeOptionalStrings(jp.employeeResponsibilities));
    item := InsertIfPresent(item, "experience_requirements", EncodeOptionalStrings(jp.experienceRequirements));
    item := InsertIfPresent(item, "extra_info", EncodeOptionalString(jp.extraInfo));
    var hours := HoursToAttributeValue(jp.expectedHours);
    item := item["expected_hours" := hours];
    item := item["created_at" := S(jp.createdAt)];
    item := item["updated_at" := S(jp.updatedAt)];
  }

  /** The eleven attributes `to_item` always writes, with `city` mirrored out of the address. */
  predicate CarriesFixed(item: Item, jp: JobPosting)
  {
    && Has(item, "id", S(jp.id))
    && Has(item, "job_title", S(jp.jobTitle))
    && Has(item, "employer_name", S(jp.employerName))
    && Has(item, "employer_url", S(jp.employerUrl))
    && Has(item, "address", Addresses.EncodeAddress(jp.address))
    && Has(item, "city", S(jp.address.city))
    && Has(item, "job_type", S(JobTypeToString(jp.jobType)))
    && Has(item, "job_description", S(jp.jobDescription))
    && Has(item, "expected_hours", EncodeHours(jp.expectedHours))
    && Has(item, "created_at", S(jp.createdAt))
    && Has(item, "updated_at", S(jp.updatedAt))
  }

  /** Each optional attribute is written exactly when its field is present. */
  predicate CarriesOptional(item: Item, jp: JobPosting)
  {
    && HasOptional(item, "pay", EncodeOptionalPay(jp.pay))
    && HasOptional(item, "link_to_application", EncodeOptionalString(jp.linkToApplication))
    && HasOptional(item, "employee_responsibilities", EncodeOptionalStrings(jp.employeeResponsibilities))
    && HasOptional(item, "experience_requirements", EncodeOptionalStrings(jp.experienceRequirements))
    && HasOptional(item, "extra_info", EncodeOptionalString(jp.extraInfo))
  }

  /** `item` holds what `to_item` writes for `jp`, and nothing else. */
  predicate Carries(item: Item, jp: JobPosting)
  {
    CarriesFixed(item, jp) && CarriesOptional(item, jp) && item.Keys <= RequiredOutputKeys + OptionalKeys
  }

  /** An optional string attribute: absent or not an `S` gives `None`. */
  function OptionalString(item: Item, key: string): Option<string>
  {
    if key in item && item[key].S? then Some(item[key].s) else None
  }

  /** An optional list of strings: absent or not an `L` gives `None`; non-`S` elements are dropped. */
  function OptionalStrings(item: Item, key: string): Option<seq<string>>
  {
    if key in item && item[key].L? then Some(StringsOf(item[key].l)) else None
  }

  /** A timestamp attribute, or `now` when it is absent, not an `S`, or does not parse. */
  function TimestampOr(item: Item, key: string, parseTime: string -> Option<Timestamp>, now: Timestamp): Timestamp
  {
    if key in item && item[key].S? && parseTime(item[key].s).Some? then parseTime(item[key].s).value else now
  }

  /**
    The readings of `Utc::now()` that `from_item` falls back to: one taken for
    `created_at`, a later one for `updated_at`.
  */
  datatype Clock = Clock(created: Timestamp, updated: Timestamp)

  /**
    `JobPosting::from_item`. `parseTime` stands for `str::parse::<DateTime<Utc>>`
    and `clock` for the two `Utc::now()` fallbacks.
  */
  function FromItem(item: Item, parseTime: string -> Option<Timestamp>, clock: Clock): (r: Option<JobPosting>)
    ensures r.Some? ==> Has(item, "id", S(PrimaryKey(r.value)))
    ensures r.Some? && "created_at" !in item ==> r.value.createdAt == clock.created
    ensures r.Some? && "updated_at" !in item ==> r.value.updatedAt == clock.updated
  {
    var id :- GetS(item, "id");
    var jobTitle :- GetS(item, "job_title");
    var employerName :- GetS(item, "employer_name");
    var employerUrl :- GetS(item, "employer_url");
    var addressValue :- Get(item, "address");
    var address :- Addresses.FromAttributeValue(addressValue);
    var pay := if "pay" in item then Pays.FromAttributeValue(item["pay"]) else None;
    var jobTypeString :- GetS(item, "job_type");
    var jobType :- JobTypeFromString(jobTypeString).ToOption();
    var linkToApplication := OptionalString(item, "link_to_application");
    var jobDescription :- GetS(item, "job_description");
    var employeeResponsibilities := OptionalStrings(item, "employee_responsibilities");
    var experienceRequirements := OptionalStrings(item, "experience_requirements");
    var extraInfo := OptionalString(item, "extra_info");
    var hoursValue :- Get(item, "expected_hours");
    var expectedHours :- HoursFromAttributeValue(hoursValue);
    var createdAt := TimestampOr(item, "created_at", parseTime, clock.created);
    var updatedAt := TimestampOr(item, "updated_at", parseTime, clock.updated);
    Some(JobPosting(id, jobTitle, employerName, employerUrl, address, pay, jobType,
      linkToApplication, jobDescription, employeeResponsibilities, experienceRequirements,
      extraInfo, expectedHours, createdAt, updatedAt))
  }

  // ---------------------------------------------------------------------------
  // Properties of the item encoding
  // ---------------------------------------------------------------------------

  /** The hash key. */
  lemma EncodeItemId(jp: JobPosting)
    ensures Has(EncodeItem(jp), "id", S(PrimaryKey(jp)))
  {
  }

  lemma EncodeItemTitle(jp: JobPosting)
    ensures Has(EncodeItem(jp), "job_title", S(jp.jobTitle))
  {
  }

  /** The employer attributes. */
  lemma EncodeItemEmployer(jp: JobPosting)
    ensures Has(EncodeItem(jp), "employer_name", S(jp.employerName))
    ensures Has(EncodeItem(jp), "employer_url", S(jp.employerUrl))
  {
  }

  /** The nested address, and its city mirrored at the top level. */
  lemma EncodeItemLocation(jp: JobPosting)
    ensures var item := EncodeItem(jp);
      && Has(item, "address", Addresses.EncodeAddress(jp.address))
      && Has(item, "city", S(jp.address.city))
  {
  }

  /** The remaining fixed attributes: job type and description, hours and the two timestamps. */
  lemma EncodeItemDetails(jp: JobPosting)
    ensures var item := EncodeItem(jp);
      && Has(item, "job_type", S(JobTypeToString(jp.jobType)))
      && Has(item, "job_description", S(jp.jobDescription))
      && Has(item, "expected_hours", EncodeHours(jp.expectedHours))
      && Has(item, "created_at", S(jp.createdAt))
      && Has(item, "updated_at", S(jp.updatedAt))
  {
  }

  /** Pay and the application link are written exactly when present. */
  lemma EncodeItemPayAndLink(jp: JobPosting)
    ensures var item := EncodeItem(jp);
      && HasOptional(item, "pay", EncodeOptionalPay(jp.pay))
      && HasOptional(item, "link_to_application", EncodeOptionalString(jp.linkToApplication))
  {
  }

  /** The two lists and the extra information are written exactly when present. */
  lemma EncodeItemListsAndExtra(jp: JobPosting)
    ensures var item := EncodeItem(jp);
      && HasOptional(item, "employee_responsibilities", EncodeOptionalStrings(jp.employeeResponsibilities))
      && HasOptional(item, "experience_requirements", EncodeOptionalStrings(jp.experienceRequirements))
      && HasOptional(item, "extra_info", EncodeOptionalString(jp.extraInfo))
  {
  }

  /** Nothing but the fixed and the optional attributes is written. */
  lemma EncodeItemBounded(jp: JobPosting)
    ensures EncodeItem(jp).Keys <= RequiredOutputKeys + OptionalKeys
  {
  }

  /** What `to_item` builds satisfies the attribute-by-attribute description. */
  lemma EncodeItemCarries(jp: JobPosting)
    ensures Carries(EncodeItem(jp), jp)
  {
    EncodeItemId(jp);
    EncodeItemTitle(jp);
    EncodeItemEmployer(jp);
    EncodeItemLocation(jp);
    EncodeItemDetails(jp);
    EncodeItemPayAndLink(jp);
    EncodeItemListsAndExtra(jp);
    EncodeItemBounded(jp);
  }

  /** The stored hash key is the primary key; the top-level `city` is the city of the nested address. */
  lemma CityMirrorsAddress(jp: JobPosting)
    ensures var item := EncodeItem(jp);
      && "id" in item && item["id"] == S(PrimaryKey(jp))
      && "address" in item && Addresses.FromAttributeValue(item["address"]) == Some(jp.address)
      && "city" in item && item["city"] == S(Addresses.FromAttributeValue(item["address"]).value.city)
  {
    EncodeItemId(jp);
    EncodeItemLocation(jp);
    Addresses.RoundTrip(jp.address);
  }

  /** Any item holding what `to_item` writes decodes to the posting, provided the timestamps' text parses back. */
  lemma CarriedDecodes(item: Item, jp: JobPosting, parseTime: string -> Option<Timestamp>, clock: Clock)
    requires Carries(item, jp)
    requires parseTime(jp.createdAt) == Some(jp.createdAt)
    requires parseTime(jp.updatedAt) == Some(jp.updatedAt)
    ensures FromItem(item, parseTime, clock) == Some(jp)
  {
    Addresses.RoundTrip(jp.address);
    HoursRoundTrip(jp.expectedHours);
    JobTypeRoundTrip(jp.jobType);
    CarriedOptionalDecodes(item, jp);
  }

  /** The optional attributes `to_item` writes decode to the posting's optional fields. */
  lemma CarriedOptionalDecodes(item: Item, jp: JobPosting)
    requires CarriesOptional(item, jp)
    ensures (if "pay" in item then Pays.FromAttributeValue(item["pay"]) else None) == jp.pay
    ensures OptionalString(item, "link_to_application") == jp.linkToApplication
    ensures OptionalStrings(item, "employee_responsibilities") == jp.employeeResponsibilities
    ensures OptionalStrings(item, "experience_requirements") == jp.experienceRequirements
    ensures OptionalString(item, "extra_info") == jp.extraInfo
  {
    if jp.pay.Some? {
      Pays.RoundTrip(jp.pay.value);
    }
    if jp.employeeResponsibilities.Some? {
      StringsRoundTrip(jp.employeeResponsibilities.value);
    }
    if jp.experienceRequirements.Some? {
      StringsRoundTrip(jp.experienceRequirements.value);
    }
  }

  /** `from_item(to_item(jp)) == jp`, provided the timestamps' text parses back. */
  lemma RoundTrip(jp: JobPosting, parseTime: string -> Option<Timestamp>, clock: Clock)
    requires parseTime(jp.createdAt) == Some(jp.createdAt)
    requires parseTime(jp.updatedAt) == Some(jp.updatedAt)
    ensures FromItem(EncodeItem(jp), parseTime, clock) == Some(jp)
  {
    EncodeItemCarries(jp);
    CarriedDecodes(EncodeItem(jp), jp, parseTime, clock);
  }

  /** The attributes whose absence or malformation makes `from_item` fail. */
  predicate DecodesRequired(item: Item)
  {
    && GetS(item, "id").Some?
    && GetS(item, "job_title").Some?
    && GetS(item, "employer_name").Some?
    && GetS(item, "employer_url").Some?
    && "address" in item && Addresses.FromAttributeValue(item["address"]).Some?
    && GetS(item, "job_type").Some? && item["job_type"].s in JobTypeTokens
    && GetS(item, "job_description").Some?
    && "expected_hours" in item && HoursFromAttributeValue(item["expected_hours"]).Some?
  }

  /** `from_item` fails exactly when a required attribute is missing, has the wrong variant, or fails its sub-decode. */
  lemma FromItemSucceedsIff(item: Item, parseTime: string -> Option<Timestamp>, clock: Clock)
    ensures FromItem(item, parseTime, clock).Some? <==> DecodesRequired(item)
  {
  }

  /** The attributes `from_item` cannot do without. */
  const DecodeKeys: set<string> := {
    "id", "job_title", "employer_name", "employer_url", "address", "job_type",
    "job_description", "expected_hours"}

  /** `a` and `b` hold the same attributes under `keys`. */
  predicate AgreeOn(a: Item, b: Item, keys: set<string>)
  {
    forall k :: k in keys ==> (k in a <==> k in b) && (k in a ==> a[k] == b[k])
  }

  /** Removing a required attribute makes decoding fail. */
  lemma MissingRequiredFails(item: Item, key: string, parseTime: string -> Option<Timestamp>, clock: Clock)
    requires key in DecodeKeys
    ensures FromItem(item - {key}, parseTime, clock) == None
  {
    FromItemSucceedsIff(item - {key}, parseTime, clock);
  }

  lemma DecodesRequiredDependsOnlyOnDecodeKeys(a: Item, b: Item)
    requires AgreeOn(a, b, DecodeKeys)
    ensures DecodesRequired(a) <==> DecodesRequired(b)
  {
    assert "id" in DecodeKeys && "job_title" in DecodeKeys && "employer_name" in DecodeKeys;
    assert "employer_url" in DecodeKeys && "address" in DecodeKeys && "job_type" in DecodeKeys;
    assert "job_description" in DecodeKeys && "expected_hours" in DecodeKeys;
  }

  /**
    Optional and timestamp attributes never make decoding fail: whether an item decodes
    depends only on its required attributes.
  */
  lemma OptionalNeverFails(a: Item, b: Item, parseTime: string -> Option<Timestamp>, clock: Clock)
    requires AgreeOn(a, b, DecodeKeys)
    ensures FromItem(a, parseTime, clock).Some? <==> FromItem(b, parseTime, clock).Some?
  {
    FromItemSucceedsIff(a, parseTime, clock);
    FromItemSucceedsIff(b, parseTime, clock);
    DecodesRequiredDependsOnlyOnDecodeKeys(a, b);
  }

  /** In particular, dropping every optional and timestamp attribute does not change whether an item decodes. */
  lemma StrippedDecodesAlike(item: Item, parseTime: string -> Option<Timestamp>, clock: Clock)
    ensures FromItem(item, parseTime, clock).Some? <==>
            FromItem(item - (OptionalKeys + TimestampKeys), parseTime, clock).Some?
  {
    var rest := item - (OptionalKeys + TimestampKeys);
    forall k | k in DecodeKeys
      ensures (k in item <==> k in rest) && (k in item ==> item[k] == rest[k])
    {
      assert k !in OptionalKeys + TimestampKeys;
    }
    OptionalNeverFails(item, rest, parseTime, clock);
  }

  /** A malformed pay, link or extra-info attribute decodes to `None` for its field instead of failing the posting. */
  lemma OptionalDegrades(item: Item, parseTime: string -> Option<Timestamp>, clock: Clock)
    requires FromItem(item, parseTime, clock).Some?
    ensures var jp := FromItem(item, parseTime, clock).value;
      && ("pay" in item && Pays.FromAttributeValue(item["pay"]).None? ==> jp.pay == None)
      && ("link_to_application" in item && !item["link_to_application"].S? ==> jp.linkToApplication == None)
      && ("extra_info" in item && !item["extra_info"].S? ==> jp.extraInfo == None)
  {
  }

  /** A list attribute that is not an `L` decodes to `None`; an `L` keeps only its `S` elements. */
  lemma ListsDegrade(item: Item, parseTime: string -> Option<Timestamp>, clock: Clock)
    requires FromItem(item, parseTime, clock).Some?
    ensures var jp := FromItem(item, parseTime, clock).value;
      && ("employee_responsibilities" in item && !item["employee_responsibilities"].L? ==>
            jp.employeeResponsibilities == None)
      && ("experience_requirements" in item && !item["experience_requirements"].L? ==>
            jp.experienceRequirements == None)
      && ("employee_responsibilities" in item && item["employee_responsibilities"].L? ==>
            jp.employeeResponsibilities == Some(StringsOf(item["employee_responsibilities"].l)))
      && ("experience_requirements" in item && item["experience_requirements"].L? ==>
            jp.experienceRequirements == Some(StringsOf(item["experience_requirements"].l)))
  {
  }

  /**
    A missing, non-`S` or unparsable `created_at` or `updated_at` falls back to the
    clock's reading for that field instead of failing the posting; a parsable one is
    taken as stored.
  */
  lemma TimestampsDegrade(item: Item, parseTime: string -> Option<Timestamp>, clock: Clock)
    requires FromItem(item, parseTime, clock).Some?
    ensures var jp := FromItem(item, parseTime, clock).value;
      && ("created_at" !in item || !item["created_at"].S? || parseTime(item["created_at"].s).None? ==>
            jp.createdAt == clock.created)
      && ("created_at" in item && item["created_at"].S? && parseTime(item["created_at"].s).Some? ==>
            jp.createdAt == parseTime(item["created_at"].s).value)
      && ("updated_at" !in item || !item["updated_at"].S? || parseTime(item["updated_at"].s).None? ==>
            jp.updatedAt == clock.updated)
      && ("updated_at" in item && item["updated_at"].S? && parseTime(item["updated_at"].s).Some? ==>
            jp.updatedAt == parseTime(item["updated_at"].s).value)
  {
  }

  /**
    The posting of a baker, full time, without pay: the stored `job_type` is the text
    `FULL_TIME`, no `pay` attribute is written, and decoding gives back no pay and the
    full-time variant.
  */
  lemma BakerExample(jp: JobPosting, parseTime: string -> Option<Timestamp>, clock: Clock)
    requires jp.jobTitle == "Baker" && jp.jobType == FullTime && jp.pay == None
    requires parseTime(jp.createdAt) == Some(jp.createdAt)
    requires parseTime(jp.updatedAt) == Some(jp.updatedAt)
    ensures "job_type" in EncodeItem(jp) && EncodeItem(jp)["job_type"] == S("FULL_TIME")
    ensures "pay" !in EncodeItem(jp)
    ensures FromItem(EncodeItem(jp), parseTime, clock).Some?
    ensures FromItem(EncodeItem(jp), parseTime, clock).value.pay == None
    ensures FromItem(EncodeItem(jp), parseTime, clock).value.jobType == FullTime
  {
    EncodeItemDetails(jp);
    EncodeItemPayAndLink(jp);
    RoundTrip(jp, parseTime, clock);
  }
}
