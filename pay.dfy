/**
  Pay: a cadence token and a minimum base pay. Its DynamoDB encoding is a nested `M`
  whose `min_base_pay` is an `S` holding decimal text, not an `N`.
*/
module Pays {
  import opened Wrappers
  import opened Decimal
  import opened AttributeValues
  import opened AppErrors

  datatype CadenceOption = Hour | Day | Week | Month | Year

  const CadenceTokens: set<string> := {"HOUR", "DAY", "WEEK", "MONTH", "YEAR"}

  const CadenceParseError := "Cannot perform from_string on CadenceOption input"

  /** `CadenceOption::to_string`. */
  function CadenceToString(c: CadenceOption): (s: string)
    ensures s in CadenceTokens
  {
    match c
    case Hour => "HOUR"
    case Day => "DAY"
    case Week => "WEEK"
    case Month => "MONTH"
    case Year => "YEAR"
  }

  /** `CadenceOption::to_str`. */
  function CadenceToStr(c: CadenceOption): (s: string)
    ensures s in CadenceTokens
  {
    match c
    case Hour => "HOUR"
    case Day => "DAY"
    case Week => "WEEK"
    case Month => "MONTH"
    case Year => "YEAR"
  }

  /** `CadenceOption::from_string`: exact match against the five tokens, with no default. */
  function CadenceFromString(s: string): (r: Result<CadenceOption, AppError>)
    ensures r.Ok? <==> s in CadenceTokens
    ensures r.Ok? ==> CadenceToString(r.value) == s
    ensures r.Err? ==> r.error == DatabaseError(CadenceParseError)
  {
    match s
    case "HOUR" => Ok(Hour)
    case "DAY" => Ok(Day)
    case "WEEK" => Ok(Week)
    case "MONTH" => Ok(Month)
    case "YEAR" => Ok(Year)
    case _ => Err(DatabaseError(CadenceParseError))
  }

  lemma CadenceRoundTrip(c: CadenceOption)
    ensures CadenceFromString(CadenceToString(c)) == Ok(c)
    ensures CadenceToStr(c) == CadenceToString(c)
  {
  }

  /** Distinct cadences have distinct tokens. */
  lemma CadenceTokensInjective(c: CadenceOption, d: CadenceOption)
    requires CadenceToString(c) == CadenceToString(d)
    ensures c == d
  {
    CadenceRoundTrip(c);
    CadenceRoundTrip(d);
  }

  datatype Pay = Pay(cadence: CadenceOption, minBasePay: U32)

  /** `Pay::new`: fails exactly when the cadence token is unknown. */
  function NewPay(cadence: string, minBasePay: U32): (r: Result<Pay, AppError>)
    ensures r.Ok? <==> cadence in CadenceTokens
    ensures r.Ok? ==> CadenceToString(r.value.cadence) == cadence && r.value.minBasePay == minBasePay
    ensures r.Err? ==> r.error == DatabaseError(CadenceParseError)
  {
    var c :- CadenceFromString(cadence);
    Ok(Pay(c, minBasePay))
  }

  /** The nested map `to_attribute_value` produces. */
  function EncodePay(p: Pay): AttributeValue
  {
    M(map["cadence" := S(CadenceToString(p.cadence)), "min_base_pay" := S(ToDecimal(p.minBasePay))])
  }

  /** `Pay::to_attribute_value`. */
  method ToAttributeValue(p: Pay) returns (av: AttributeValue)
    ensures av == EncodePay(p)
  {
    var item: map<string, AttributeValue> := map[];
    item := item["cadence" := S(CadenceToString(p.cadence))];
    item := item["min_base_pay" := S(ToDecimal(p.minBasePay))];
    av := M(item);
  }

  /** `Pay::from_attribute_value`. */
  function FromAttributeValue(av: AttributeValue): Option<Pay>
  {
    if av.M? then
      var item := av.m;
      var cadenceString :- GetS(item, "cadence");
      var cadence :- CadenceFromString(cadenceString).ToOption();
      var minBasePayString :- GetS(item, "min_base_pay");
      var minBasePay :- ParseU32(minBasePayString);
      Some(Pay(cadence, minBasePay))
    else
      None
  }

  lemma RoundTrip(p: Pay)
    ensures FromAttributeValue(EncodePay(p)) == Some(p)
  {
    U32RoundTrip(p.minBasePay);
  }

  /** Every stored pay is a two-key map of strings. */
  lemma EncodePayShape(p: Pay)
    ensures EncodePay(p).M? && EncodePay(p).m.Keys == {"cadence", "min_base_pay"}
    ensures EncodePay(p).m["min_base_pay"] == S(ToDecimal(p.minBasePay))
    ensures EncodePay(p).m["cadence"].S? && EncodePay(p).m["cadence"].s in CadenceTokens
  {
  }

  /** Decoding succeeds exactly for a map with a known cadence token and `u32` text under `min_base_pay`. */
  lemma DecodeSucceedsIff(av: AttributeValue)
    ensures FromAttributeValue(av).Some? <==>
      && av.M?
      && "cadence" in av.m && av.m["cadence"].S? && av.m["cadence"].s in CadenceTokens
      && "min_base_pay" in av.m && av.m["min_base_pay"].S?
      && ParseUnsigned(av.m["min_base_pay"].s, U32Max).Some?
  {
  }

  /** A `min_base_pay` stored as a native number (`N`) is not read back. */
  lemma NumericMinBasePayRejected(av: AttributeValue)
    requires av.M? && "min_base_pay" in av.m && av.m["min_base_pay"].N?
    ensures FromAttributeValue(av) == None
  {
  }

  /** Text of a value wider than 32 bits is rejected rather than truncated. */
  lemma OverflowingMinBasePayRejected(av: AttributeValue, n: nat)
    requires av.M? && "min_base_pay" in av.m
    requires av.m["min_base_pay"] == S(ToDecimal(n)) && n > U32Max
    ensures FromAttributeValue(av) == None
  {
    ParseToDecimalOutOfRange(n, U32Max);
  }
}
