/**
  A postal address and its DynamoDB encoding, a nested `M` holding one `S` per field;
  the optional `unit` is written only when it is present.
*/
module Addresses {
  import opened Wrappers
  import opened AttributeValues

  datatype Address = Address(
    street: string,
    unit: Option<string>,
    city: string,
    state: string,
    country: string,
    zip: string)

  /** The nested keys that decoding requires, each holding an `S`. */
  const RequiredKeys: set<string> := {"street", "city", "state", "country", "zip"}

  /** The nested map `to_attribute_value` produces. */
  function EncodeAddress(a: Address): AttributeValue
  {
    var fields := map[
      "street" := S(a.street),
      "city" := S(a.city),
      "state" := S(a.state),
      "country" := S(a.country),
      "zip" := S(a.zip)];
    M(if a.unit.Some? then fields["unit" := S(a.unit.value)] else fields)
  }

  /** `Address::to_attribute_value`: fills a fresh map field by field. */
  method ToAttributeValue(a: Address) returns (av: AttributeValue)
    ensures av == EncodeAddress(a)
  {
    var item: map<string, AttributeValue> := map[];
    item := item["street" := S(a.street)];
    if a.unit.Some? {
      item := item["unit" := S(a.unit.value)];
    }
    item := item["city" := S(a.city)];
    item := item["state" := S(a.state)];
    item := item["country" := S(a.country)];
    item := item["zip" := S(a.zip)];
    av := M(item);
  }

  /** A stored `unit`: an `S` gives its text; `Null` or any other variant gives `None`. */
  function UnitOf(item: map<string, AttributeValue>): (r: Option<string>)
    ensures r.Some? <==> "unit" in item && item["unit"].S?
    ensures r.Some? ==> item["unit"] == S(r.value)
  {
    match Get(item, "unit")
    case Some(S(s)) => Some(s)
    case Some(Null(_)) => None
    case _ => None
  }

  /** `Address::from_attribute_value`. */
  function FromAttributeValue(av: AttributeValue): Option<Address>
  {
    if av.M? then
      var item := av.m;
      var street :- GetS(item, "street");
      var unit := UnitOf(item);
      var city :- GetS(item, "city");
      var state :- GetS(item, "state");
      var country :- GetS(item, "country");
      var zip :- GetS(item, "zip");
      Some(Address(street, unit, city, state, country, zip))
    else
      None
  }

  /** Every field is written as an `S`, and `unit` is written exactly when it is present. */
  lemma EncodeAddressKeys(a: Address)
    ensures EncodeAddress(a).M?
    ensures "unit" in EncodeAddress(a).m <==> a.unit.Some?
    ensures EncodeAddress(a).m.Keys == RequiredKeys + (if a.unit.Some? then {"unit"} else {})
    ensures forall k :: k in EncodeAddress(a).m ==> EncodeAddress(a).m[k].S?
  {
  }

  /** No null marker: the encoded map has 5 keys without a unit and 6 with one. */
  lemma EncodeAddressSize(a: Address)
    ensures |EncodeAddress(a).m| == if a.unit.Some? then 6 else 5
  {
    EncodeAddressKeys(a);
    var keys := EncodeAddress(a).m.Keys;
    assert |RequiredKeys| == 5;
    if a.unit.Some? {
      assert keys == RequiredKeys + {"unit"} && "unit" !in RequiredKeys;
    }
  }

  lemma RoundTrip(a: Address)
    ensures FromAttributeValue(EncodeAddress(a)) == Some(a)
  {
  }

  /** Decoding fails exactly when the value is not an `M` or a required field is missing or not an `S`. */
  lemma DecodeSucceedsIff(av: AttributeValue)
    ensures FromAttributeValue(av).Some? <==>
      av.M? && forall k :: k in RequiredKeys ==> k in av.m && av.m[k].S?
  {
    if av.M? && forall k :: k in RequiredKeys ==> k in av.m && av.m[k].S? {
      assert "street" in RequiredKeys && "city" in RequiredKeys && "state" in RequiredKeys;
      assert "country" in RequiredKeys && "zip" in RequiredKeys;
    }
  }

  /** A stored `unit` that is not an `S` (a `Null`, say) degrades to `None` without failing the decode. */
  lemma UnitDegrades(av: AttributeValue)
    requires av.M? && forall k :: k in RequiredKeys ==> k in av.m && av.m[k].S?
    requires "unit" !in av.m || !av.m["unit"].S?
    ensures FromAttributeValue(av).Some? && FromAttributeValue(av).value.unit == None
  {
    DecodeSucceedsIff(av);
  }

  // ---------------------------------------------------------------------------
  // Validation
  // ---------------------------------------------------------------------------

  /** Rust's `char::is_whitespace`: the Unicode White_Space property. */
  predicate IsWhitespace(c: char)
  {
    var x := c as int;
    (0x09 <= x <= 0x0D) || x == 0x20 || x == 0x85 || x == 0xA0 || x == 0x1680
    || (0x2000 <= x <= 0x200A) || x == 0x2028 || x == 0x2029 || x == 0x202F
    || x == 0x205F || x == 0x3000
  }

  predicate Blank(s: string) { forall i :: 0 <= i < |s| ==> IsWhitespace(s[i]) }

  /** `str::trim_start`: the suffix left after dropping leading whitespace. */
  function TrimStart(s: string): (r: string)
    ensures |r| <= |s| && r == s[|s| - |r|..]
    ensures forall i :: 0 <= i < |s| - |r| ==> IsWhitespace(s[i])
    ensures r == [] || !IsWhitespace(r[0])
  {
    if |s| > 0 && IsWhitespace(s[0]) then TrimStart(s[1..]) else s
  }

  /** `str::trim_end`: the prefix left after dropping trailing whitespace. */
  function TrimEnd(s: string): (r: string)
    ensures |r| <= |s| && r == s[..|r|]
    ensures forall i :: |r| <= i < |s| ==> IsWhitespace(s[i])
    ensures r == [] || !IsWhitespace(r[|r| - 1])
  {
    if |s| > 0 && IsWhitespace(s[|s| - 1]) then TrimEnd(s[..|s| - 1]) else s
  }

  /** `str::trim`. */
  function Trim(s: string): (r: string)
    ensures var i := |s| - |TrimStart(s)|;
      && i + |r| <= |s| && (forall k :: 0 <= k < |r| ==> r[k] == s[i + k])
      && (forall k :: 0 <= k < i ==> IsWhitespace(s[k]))
      && (forall k :: i + |r| <= k < |s| ==> IsWhitespace(s[k]))
    ensures r == [] || (!IsWhitespace(r[0]) && !IsWhitespace(r[|r| - 1]))
  {
    TrimEnd(TrimStart(s))
  }

  /** `s.trim().is_empty()` holds exactly when `s` is all whitespace. */
  lemma TrimEmptyIffBlank(s: string)
    ensures Trim(s) == [] <==> Blank(s)
  {
    var t := TrimStart(s);
    if t != [] {
      assert t == s[|s| - |t|..];
      assert !IsWhitespace(s[|s| - |t|]);
    }
  }

  const StreetEmpty := "Street field cannot be empty"
  const StreetInvalid := "Street value invalid"
  const CityEmpty := "City field cannot be empty"
  const StateEmpty := "State field cannot be empty"
  const CountryEmpty := "Country field cannot be empty"
  const ZipEmpty := "Zip field cannot be empty"

  /**
    `Address::validate`. The two regular expressions are given as `streetPattern`
    (a house number, whitespace, then a word) and `poBoxPattern` (the post-office-box
    forms); both are applied to the trimmed street.
  */
  function Validate(a: Address, streetPattern: string -> bool, poBoxPattern: string -> bool): (r: Result<(), string>)
    ensures r.Err? ==> r.error in {StreetEmpty, StreetInvalid, CityEmpty, StateEmpty, CountryEmpty, ZipEmpty}
    ensures r.Ok? ==> streetPattern(Trim(a.street)) || poBoxPattern(Trim(a.street))
  {
    if Trim(a.street) == [] then Err(StreetEmpty)
    else if !streetPattern(Trim(a.street)) && !poBoxPattern(Trim(a.street)) then Err(StreetInvalid)
    else if Trim(a.city) == [] then Err(CityEmpty)
    else if Trim(a.state) == [] then Err(StateEmpty)
    else if Trim(a.country) == [] then Err(CountryEmpty)
    else if Trim(a.zip) == [] then Err(ZipEmpty)
    else Ok(())
  }

  /**
    `validate` reports the first failing check, in the order: street blank, street
    matching neither pattern, then city, state, country and zip blank.
  */
  lemma ValidateReportsFirstFailure(a: Address, streetPattern: string -> bool, poBoxPattern: string -> bool)
    ensures var r := Validate(a, streetPattern, poBoxPattern);
      var street := Trim(a.street);
      var matches := streetPattern(street) || poBoxPattern(street);
      && (r == Err(StreetEmpty) <==> Blank(a.street))
      && (r == Err(StreetInvalid) <==> !Blank(a.street) && !matches)
      && (r == Err(CityEmpty) <==> !Blank(a.street) && matches && Blank(a.city))
      && (r == Err(StateEmpty) <==> !Blank(a.street) && matches && !Blank(a.city) && Blank(a.state))
      && (r == Err(CountryEmpty) <==>
            !Blank(a.street) && matches && !Blank(a.city) && !Blank(a.state) && Blank(a.country))
      && (r == Err(ZipEmpty) <==>
            !Blank(a.street) && matches && !Blank(a.city) && !Blank(a.state) && !Blank(a.country)
            && Blank(a.zip))
  {
    TrimEmptyIffBlank(a.street);
    TrimEmptyIffBlank(a.city);
    TrimEmptyIffBlank(a.state);
    TrimEmptyIffBlank(a.country);
    TrimEmptyIffBlank(a.zip);
  }

  /** On `Ok`, every field has a non-whitespace character and the trimmed street matches a pattern. */
  lemma ValidateOkIff(a: Address, streetPattern: string -> bool, poBoxPattern: string -> bool)
    ensures Validate(a, streetPattern, poBoxPattern).Ok? <==>
      && !Blank(a.street) && !Blank(a.city) && !Blank(a.state) && !Blank(a.country) && !Blank(a.zip)
      && (streetPattern(Trim(a.street)) || poBoxPattern(Trim(a.street)))
  {
    TrimEmptyIffBlank(a.street);
    TrimEmptyIffBlank(a.city);
    TrimEmptyIffBlank(a.state);
    TrimEmptyIffBlank(a.country);
    TrimEmptyIffBlank(a.zip);
  }
}
