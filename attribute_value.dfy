/**
  DynamoDB's `AttributeValue` tagged union and an item, the map from attribute
  names to values that `put_item` writes and `get_item`/`scan` return.
*/
module AttributeValues {
  import opened Wrappers

  datatype AttributeValue =
    | S(s: string)
    | N(n: string)                    // a number, carried as its decimal text
    | B(bytes: seq<bv8>)
    | Bool(flag: bool)
    | Null(isNull: bool)
    | L(l: seq<AttributeValue>)
    | M(m: map<string, AttributeValue>)
    | Ss(strings: seq<string>)
    | Ns(numbers: seq<string>)
    | Bs(blobs: seq<seq<bv8>>)

  type Item = map<string, AttributeValue>

  /** `HashMap::get`. */
  function Get(item: Item, key: string): (r: Option<AttributeValue>)
    ensures r.Some? <==> key in item
    ensures r.Some? ==> r.value == item[key]
  {
    if key in item then Some(item[key]) else None
  }

  /** `AttributeValue::as_s(..).ok()`. */
  function AsS(v: AttributeValue): (r: Option<string>)
    ensures r.Some? <==> v.S?
    ensures r.Some? ==> v == S(r.value)
  {
    if v.S? then Some(v.s) else None
  }

  /** `AttributeValue::as_n(..).ok()`. */
  function AsN(v: AttributeValue): (r: Option<string>)
    ensures r.Some? <==> v.N?
    ensures r.Some? ==> v == N(r.value)
  {
    if v.N? then Some(v.n) else None
  }

  /** `AttributeValue::as_l(..).ok()`. */
  function AsL(v: AttributeValue): (r: Option<seq<AttributeValue>>)
    ensures r.Some? <==> v.L?
    ensures r.Some? ==> v == L(r.value)
  {
    if v.L? then Some(v.l) else None
  }

  /** `item.get(key)?.as_s().ok()?`: the string stored under `key`, if it is an `S`. */
  function GetS(item: Item, key: string): (r: Option<string>)
    ensures r.Some? <==> key in item && item[key].S?
    ensures r.Some? ==> item[key] == S(r.value)
  {
    var v :- Get(item, key);
    AsS(v)
  }

  /** `item.get(key)?.as_n().ok()?`. */
  function GetN(item: Item, key: string): (r: Option<string>)
    ensures r.Some? <==> key in item && item[key].N?
    ensures r.Some? ==> item[key] == N(r.value)
  {
    var v :- Get(item, key);
    AsN(v)
  }
}
