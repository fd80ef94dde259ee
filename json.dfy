/** The tree document the streams build and read: an abstract JSON value with
    the behaviour of the JSON library's accessors that reflection.h relies on
    (which ones throw, and what `size()` and `contains()` answer on each kind
    of value). */
module Json {
  import opened Wrappers

  /** Object members are keyed by name; a JSON object holds each key once. */
  datatype Json =
    | JNull
    | JBool(b: bool)
    | JNum(n: int)
    | JStr(s: string)
    | JArr(items: seq<Json>)
    | JObj(fields: map<string, Json>)

  /** Largest value plus one that `get<uint64_t>()` can produce. */
  const U64_BOUND: nat := 0x1_0000_0000_0000_0000

  /** `j[key] = v`: a null value first becomes an empty object; on any other
      non-object the library throws (None). */
  function Put(j: Json, key: string, v: Json): (r: Option<Json>)
    ensures r.Some? <==> (j.JNull? || j.JObj?)
    ensures r.Some? ==> r.value.JObj? && key in r.value.fields && r.value.fields[key] == v
    ensures r.Some? ==> r.value.fields.Keys == (if j.JObj? then j.fields.Keys else {}) + {key}
    ensures r.Some? && j.JObj? ==>
      forall k :: k in j.fields && k != key ==> r.value.fields[k] == j.fields[k]
  {
    match j
    case JNull => Some(JObj(map[key := v]))
    case JObj(m) => Some(JObj(m[key := v]))
    case _ => None
  }

  /** `j.push_back(v)`: a null value first becomes an empty array; on any other
      non-array the library throws (None). */
  function PushBack(j: Json, v: Json): (r: Option<Json>)
    ensures r.Some? <==> (j.JNull? || j.JArr?)
    ensures r.Some? ==> r.value.JArr? && r.value.items == (if j.JArr? then j.items else []) + [v]
  {
    match j
    case JNull => Some(JArr([v]))
    case JArr(s) => Some(JArr(s + [v]))
    case _ => None
  }

  /** `j.at(key)`: throws unless `j` is an object holding `key`. */
  function At(j: Json, key: string): (r: Option<Json>)
    ensures r.Some? <==> (j.JObj? && key in j.fields)
    ensures r.Some? ==> r.value == j.fields[key]
  {
    if j.JObj? && key in j.fields then Some(j.fields[key]) else None
  }

  /** `j.at(i)`: throws unless `j` is an array with more than `i` elements. */
  function AtIndex(j: Json, i: nat): (r: Option<Json>)
    ensures r.Some? <==> (j.JArr? && i < |j.items|)
    ensures r.Some? ==> r.value == j.items[i]
  {
    if j.JArr? && i < |j.items| then Some(j.items[i]) else None
  }

  /** `j.contains(key)`: false on every value that is not an object; true
      exactly when `at(key)` would not throw. */
  predicate Contains(j: Json, key: string): (r: bool)
    ensures r <==> At(j, key).Some?
  {
    j.JObj? && key in j.fields
  }

  /** `j.size()`: 0 for null, 1 for a scalar, the element or member count otherwise. */
  function Size(j: Json): (r: nat)
    ensures j.JNull? ==> r == 0
    ensures j.JArr? ==> r == |j.items|
    ensures j.JObj? ==> r == |j.fields|
    ensures !(j.JNull? || j.JArr? || j.JObj?) ==> r == 1
  {
    match j
    case JNull => 0
    case JArr(s) => |s|
    case JObj(m) => |m|
    case _ => 1
  }

  /** `get<std::string>()`: throws on anything but a string. */
  function GetString(j: Json): (r: Option<string>)
    ensures r.Some? <==> j.JStr?
    ensures r.Some? ==> r.value == j.s
  {
    if j.JStr? then Some(j.s) else None
  }

  /** `get<bool>()`: throws on anything but a boolean. */
  function GetBool(j: Json): (r: Option<bool>)
    ensures r.Some? <==> j.JBool?
    ensures r.Some? ==> r.value == j.b
  {
    if j.JBool? then Some(j.b) else None
  }

  /** `get<int32_t>()` and the other conversions to integer types narrower
      than the library's own 64-bit number types (`uint32_t`, `int8_t`,
      `char`, `uint8_t`): numbers convert, booleans convert to 0 or 1, and
      everything else throws. Narrowing to the smaller width is not modelled. */
  function GetInt(j: Json): (r: Option<int>)
    ensures r.Some? <==> (j.JNum? || j.JBool?)
    ensures j.JNum? ==> r == Some(j.n)
    ensures j.JBool? ==> r == Some(if j.b then 1 else 0)
  {
    match j
    case JNum(n) => Some(n)
    case JBool(b) => Some(if b then 1 else 0)
    case _ => None
  }

  /** `get<uint64_t>()`: only numbers convert (the library's own unsigned
      number type rejects booleans), and the value wraps modulo 2^64. */
  function GetU64(j: Json): (r: Option<nat>)
    ensures r.Some? <==> j.JNum?
    ensures r.Some? ==> r.value < U64_BOUND && r.value % U64_BOUND == j.n % U64_BOUND
    ensures j.JNum? && 0 <= j.n < U64_BOUND ==> r == Some(j.n)
  {
    if j.JNum? then Some(j.n % U64_BOUND) else None
  }

  /** The string under `key`, when `j` is an object holding a string there:
      `j.at(key).get<std::string>()`. */
  function StringAt(j: Json, key: string): (r: Option<string>)
    ensures r.Some? <==> (j.JObj? && key in j.fields && j.fields[key].JStr?)
    ensures r.Some? ==> r.value == j.fields[key].s
  {
    match At(j, key)
    case Some(v) => GetString(v)
    case None => None
  }
}
