/** JSON values as JavaScript sees them after `JSON.parse`, the property-access
    and type tests the application applies to them, and the serialiser, parser
    and digest the application calls, passed in as an environment. */
module Json {
  import opened Wrappers

  /** A parsed JSON value; numbers are kept as mathematical reals. */
  datatype Json =
    | JNull
    | JBool(b: bool)
    | JNum(n: real)
    | JStr(s: string)
    | JArr(items: seq<Json>)
    | JObj(fields: map<string, Json>)

  /** A JavaScript value that may be `undefined`, written `None`. */
  type JsValue = Option<Json>

  /** `v[key]` on a value known not to be `null` or `undefined`: only objects
      have named properties here, everything else yields `undefined`. */
  function Member(v: Json, key: string): (r: JsValue)
    ensures r.Some? <==> v.JObj? && key in v.fields
    ensures r.Some? ==> r.value == v.fields[key]
  {
    if v.JObj? && key in v.fields then Some(v.fields[key]) else None
  }

  /** `v[key]` on any value: reading a property of `null` or `undefined`
      throws a TypeError, written `None`. */
  function Get(v: JsValue, key: string): (r: Option<JsValue>)
    ensures r.None? <==> v.None? || v.value.JNull?
    ensures r.Some? ==> r.value == Member(v.value, key)
  {
    if v.None? || v.value.JNull? then None else Some(Member(v.value, key))
  }

  /** JavaScript truthiness. */
  predicate Truthy(v: JsValue) {
    match v
    case None => false
    case Some(JNull) => false
    case Some(JBool(b)) => b
    case Some(JNum(n)) => n != 0.0
    case Some(JStr(s)) => s != []
    case Some(JArr(_)) => true
    case Some(JObj(_)) => true
  }

  /** `typeof v === "object"`, which holds for `null` and arrays as well. */
  predicate IsObjectType(v: JsValue) {
    v.Some? && (v.value.JNull? || v.value.JArr? || v.value.JObj?)
  }

  /** `typeof v === "string"`. */
  predicate IsString(v: JsValue) {
    v.Some? && v.value.JStr?
  }

  /** `Array.isArray(v)`. */
  predicate IsArray(v: JsValue) {
    v.Some? && v.value.JArr?
  }

  /** `!v || typeof v !== "string"` fails exactly for a non-empty string. */
  lemma StringCheck(v: JsValue)
    ensures (Truthy(v) && IsString(v)) <==> (v.Some? && v.value.JStr? && v.value.s != [])
  {
  }

  /** `!v || typeof v !== "object"` fails exactly for an array or an object:
      `null` is of type "object" but falsy. */
  lemma ObjectCheck(v: JsValue)
    ensures (Truthy(v) && IsObjectType(v)) <==> (v.Some? && (v.value.JArr? || v.value.JObj?))
  {
  }

  /** An array of strings as a JSON value. */
  function StringArray(ids: seq<string>): (r: Json)
    ensures r.JArr? && |r.items| == |ids|
    ensures forall i :: 0 <= i < |ids| ==> r.items[i] == JStr(ids[i])
  {
    JArr(seq(|ids|, i requires 0 <= i < |ids| => JStr(ids[i])))
  }

  /** The strings of an array whose items are all strings. */
  predicate AllStrings(items: seq<Json>) {
    forall i :: 0 <= i < |items| ==> items[i].JStr?
  }

  function Strings(items: seq<Json>): (r: seq<string>)
    requires AllStrings(items)
    ensures |r| == |items| && forall i :: 0 <= i < |items| ==> items[i] == JStr(r[i])
  {
    seq(|items|, i requires 0 <= i < |items| => items[i].s)
  }

  lemma StringsOfStringArray(ids: seq<string>)
    ensures AllStrings(StringArray(ids).items) && Strings(StringArray(ids).items) == ids
  {
  }

  /** The object rest of `const { k1, k2, ... , ...rest } = obj`. */
  function Without(fields: map<string, Json>, keys: set<string>): (r: map<string, Json>)
    ensures forall k :: k in r <==> k in fields && k !in keys
    ensures forall k :: k in r ==> r[k] == fields[k]
  {
    map k | k in fields && k !in keys :: fields[k]
  }

  /** The outside collaborators the application calls on JSON text:
      `JSON.stringify(v)`, `JSON.stringify(v, null, 2)`, `JSON.parse(s)`
      (`None` for a SyntaxError) and the hex SHA-256 digest of a string. */
  datatype JsonEnv = JsonEnv(
    stringify: Json -> string,
    pretty: Json -> string,
    parse: string -> Option<Json>,
    sha256: string -> string)

  /** What the application relies on when it stores `JSON.stringify(v)`
      and later parses it: the text is not empty and parses back to `v`.
      This is asked of the one value stored, not of every value: a number
      of the model is any real, which no text format can carry in full. */
  predicate StringifyRoundTrips(env: JsonEnv, v: Json) {
    env.stringify(v) != [] && env.parse(env.stringify(v)) == Some(v)
  }

  /** The same for the indented text `JSON.stringify(v, null, 2)`. */
  predicate PrettyRoundTrips(env: JsonEnv, v: Json) {
    env.parse(env.pretty(v)) == Some(v)
  }

  /** Collaborators exist under which any one value reads back. */
  lemma RoundTripsMeetable(v: Json)
    ensures exists env :: StringifyRoundTrips(env, v) && PrettyRoundTrips(env, v)
  {
    var env := JsonEnv((j: Json) => "v", (j: Json) => "v", (t: string) => Some(v), (t: string) => t);
    assert StringifyRoundTrips(env, v) && PrettyRoundTrips(env, v);
  }
}
