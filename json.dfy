/**
 * The parts of Instagram's JSON replies that the core reads. Parsing is done
 * by jsonpathlite and org.json; a reply is given here already read, each
 * field None where the path is absent (or holds a value of another type).
 */
module Json {
  import opened Wrappers
  import opened Strings

  /** A JSON scalar read through `get(...)`: a string or a number. */
  datatype Scalar = Text(s: string) | Number(n: int) {
    /** `toString()` of the value. */
    function Show(): string {
      match this
      case Text(s) => s
      case Number(n) => Decimal(n)
    }

    /** `read<String>`: a string value, nothing for a number. */
    function AsString(): Option<string> {
      match this
      case Text(s) => Some(s)
      case Number(_) => None
    }

    /** `read<Long>`: a number that fits 64 bits, nothing otherwise. */
    function AsLong(): Option<int> {
      match this
      case Number(n) => if LONG_MIN <= n <= LONG_MAX then Some(n) else None
      case Text(_) => None
    }

    /** `read<Int>`: a number that fits 32 bits, nothing otherwise. */
    function AsInt(): Option<int> {
      match this
      case Number(n) => if INT_MIN <= n <= INT_MAX then Some(n) else None
      case Text(_) => None
    }
  }

  /** Kotlin string template of a nullable value: "null" for null. */
  function ShowOrNull(x: Option<string>): string {
    x.GetOr("null")
  }

  /** The reply fields read by the request dispatcher and the login flows. */
  datatype Reply = Reply(
    status: Option<string>,             // $.status
    message: Option<string>,            // $.message
    twoFactorRequired: Option<bool>,    // $.two_factor_required
    action: Option<string>,             // $.action
    stepName: Option<string>,           // $.step_name
    stepData: Option<map<string, Scalar>>,  // $.step_data, an org.json object
    challengePath: Option<string>       // $.challenge.api_path
  )

  /** An HTTP response as khttp gives it, with its body already parsed. */
  datatype Response = Response(
    statusCode: int,
    cookies: map<string, string>,       // cookie name to value
    text: string,                       // the raw body
    json: Option<Reply>                 // JsonPath.parseOrNull(text)
  )

  /** A JSON value built by the core before it is sent. */
  datatype Value =
    | JStr(s: string)
    | JNum(n: int)
    | JBool(b: bool)
    | JList(items: seq<Value>)
    | JObject(fields: seq<(string, Value)>)

  /**
   * `put(key, value)` on an insertion-ordered map (`JSONObject`, Kotlin's
   * `mutableMapOf`): replaces the value of a present key in place, else appends it.
   */
  function Put<V(==)>(fields: seq<(string, V)>, key: string, value: V): (r: seq<(string, V)>)
    ensures (key, value) in r
    ensures forall i | 0 <= i < |r| :: r[i].0 == key || r[i] in fields
    ensures forall i | 0 <= i < |fields| && fields[i].0 != key :: fields[i] in r
  {
    if fields == [] then [(key, value)]
    else if fields[0].0 == key then [(key, value)] + fields[1..]
    else
      var rest := Put(fields[1..], key, value);
      assert forall i | 1 <= i < |fields| :: fields[i] == fields[1..][i - 1];
      [fields[0]] + rest
  }

  /** `JSONObject.put(key, null)`: removes the key. */
  function Remove<V(==)>(fields: seq<(string, V)>, key: string): (r: seq<(string, V)>)
    ensures forall i | 0 <= i < |r| :: r[i].0 != key && r[i] in fields
    ensures forall i | 0 <= i < |fields| && fields[i].0 != key :: fields[i] in r
  {
    if fields == [] then []
    else
      var rest := Remove(fields[1..], key);
      assert forall i | 1 <= i < |fields| :: fields[i] == fields[1..][i - 1];
      if fields[0].0 == key then rest else [fields[0]] + rest
  }

  /** `JSONObject.put(key, x)` for a nullable `x`. */
  function PutOrRemove(fields: seq<(string, Value)>, key: string, value: Option<Value>): seq<(string, Value)> {
    match value
    case Some(v) => Put(fields, key, v)
    case None => Remove(fields, key)
  }

  /** The value a key holds in an object, if any. */
  function Lookup<V(==)>(fields: seq<(string, V)>, key: string): (r: Option<V>)
    ensures r.Some? ==> (key, r.value) in fields
    ensures r.None? ==> forall i | 0 <= i < |fields| :: fields[i].0 != key
  {
    if fields == [] then None
    else if fields[0].0 == key then Some(fields[0].1)
    else
      assert forall i | 1 <= i < |fields| :: fields[i] == fields[1..][i - 1];
      Lookup(fields[1..], key)
  }

  /** Put, then read back: the key holds the new value. */
  lemma {:induction false} LookupPut<V>(fields: seq<(string, V)>, key: string, value: V, other: string)
    ensures Lookup(Put(fields, key, value), key) == Some(value)
    ensures other != key ==> Lookup(Put(fields, key, value), other) == Lookup(fields, other)
  {
    if fields != [] && fields[0].0 != key {
      LookupPut(fields[1..], key, value, other);
    }
  }

  /** No key occurs twice. */
  predicate DistinctKeys<V>(fields: seq<(string, V)>) {
    forall i, j | 0 <= i < j < |fields| :: fields[i].0 != fields[j].0
  }

  /** With distinct keys, the field stored under a key is what Lookup finds. */
  lemma {:induction false} LookupDistinct<V>(fields: seq<(string, V)>, i: nat)
    requires DistinctKeys(fields) && i < |fields|
    ensures Lookup(fields, fields[i].0) == Some(fields[i].1)
  {
    var r := Lookup(fields, fields[i].0);
    assert r.Some? ==> (fields[i].0, r.value) in fields;
  }

  /** Remove, then read back: the key is gone and nothing else changed. */
  lemma {:induction false} LookupRemove<V>(fields: seq<(string, V)>, key: string, other: string)
    ensures Lookup(Remove(fields, key), key) == None
    ensures other != key ==> Lookup(Remove(fields, key), other) == Lookup(fields, other)
  {
    if fields != [] {
      LookupRemove(fields[1..], key, other);
    }
  }

  /**
   * `toString()` of a JSON value, fields in the order they were put.
   * (org.json writes an object's fields in its hash map's order and escapes
   * quotes; neither is modelled.)
   */
  function Render(v: Value): (r: string)
    ensures r != []
    decreases v, 1
  {
    match v
    case JStr(s) => "\"" + s + "\""
    case JNum(n) => Decimal(n)
    case JBool(b) => if b then "true" else "false"
    case JList(items) => "[" + RenderItems(v, items) + "]"
    case JObject(fields) => "{" + RenderFields(v, fields) + "}"
  }

  function RenderItems(parent: Value, items: seq<Value>): string
    requires forall i | 0 <= i < |items| :: items[i] < parent
    decreases parent, 0, |items|
  {
    if items == [] then ""
    else if |items| == 1 then Render(items[0])
    else Render(items[0]) + "," + RenderItems(parent, items[1..])
  }

  function RenderFields(parent: Value, fields: seq<(string, Value)>): string
    requires forall i | 0 <= i < |fields| :: fields[i].1 < parent
    decreases parent, 0, |fields|
  {
    if fields == [] then ""
    else
      var field := "\"" + fields[0].0 + "\":" + Render(fields[0].1);
      if |fields| == 1 then field else field + "," + RenderFields(parent, fields[1..])
  }
}
