/**
 * The JavaScript values `JSON.parse` can produce, and the three things the
 * agent does with them: read a named property, test it for truthiness and
 * interpolate it into a template literal.
 */
module JsonValue {
  import opened Wrappers

  /** A value `JSON.parse` can return.  A number is kept as its canonical
      JavaScript rendering (what `String(n)` gives), which is all the agent
      ever observes of it; an object keeps its members in source order,
      duplicates included. */
  datatype Json =
    | JNull
    | JBool(b: bool)
    | JNumber(repr: string)
    | JString(s: string)
    | JArray(items: seq<Json>)
    | JObject(members: seq<(string, Json)>)

  /** The two TypeErrors the agent can meet on a parsed value: reading a
      property of `null`, and converting to a string a value that has no
      primitive form. */
  datatype TypeError = ReadOfNull | NoPrimitiveValue

  /** The value bound to `key` by the last member that names it: with
      duplicate keys `JSON.parse` keeps the last one. */
  function Lookup(members: seq<(string, Json)>, key: string): (r: Option<Json>)
    ensures r.None? <==> forall i :: 0 <= i < |members| ==> members[i].0 != key
    ensures r.Some? ==> (key, r.value) in members
  {
    if members == [] then None
    else if members[|members| - 1].0 == key then Some(members[|members| - 1].1)
    else Lookup(members[..|members| - 1], key)
  }

  /** Member `i` is the last one that names `key`. */
  predicate BindsLast(members: seq<(string, Json)>, key: string, i: int) {
    0 <= i < |members| && members[i].0 == key && forall j :: i < j < |members| ==> members[j].0 != key
  }

  /** Lookup answers with the last binding of the key. */
  lemma {:induction false} LookupFindsLastBinding(members: seq<(string, Json)>, key: string, i: int)
    requires BindsLast(members, key, i)
    ensures Lookup(members, key) == Some(members[i].1)
  {
    if i < |members| - 1 {
      var prefix := members[..|members| - 1];
      assert BindsLast(prefix, key, i);
      LookupFindsLastBinding(prefix, key, i);
    }
  }

  /** `v.key`: `Ok(None)` is `undefined`.  The keys the agent reads (`step`,
      `tool`, `input`, `fileName`, `data`) are not inherited properties of
      any JavaScript value, so only an object's own members can supply them. */
  function Get(v: Json, key: string): (r: Result<Option<Json>, TypeError>)
    ensures r.Err? <==> v.JNull?
    ensures r.Ok? && r.value.Some? ==> v.JObject?
    ensures v.JObject? ==> r == Ok(Lookup(v.members, key))
  {
    match v
    case JNull => Err(ReadOfNull)
    case JObject(members) => Ok(Lookup(members, key))
    case _ => Ok(None)
  }

  /** Reading a property of a parsed object gives the value of the last
      member that names it. */
  lemma GetReadsLastBinding(members: seq<(string, Json)>, key: string, i: int)
    requires BindsLast(members, key, i)
    ensures Get(JObject(members), key) == Ok(Some(members[i].1))
  {
    LookupFindsLastBinding(members, key, i);
  }

  /** JavaScript truthiness of a property value (`undefined` is `None`). */
  predicate Truthy(v: Option<Json>) {
    match v
    case None => false
    case Some(JNull) => false
    case Some(JBool(b)) => b
    case Some(JNumber(repr)) => repr != "0" && repr != "NaN"
    case Some(JString(s)) => s != ""
    case Some(_) => true
  }

  /** Converting `v` to a string throws.  An object that `JSON.parse` built
      with a `toString` member has a string, number or other non-callable
      value there, so ToPrimitive skips it, finds `valueOf` returning the
      object itself, and throws a TypeError.  An array's `join` converts
      each element, so it throws when some element does. */
  predicate ToStringThrows(v: Json) {
    match v
    case JObject(members) => exists i :: 0 <= i < |members| && members[i].0 == "toString"
    case JArray(items) => exists i :: 0 <= i < |items| && ToStringThrows(items[i])
    case _ => false
  }

  /** The text a template literal `${x}` produces for a value: JavaScript's
      ToString.  An array joins its elements with commas, an element that is
      `null` giving the empty string; an object without a `toString` member
      gives "[object Object]". */
  function Show(v: Json): (r: Result<string, TypeError>)
    ensures r.Err? <==> ToStringThrows(v)
    ensures r.Err? ==> r.error == NoPrimitiveValue
    ensures v.JString? ==> r == Ok(v.s)
  {
    match v
    case JNull => Ok("null")
    case JBool(b) => Ok(if b then "true" else "false")
    case JNumber(repr) => Ok(repr)
    case JString(s) => Ok(s)
    case JArray(items) =>
      var parts := seq(|items|, i requires 0 <= i < |items| => if items[i].JNull? then Ok("") else Show(items[i]));
      assert forall i :: 0 <= i < |items| ==> (parts[i].Err? <==> ToStringThrows(items[i]));
      JoinWithCommas(parts)
    case JObject(members) =>
      if exists i :: 0 <= i < |members| && members[i].0 == "toString" then Err(NoPrimitiveValue)
      else Ok("[object Object]")
  }

  /** `Array.prototype.join` with "," over converted elements; it throws
      when one of the conversions threw. */
  function JoinWithCommas(parts: seq<Result<string, TypeError>>): (r: Result<string, TypeError>)
    ensures r.Err? <==> exists i :: 0 <= i < |parts| && parts[i].Err?
    ensures r.Err? ==> exists i :: 0 <= i < |parts| && parts[i] == r
  {
    if parts == [] then Ok("")
    else if parts[0].Err? then parts[0]
    else
      var rest := JoinWithCommas(parts[1..]);
      assert forall i :: 1 <= i < |parts| ==> parts[i] == parts[1..][i - 1];
      if rest.Err? then rest
      else if |parts| == 1 then parts[0]
      else Ok(parts[0].value + "," + rest.value)
  }

  /** Converting a property value that may be `undefined` to a string throws. */
  predicate PropertyToStringThrows(v: Option<Json>) {
    v.Some? && ToStringThrows(v.value)
  }

  /** `${x}` for a property value that may be `undefined`. */
  function ShowProperty(v: Option<Json>): (r: Result<string, TypeError>)
    ensures r.Err? <==> PropertyToStringThrows(v)
  {
    match v
    case None => Ok("undefined")
    case Some(x) => Show(x)
  }
}
