/** JSON-like values as the slide code receives them: the parsed request body, the model's reply
    and the generated slide data. `JUndefined` stands for a missing property. Numbers are integers
    in this model. Objects keep their members in insertion order, as `Object.entries` does. */
module Json {
  import opened Options
  import opened JsNumber

  datatype JsonValue =
    | JUndefined
    | JNull
    | JBool(b: bool)
    | JNumber(n: int)
    | JString(s: string)
    | JArray(items: seq<JsonValue>)
    | JObject(members: seq<Member>)

  datatype Member = Member(key: string, value: JsonValue)

  /** JavaScript truthiness: `false`, `0`, `""`, `null` and `undefined` are falsy;
      every array and object, even an empty one, is truthy. */
  predicate Truthy(v: JsonValue): (t: bool)
    ensures !t <==> v == JUndefined || v == JNull || v == JBool(false) || v == JNumber(0) || v == JString("")
  {
    match v
    case JUndefined => false
    case JNull => false
    case JBool(b) => b
    case JNumber(n) => n != 0
    case JString(s) => s != ""
    case JArray(_) => true
    case JObject(_) => true
  }

  /** `o[k]` for an own property of a plain object; `undefined` when absent
      (the first member with that key wins, as the key is unique in a real object). */
  function Field(members: seq<Member>, k: string): (r: JsonValue)
    ensures r != JUndefined ==> exists i :: 0 <= i < |members| && members[i].key == k && members[i].value == r
    ensures (forall i :: 0 <= i < |members| ==> members[i].key != k) ==> r == JUndefined
  {
    if members == [] then JUndefined
    else if members[0].key == k then members[0].value
    else Field(members[1..], k)
  }

  /** Property access `v.k` on any value: objects look the key up, arrays and strings answer
      index "0", everything else yields `undefined`. (`null.k` throws; callers guard it.) */
  function Property(v: JsonValue, k: string): JsonValue {
    match v
    case JObject(ms) => Field(ms, k)
    case JArray(items) => if k == "0" && items != [] then items[0] else JUndefined
    case JString(s) => if k == "0" && s != "" then JString(s[..1]) else JUndefined
    case _ => JUndefined
  }

  /** Optional chaining `v?.k`: `undefined` when `v` is null or undefined. */
  function OptionalProperty(v: JsonValue, k: string): JsonValue {
    if v == JNull || v == JUndefined then JUndefined else Property(v, k)
  }

  /** The properties every plain object inherits from `Object.prototype`; each is truthy. */
  const ObjectPrototypeNames: set<string> := {
    "constructor", "toString", "toLocaleString", "valueOf", "hasOwnProperty", "isPrototypeOf",
    "propertyIsEnumerable", "__proto__", "__defineGetter__", "__defineSetter__",
    "__lookupGetter__", "__lookupSetter__"
  }

  /** What `record[key]` finds on an object literal used as a lookup table: one of its own
      entries, a member inherited from `Object.prototype`, or nothing (`undefined`). */
  datatype Found<T> = Own(value: T) | Inherited(name: string) | Missing

  function RecordGet<T>(m: map<string, T>, key: string): (r: Found<T>)
    ensures r.Own? <==> key in m
    ensures r.Own? ==> r.value == m[key]
    ensures r.Inherited? <==> key !in m && key in ObjectPrototypeNames
    ensures r.Inherited? ==> r.name == key
  {
    if key in m then Own(m[key])
    else if key in ObjectPrototypeNames then Inherited(key)
    else Missing
  }

  /** `o` has an own member named `k`. */
  predicate HasKey(members: seq<Member>, k: string) {
    exists i :: 0 <= i < |members| && members[i].key == k
  }

  /** `String(v)` as a template literal or a property key computes it (ToPrimitive with hint
      string, then ToString). Arrays join their elements with ",", a null or undefined element
      giving ""; a plain object gives "[object Object]". An object with an own `toString` member
      holds a non-callable there, so ToPrimitive falls through to `valueOf`, gets the object back
      and throws a TypeError: `None`. */
  function StringOf(v: JsonValue): (r: Option<string>)
    ensures v.JString? ==> r == Some(v.s)
    ensures v.JNumber? ==> r == Some(IntToString(v.n))
    ensures v.JObject? ==> (r == None <==> HasKey(v.members, "toString"))
    decreases v
  {
    match v
    case JUndefined => Some("undefined")
    case JNull => Some("null")
    case JBool(b) => Some(if b then "true" else "false")
    case JNumber(n) => Some(IntToString(n))
    case JString(s) => Some(s)
    case JArray(items) =>
      JoinStrings(seq(|items|, i requires 0 <= i < |items| =>
        if items[i] == JNull || items[i] == JUndefined then Some("") else StringOf(items[i])))
    case JObject(ms) => if HasKey(ms, "toString") then None else Some("[object Object]")
  }

  /** `Array.prototype.join(",")` over already converted elements; a failed conversion fails. */
  function JoinStrings(parts: seq<Option<string>>): (r: Option<string>)
    ensures r == None <==> exists i :: 0 <= i < |parts| && parts[i] == None
  {
    if parts == [] then Some("")
    else if |parts| == 1 then parts[0]
    else match JoinStrings(parts[..|parts| - 1])
      case None => None
      case Some(front) =>
        match parts[|parts| - 1]
        case None => None
        case Some(last) => Some(front + "," + last)
  }
}
