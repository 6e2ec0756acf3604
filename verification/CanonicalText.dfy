/** Canonical JSON: the text every content digest is taken of. Objects are lists of fields in
    insertion order; their keys are sorted by code units (section 3.2.3 of RFC 8785). */
module CanonicalText {
  import opened Common
  import opened JsonText

  const MAX_SAFE := 9007199254740991

  type SafeInteger = n: int | -MAX_SAFE <= n <= MAX_SAFE

  /** JavaScript values. The last three are not JSON. */
  datatype Json =
    | JNull | JBool(b: bool) | JNumber(n: SafeInteger) | JString(s: Text)
    | JArray(items: seq<Json>) | JObject(fields: seq<(Text, Json)>)
    | NonFinite | Undefined | Unsupported(kind: string)

  datatype JsonError = NonFiniteNumber | UndefinedField | UnsupportedType

  type Rendering = Result<Text, JsonError>

  const NULL_TEXT: Text := [0x6e, 0x75, 0x6c, 0x6c]
  const TRUE_TEXT: Text := [0x74, 0x72, 0x75, 0x65]
  const FALSE_TEXT: Text := [0x66, 0x61, 0x6c, 0x73, 0x65]
  const COMMA: Unit := 0x2c
  const COLON: Unit := 0x3a
  const OPEN_BRACKET: Unit := 0x5b
  const CLOSE_BRACKET: Unit := 0x5d
  const OPEN_BRACE: Unit := 0x7b
  const CLOSE_BRACE: Unit := 0x7d

  // ---- Key order ----

  predicate Before(a: Text, b: Text) {
    if b == [] then false
    else if a == [] then true
    else if a[0] != b[0] then a[0] < b[0]
    else Before(a[1..], b[1..])
  }

  function InsertByKey<V>(entry: (Text, V), sorted: seq<(Text, V)>): seq<(Text, V)> {
    if sorted != [] && Before(sorted[0].0, entry.0) then [sorted[0]] + InsertByKey(entry, sorted[1..])
    else [entry] + sorted
  }

  function SortByKey<V>(entries: seq<(Text, V)>): seq<(Text, V)> {
    if entries == [] then [] else InsertByKey(entries[0], SortByKey(entries[1..]))
  }

  // ---- Rendering ----

  /** The texts, or the first error. */
  function Collect(rs: seq<Rendering>): Result<seq<Text>, JsonError> {
    if rs == [] then Ok([])
    else if rs[0].Err? then Err(rs[0].error)
    else
      var rest := Collect(rs[1..]);
      if rest.Err? then rest else Ok([rs[0].value] + rest.value)
  }

  function Joined(parts: seq<Text>): Text {
    if parts == [] then []
    else if |parts| == 1 then parts[0]
    else parts[0] + [COMMA] + Joined(parts[1..])
  }

  function Enclosed(open: Unit, parts: Result<seq<Text>, JsonError>, close: Unit): Rendering {
    if parts.Err? then Err(parts.error) else Ok([open] + Joined(parts.value) + [close])
  }

  function Member(entry: (Text, Rendering)): Rendering {
    if entry.1.Err? then entry.1 else Ok(Quoted(entry.0) + [COLON] + entry.1.value)
  }

  function Members(entries: seq<(Text, Rendering)>): (ms: seq<Rendering>)
    ensures |ms| == |entries| && forall i :: 0 <= i < |ms| ==> ms[i] == Member(entries[i])
  {
    seq(|entries|, i requires 0 <= i < |entries| => Member(entries[i]))
  }

  function CanonicalJson(v: Json): Rendering {
    match v
    case JNull => Ok(NULL_TEXT)
    case JBool(b) => Ok(if b then TRUE_TEXT else FALSE_TEXT)
    case JNumber(n) => Ok(Decimal(n))
    case JString(s) => Ok(Quoted(s))
    case NonFinite => Err(NonFiniteNumber)
    case JArray(items) =>
      Enclosed(OPEN_BRACKET, Collect(seq(|items|, i requires 0 <= i < |items| => CanonicalJson(items[i]))), CLOSE_BRACKET)
    case JObject(fields) =>
      if exists i :: 0 <= i < |fields| && fields[i].1 == Undefined then Err(UndefinedField)
      else
        var rendered := seq(|fields|, i requires 0 <= i < |fields| => (fields[i].0, CanonicalJson(fields[i].1)));
        Enclosed(OPEN_BRACE, Collect(Members(SortByKey(rendered))), CLOSE_BRACE)
    case Undefined => Err(UnsupportedType)
    case Unsupported(_) => Err(UnsupportedType)
  }

  // ---- Meaning ----

  /** `contentDigest`: a hash of the canonical text. */
  function ContentDigest<D>(hash: Text -> D, v: Json): Result<D, JsonError> {
    var text := CanonicalJson(v);
    if text.Ok? then Ok(hash(text.value)) else Err(text.error)
  }

  ghost predicate Injective<D(!new)>(hash: Text -> D) {
    forall a, b :: hash(a) == hash(b) ==> a == b
  }

  /** The JSON value a JavaScript value stands for: an object is a map, so key order is gone. */
  datatype Value =
    | VNull | VBool(b: bool) | VNumber(n: int) | VString(s: Text)
    | VArray(items: seq<Value>) | VObject(fields: map<Text, Value>) | VOther(v: Json)

  ghost function MapOf<V>(entries: seq<(Text, V)>): map<Text, V> {
    if entries == [] then map[] else MapOf(entries[1..])[entries[0].0 := entries[0].1]
  }

  ghost function Meaning(v: Json): Value {
    match v
    case JNull => VNull
    case JBool(b) => VBool(b)
    case JNumber(n) => VNumber(n)
    case JString(s) => VString(s)
    case JArray(items) => VArray(seq(|items|, i requires 0 <= i < |items| => Meaning(items[i])))
    case JObject(fields) =>
      VObject(MapOf(seq(|fields|, i requires 0 <= i < |fields| => (fields[i].0, Meaning(fields[i].1)))))
    case NonFinite => VOther(v)
    case Undefined => VOther(v)
    case Unsupported(_) => VOther(v)
  }

  ghost predicate DistinctKeys<V(!new)>(entries: seq<(Text, V)>) {
    forall i, k :: 0 <= i < k < |entries| ==> entries[i].0 != entries[k].0
  }

  /** No object inside `v` has the same key twice, as no JavaScript object has. */
  ghost predicate WellKeyed(v: Json) {
    match v
    case JArray(items) => forall i :: 0 <= i < |items| ==> WellKeyed(items[i])
    case JObject(fields) => DistinctKeys(fields) && forall i :: 0 <= i < |fields| ==> WellKeyed(fields[i].1)
    case _ => true
  }

  /** `v` is made of JSON values only. */
  ghost predicate IsJson(v: Json) {
    match v
    case JArray(items) => forall i :: 0 <= i < |items| ==> IsJson(items[i])
    case JObject(fields) => forall i :: 0 <= i < |fields| ==> IsJson(fields[i].1)
    case NonFinite => false
    case Undefined => false
    case Unsupported(_) => false
    case _ => true
  }
}
