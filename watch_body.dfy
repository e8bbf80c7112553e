/**
 * The body of a watch request, `{ key: [ <wire part>, ... ] }`, and its
 * validator. `ValidPart` and `ValidBody` state the schema declaratively; the
 * parser is proved to accept exactly the bodies they describe and to keep
 * exactly the schema's fields (unknown members are stripped).
 */
module WatchBody {
  import opened Wrappers
  import opened KvKeys

  /** Where validation failed first. */
  datatype ParseError = BodyNotAnObject | KeyNotAnArray | InvalidPart(index: nat)

  /** A `number` part's value: a number or one of the three literal strings. */
  predicate IsNumberValue(j: Json)
  {
    j.JNumber? || j == JString("NaN") || j == JString("Infinity") || j == JString("-Infinity")
  }

  /** One of the four object shapes of the schema's union. */
  predicate ValidPart(j: Json)
  {
    && j.JObject?
    && "type" in j.members
    && "value" in j.members
    && var tag, value := j.members["type"], j.members["value"];
       || ((tag == JString("string") || tag == JString("bigint")) && value.JString?)
       || (tag == JString("boolean") && value.JBool?)
       || (tag == JString("number") && IsNumberValue(value))
       || (tag == JString("Uint8Array") && value.JString?
           && "byteLength" in j.members && j.members["byteLength"].JNumber?)
  }

  /** An object whose `key` member is an array of valid parts (possibly empty). */
  predicate ValidBody(body: Json)
  {
    && body.JObject?
    && "key" in body.members
    && body.members["key"].JArray?
    && forall i :: 0 <= i < |body.members["key"].items| ==> ValidPart(body.members["key"].items[i])
  }

  /** The JSON object a client sends for a wire part. */
  function PartToJson(w: WirePart): Json
  {
    match w
    case WString(s) => JObject(map["type" := JString("string"), "value" := JString(s)])
    case WBigInt(s) => JObject(map["type" := JString("bigint"), "value" := JString(s)])
    case WBoolean(b) => JObject(map["type" := JString("boolean"), "value" := JBool(b)])
    case WNumber(n) => JObject(map["type" := JString("number"), "value" := NumberToJson(n)])
    case WBytes(s, len) =>
      JObject(map["type" := JString("Uint8Array"), "value" := JString(s), "byteLength" := JNumber(len)])
  }

  function NumberToJson(n: WireNumber): Json
  {
    match n
    case WFinite(t) => JNumber(t)
    case WNaN => JString("NaN")
    case WInfinity => JString("Infinity")
    case WNegInfinity => JString("-Infinity")
  }

  /** The request body a client sends for a wire key. */
  function BodyToJson(key: WireKey): Json
  {
    JObject(map["key" := JArray(PartsToJson(key))])
  }

  function PartsToJson(key: WireKey): (r: seq<Json>)
    ensures |r| == |key|
    ensures forall i :: 0 <= i < |key| ==> r[i] == PartToJson(key[i])
  {
    if key == [] then [] else [PartToJson(key[0])] + PartsToJson(key[1..])
  }

  /** Every member of `a` is a member of `b` with the same value. */
  predicate SubObject(a: Json, b: Json)
  {
    a.JObject? && b.JObject? &&
    forall name :: name in a.members ==> name in b.members && b.members[name] == a.members[name]
  }

  function ParseNumber(j: Json): (r: Option<WireNumber>)
    ensures r.Some? <==> IsNumberValue(j)
    ensures r.Some? ==> NumberToJson(r.value) == j
  {
    match j
    case JNumber(t) => Some(WFinite(t))
    case JString(s) =>
      if s == "NaN" then Some(WNaN)
      else if s == "Infinity" then Some(WInfinity)
      else if s == "-Infinity" then Some(WNegInfinity)
      else None
    case _ => None
  }

  /** Validates one element of the `key` array against the union. */
  function ParsePart(j: Json): (r: Option<WirePart>)
    ensures r.Some? <==> ValidPart(j)
    ensures r.Some? ==> SubObject(PartToJson(r.value), j)
  {
    if !j.JObject? || "type" !in j.members || "value" !in j.members then None
    else
      var value := j.members["value"];
      match j.members["type"]
      case JString(tag) =>
        if tag == "string" && value.JString? then Some(WString(value.s))
        else if tag == "bigint" && value.JString? then Some(WBigInt(value.s))
        else if tag == "boolean" && value.JBool? then Some(WBoolean(value.b))
        else if tag == "number" && IsNumberValue(value) then Some(WNumber(ParseNumber(value).value))
        else if tag == "Uint8Array" && value.JString?
                && "byteLength" in j.members && j.members["byteLength"].JNumber? then
          Some(WBytes(value.s, j.members["byteLength"].token))
        else None
      case _ => None
  }

  /** Validates the elements of the `key` array in order; a failure reports
      the first element that matches none of the shapes. */
  function ParseParts(items: seq<Json>): (r: Result<WireKey, nat>)
    ensures r.Success? <==> forall i :: 0 <= i < |items| ==> ValidPart(items[i])
    ensures r.Success? ==> |r.value| == |items|
    ensures r.Success? ==> forall i :: 0 <= i < |items| ==> ParsePart(items[i]) == Some(r.value[i])
    ensures r.Failure? ==> r.error < |items| && !ValidPart(items[r.error])
    ensures r.Failure? ==> forall i :: 0 <= i < r.error ==> ValidPart(items[i])
  {
    if items == [] then Success([])
    else
      match ParsePart(items[0])
      case None => Failure(0)
      case Some(p) =>
        match ParseParts(items[1..])
        case Failure(i) =>
          assert forall k :: 0 < k <= i ==> items[k] == items[1..][k - 1];
          Failure(i + 1)
        case Success(ps) =>
          assert forall k :: 0 < k < |items| ==> items[k] == items[1..][k - 1];
          Success([p] + ps)
  }

  /** `parseWatchBody`: succeeds exactly on the bodies the schema describes. */
  function ParseWatchBody(body: Json): (r: Result<WireKey, ParseError>)
    ensures r.Success? <==> ValidBody(body)
    ensures r.Success? ==> |r.value| == |body.members["key"].items|
    ensures r.Success? ==> forall i :: 0 <= i < |r.value| ==>
                             SubObject(PartToJson(r.value[i]), body.members["key"].items[i])
    ensures r == Failure(BodyNotAnObject) <==> !body.JObject?
    ensures r == Failure(KeyNotAnArray) <==> body.JObject? && !("key" in body.members && body.members["key"].JArray?)
    ensures r.Failure? && r.error.InvalidPart? ==>
              && ValidBody(body) == false
              && body.JObject? && "key" in body.members && body.members["key"].JArray?
              && r.error.index < |body.members["key"].items|
              && !ValidPart(body.members["key"].items[r.error.index])
  {
    if !body.JObject? then Failure(BodyNotAnObject)
    else if "key" !in body.members || !body.members["key"].JArray? then Failure(KeyNotAnArray)
    else
      match ParseParts(body.members["key"].items)
      case Failure(i) => Failure(InvalidPart(i))
      case Success(key) => Success(key)
  }

  /** A part a client encodes is read back unchanged. */
  lemma PartRoundTrip(w: WirePart)
    ensures ParsePart(PartToJson(w)) == Some(w)
  {
  }

  /** A body a client encodes is accepted and yields the same wire key. */
  lemma {:induction false} BodyRoundTrip(key: WireKey)
    ensures ParseWatchBody(BodyToJson(key)) == Success(key)
  {
    PartsRoundTrip(key);
  }

  lemma {:induction false} PartsRoundTrip(key: WireKey)
    ensures ParseParts(PartsToJson(key)) == Success(key)
  {
    if key != [] {
      PartRoundTrip(key[0]);
      assert PartsToJson(key)[1..] == PartsToJson(key[1..]);
      PartsRoundTrip(key[1..]);
      assert [key[0]] + key[1..] == key;
    }
  }
}
