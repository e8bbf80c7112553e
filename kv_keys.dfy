/**
 * KV keys, their JSON wire form and the key codecs.
 *
 * A key is a sequence of typed parts. The codecs between keys and their wire
 * form (`toKey`, `keyToJSON`) and the JSON text functions belong to libraries
 * outside this model; they are carried as the fields of a `Codec` value, and
 * `RoundTrips` states what the model assumes of them.
 */
module KvKeys {
  import opened Wrappers

  /** A JavaScript number inside a key: finite values are opaque tokens, the
      three values JSON cannot express are sentinels. */
  datatype NumberValue = Finite(token: int) | NaN | Infinity | NegInfinity

  /** One part of a key: string, number, bigint, boolean or byte array. */
  datatype KeyPart =
    | StringPart(text: string)
    | NumberPart(number: NumberValue)
    | BigIntPart(big: int)
    | BooleanPart(flag: bool)
    | BytesPart(bytes: seq<bv8>)

  type Key = seq<KeyPart>

  /** Byte arrays are compared byte for byte. */
  function BytesEqual(a: seq<bv8>, b: seq<bv8>): (r: bool)
    ensures r <==> a == b
  {
    if |a| != |b| then false
    else if a == [] then true
    else
      assert a == [a[0]] + a[1..] && b == [b[0]] + b[1..];
      a[0] == b[0] && BytesEqual(a[1..], b[1..])
  }

  /** Type-aware comparison of two key parts: parts of different types differ. */
  function PartEquals(a: KeyPart, b: KeyPart): (r: bool)
    ensures r <==> a == b
  {
    match (a, b)
    case (StringPart(x), StringPart(y)) => x == y
    case (NumberPart(x), NumberPart(y)) => x == y
    case (BigIntPart(x), BigIntPart(y)) => x == y
    case (BooleanPart(x), BooleanPart(y)) => x == y
    case (BytesPart(x), BytesPart(y)) => BytesEqual(x, y)
    case _ => false
  }

  /** `equals` of the key toolbox: same length and equal parts, position by
      position. Keys are compared by structure, never by identity. */
  function KeyEquals(a: Key, b: Key): (r: bool)
    ensures r <==> a == b
  {
    if |a| != |b| then false
    else if a == [] then true
    else
      assert a == [a[0]] + a[1..] && b == [b[0]] + b[1..];
      PartEquals(a[0], b[0]) && KeyEquals(a[1..], b[1..])
  }

  /** A parsed JSON value. Numbers are opaque tokens (JSON has no NaN or
      infinities); an object is a map from member names to values. */
  datatype Json =
    | JNull
    | JBool(b: bool)
    | JNumber(token: int)
    | JString(s: string)
    | JArray(items: seq<Json>)
    | JObject(members: map<string, Json>)

  /** The `value` of a `number` wire part: a JSON number or one of the
      strings "NaN", "Infinity", "-Infinity". */
  datatype WireNumber = WFinite(token: int) | WNaN | WInfinity | WNegInfinity

  /** The tagged wire form of one key part. */
  datatype WirePart =
    | WString(value: string)
    | WBigInt(value: string)
    | WBoolean(flag: bool)
    | WNumber(number: WireNumber)
    | WBytes(value: string, byteLength: int)

  type WireKey = seq<WirePart>

  /** The external codecs: `toKey` and `JSON.parse` may throw (None), the
      encoders are total. */
  datatype Codec = Codec(
    toKey: WireKey -> Option<Key>,
    keyToJSON: Key -> WireKey,
    stringify: seq<WireKey> -> string,
    parse: string -> Option<seq<WireKey>>)

  /** What the model assumes of the codecs: decoding an encoded key gives the
      key back, parsing stringified text gives the list back, and stringified
      text is never the empty string (an array is at least "[]"). */
  ghost predicate RoundTrips(c: Codec)
  {
    && (forall k :: c.toKey(c.keyToJSON(k)) == Some(k))
    && (forall ws :: c.parse(c.stringify(ws)) == Some(ws))
    && (forall ws :: c.stringify(ws) != "")
  }
}
