/** Decoded JSON values as the HTTP client hands them to the harvester, and the
    two value-cleaning steps applied to them before a row is persisted. */
module Json {

  /** A decoded JSON document. Numbers are integers (see README, "Left out"). */
  datatype Json =
    | JNull
    | JBool(b: bool)
    | JNum(n: int)
    | JStr(s: string)
    | JArr(items: seq<Json>)
    | JObj(fields: map<string, Json>)

  /** A JSON object: one decoded row (a movie, a person, a cast member). */
  type Object = map<string, Json>

  /** Python truthiness of the decoded value (`if data:`). */
  predicate Truthy(v: Json) {
    match v
    case JNull => false
    case JBool(b) => b
    case JNum(n) => n != 0
    case JStr(s) => s != ""
    case JArr(xs) => xs != []
    case JObj(m) => m != map[]
  }

  /** `isinstance(v, (list, dict))`. */
  predicate IsContainer(v: Json) {
    v.JArr? || v.JObj?
  }

  /** One value of `serialize_json`: a list or dict becomes its `json.dumps` text. */
  function SerializeValue(v: Json, dumps: Json -> string): (r: Json)
    ensures !IsContainer(r)
    ensures IsContainer(v) ==> r == JStr(dumps(v))
    ensures !IsContainer(v) ==> r == v
  {
    if IsContainer(v) then JStr(dumps(v)) else v
  }

  /** `serialize_json(data)`: keeps every key, replaces list/dict values by their
      JSON text and leaves every other value as it is. */
  function SerializeJson(data: Object, dumps: Json -> string): (r: Object)
    ensures r.Keys == data.Keys
    ensures forall k :: k in r ==> !IsContainer(r[k])
    ensures forall k :: k in data && IsContainer(data[k]) ==> r[k] == JStr(dumps(data[k]))
    ensures forall k :: k in data && !IsContainer(data[k]) ==> r[k] == data[k]
  {
    map k | k in data :: SerializeValue(data[k], dumps)
  }

  /** Serialising an already serialised row changes nothing. */
  lemma SerializeJsonIdempotent(data: Object, dumps: Json -> string)
    ensures SerializeJson(SerializeJson(data, dumps), dumps) == SerializeJson(data, dumps)
  {
    var once := SerializeJson(data, dumps);
    var twice := SerializeJson(once, dumps);
    forall k | k in once
      ensures twice[k] == once[k]
    {
    }
  }

  /** A row with no list/dict value is a fixed point of `serialize_json`. */
  lemma SerializeJsonFlatRowUnchanged(data: Object, dumps: Json -> string)
    requires forall k :: k in data ==> !IsContainer(data[k])
    ensures SerializeJson(data, dumps) == data
  {
    var r := SerializeJson(data, dumps);
    forall k | k in data
      ensures r[k] == data[k]
    {
    }
  }

  const LineSeparator: char := '\U{2028}'
  const ParagraphSeparator: char := '\U{2029}'

  predicate IsSeparator(c: char) {
    c == LineSeparator || c == ParagraphSeparator
  }

  /** `clean_text`: every U+2028 and U+2029 becomes a space; nothing else moves. */
  function CleanText(text: string): (r: string)
    ensures |r| == |text|
    ensures forall i :: 0 <= i < |text| ==> r[i] == if IsSeparator(text[i]) then ' ' else text[i]
  {
    if text == [] then []
    else [if IsSeparator(text[0]) then ' ' else text[0]] + CleanText(text[1..])
  }

  /** The output of `clean_text` holds no Unicode line or paragraph separator. */
  lemma CleanTextHasNoSeparator(text: string)
    ensures forall i :: 0 <= i < |CleanText(text)| ==> !IsSeparator(CleanText(text)[i])
  {
  }

  /** Cleaning twice is cleaning once. */
  lemma CleanTextIdempotent(text: string)
    ensures CleanText(CleanText(text)) == CleanText(text)
  {
    var once := CleanText(text);
    assert forall i :: 0 <= i < |once| ==> !IsSeparator(once[i]);
  }

  /** Text without separators is left exactly as it was. */
  lemma CleanTextKeepsCleanText(text: string)
    requires forall i :: 0 <= i < |text| ==> !IsSeparator(text[i])
    ensures CleanText(text) == text
  {
  }
}
