/**
 * A decoded JSON document, as `encoding/json` produces it when unmarshalling
 * into `interface{}`: objects are maps (a repeated key keeps one value),
 * arrays are sequences. Numbers are integers here; fractional numbers are
 * not part of this model.
 */
module JsonValue {

  import opened Wrappers

  datatype Json =
    | JNull
    | JBool(b: bool)
    | JNumber(n: int)
    | JString(s: string)
    | JArray(items: seq<Json>)
    | JObject(fields: map<string, Json>)

  /**
   * The value under `key` of an object. A missing key reads as `null`, which
   * is what both a Go map lookup into `interface{}` and a struct decode see.
   */
  function Field(j: Json, key: string): Json
  {
    if j.JObject? && key in j.fields then j.fields[key] else JNull
  }

  // ---------------------------------------------------------------------------
  // Decoding into typed Go values. A JSON `null`, like a missing key, leaves
  // the zero value in place; a value of another kind is a decoding error.
  // ---------------------------------------------------------------------------

  /** Decoding into a `string`. */
  function AsString(j: Json): (r: Option<string>)
    ensures r.Some? <==> j.JString? || j.JNull?
    ensures j.JString? ==> r == Some(j.s)
    ensures j.JNull? ==> r == Some("")
  {
    match j
    case JString(s) => Some(s)
    case JNull => Some("")
    case _ => None
  }

  /** Decoding into an `int`. */
  function AsInt(j: Json): (r: Option<int>)
    ensures r.Some? <==> j.JNumber? || j.JNull?
    ensures j.JNumber? ==> r == Some(j.n)
    ensures j.JNull? ==> r == Some(0)
  {
    match j
    case JNumber(n) => Some(n)
    case JNull => Some(0)
    case _ => None
  }

  /** A value a struct can be decoded from: an object, or `null` for the zero struct. */
  predicate IsStruct(j: Json) {
    j.JObject? || j.JNull?
  }

  /** Decoding every element of an array with `elem`; fails as soon as one element fails. */
  function AllOf<T>(items: seq<Json>, elem: Json -> Option<T>): (r: Option<seq<T>>)
    ensures r.Some? <==> forall i :: 0 <= i < |items| ==> elem(items[i]).Some?
    ensures r.Some? ==> |r.value| == |items|
    ensures r.Some? ==> forall i :: 0 <= i < |items| ==> r.value[i] == elem(items[i]).value
  {
    if items == [] then Some([])
    else
      match elem(items[0])
      case None => None
      case Some(x) =>
        match AllOf(items[1..], elem)
        case None => None
        case Some(xs) => Some([x] + xs)
  }

  /** Decoding into a slice: an array element by element, or `null` for the nil slice. */
  function AsList<T>(j: Json, elem: Json -> Option<T>): (r: Option<seq<T>>)
    ensures j.JNull? ==> r == Some([])
    ensures !j.JNull? && !j.JArray? ==> r.None?
    ensures j.JArray? ==> r == AllOf(j.items, elem)
  {
    match j
    case JNull => Some([])
    case JArray(items) => AllOf(items, elem)
    case _ => None
  }
}
