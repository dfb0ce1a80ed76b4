/** The JavaScript values the relay handles: parsed JSON payloads, form fields that may be
    `undefined`, and the string conversions JavaScript applies when such values are
    concatenated or interpolated into a template literal. */
module JsValues {

  datatype Option<+T> = None | Some(value: T)

  /** A value produced by `JSON.parse`. A number is carried as the text JavaScript prints
      for it (`String(n)`), since the relay never computes with numbers. */
  datatype Json =
    | JNull
    | JBool(b: bool)
    | JNumber(text: string)
    | JString(s: string)
    | JArray(elems: seq<Json>)
    | JObject(fields: map<string, Json>)

  /** `parts.join(",")`. */
  function JoinWithCommas(parts: seq<string>): string {
    if |parts| <= 1 then (if parts == [] then "" else parts[0])
    else JoinWithCommas(parts[..|parts| - 1]) + "," + parts[|parts| - 1]
  }

  /** The text `${v}` yields for a JSON value with the default conversions: an array joins
      its elements with commas (null elements become empty), an object becomes
      "[object Object]". */
  function TemplateText(v: Json): string {
    match v
    case JNull => "null"
    case JBool(b) => if b then "true" else "false"
    case JNumber(text) => text
    case JString(s) => s
    case JArray(elems) =>
      JoinWithCommas(seq(|elems|, i requires 0 <= i < |elems| =>
        if elems[i].JNull? then "" else TemplateText(elems[i])))
    case JObject(_) => "[object Object]"
  }

  /** `"..." + field` for a form field that may be `undefined`. */
  function FormText(field: Option<string>): string {
    match field
    case Some(s) => s
    case None => "undefined"
  }
}
