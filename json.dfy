/** The values `json.loads` can return (numbers kept as integers), and the
    `dict.get(key, default)` lookup the application applies to them. */
module Json {

  datatype JsonValue =
    | JNull
    | JBool(b: bool)
    | JNumber(n: int)
    | JString(s: string)
    | JArray(items: seq<JsonValue>)
    | JObject(fields: map<string, JsonValue>)

  /** `fields.get(key, default)`. */
  function GetOr(fields: map<string, JsonValue>, key: string, default: JsonValue): JsonValue {
    if key in fields then fields[key] else default
  }
}
