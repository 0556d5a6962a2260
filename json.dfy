/** Parsed JSON values: what `json.loads` yields and `json.dumps` accepts. The text form is not modelled. */
module Json {

  datatype Value =
    | JNull
    | JBool(b: bool)
    | JNumber(n: int)
    | JString(str: string)
    | JArray(items: seq<Value>)
    | JObject(fields: map<string, Value>)
}
