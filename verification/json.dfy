/** The JSON values the modelled objects are made of; an object is a
    `map<string, JsonValue>` and its text form is not modelled. */
module Json {

  datatype JsonValue =
    | JNull
    | JBool(boolean: bool)
    | JInt(number: int)
    | JString(str: string)
    | JArray(items: seq<JsonValue>)
}
