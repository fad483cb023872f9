/** JSON values, as the WebDriver server passes them around. */
module Json {
  datatype Value =
    | Null
    | Boolean(truth: bool)
    | Number(number: real)
    | String(text: string)
    | Array(items: seq<Value>)
    | Object(members: Members)

  type Members = map<string, Value>
}
