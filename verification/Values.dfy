/** The loosely typed payloads that travel through the bridge. */
module Values {

  datatype Option<+T> = None | Some(value: T)

  datatype Result<+T, +E> = Ok(value: T) | Err(error: E)

  /** Go's `any` as it comes out of a JSON decoder. */
  datatype Value =
    | Null
    | Bool(truth: bool)
    | Number(number: real)
    | Text(text: string)
    | List(items: seq<Value>)
    | Object(fields: Fields)

  /** Go's `map[string]any`. */
  type Fields = map<string, Value>

  /** Go's two-result assertion `v, _ := fields[key].(string)`. */
  function TextAt(fields: Fields, key: string): Option<string> {
    if key in fields && fields[key].Text? then Some(fields[key].text) else None
  }

  /** Go's two-result assertion `v, _ := fields[key].(map[string]any)`. */
  function ObjectAt(fields: Fields, key: string): Option<Fields> {
    if key in fields && fields[key].Object? then Some(fields[key].fields) else None
  }
}
