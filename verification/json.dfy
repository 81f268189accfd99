/** Parsed JSON documents, as produced by `json.loads` and REST responses. */
module JsonValues {

  /**
   * A JSON value. Numbers keep their literal text: no modelled operation
   * looks inside them.
   */
  datatype Json =
    | Null
    | Bool(b: bool)
    | Number(literal: string)
    | String(s: string)
    | Array(items: seq<Json>)
    | Object(fields: map<string, Json>)
}
