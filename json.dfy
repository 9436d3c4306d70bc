/** JSON values, as `serde_json::Value` holds them. */
module JsonValues {
  /** `serde_json::Value` without floating-point numbers; an object keeps its members in order. */
  datatype Json =
    | Null
    | Bool(b: bool)
    | Number(n: int)
    | Text(s: string)
    | Array(items: seq<Json>)
    | Object(members: seq<(string, Json)>)
}
