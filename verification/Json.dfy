/** JSON values, as `JSON.parse` yields them; numbers are kept as scaled integers. */
module Json {
  datatype Json =
    | Null
    | Bool(b: bool)
    | Number(n: int)
    | String(s: string)
    | Array(items: seq<Json>)
    | Object(members: map<string, Json>)
}
