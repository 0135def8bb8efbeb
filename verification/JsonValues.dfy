/** JSON values as the audit log and the parameter grid hold them. */
module JsonValues {

  /** `serde_json::Value`; a number is carried by the token it prints as. */
  datatype Json =
    | Null
    | Bool(b: bool)
    | Number(token: string)
    | Str(s: string)
    | Arr(items: seq<Json>)
    | Obj(fields: map<string, Json>)
}
