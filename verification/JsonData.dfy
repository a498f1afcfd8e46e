/** Plain JSON data, as Python's json module reads it. */
module JsonData {

  datatype Json =
    | Null
    | Bool(flag: bool)
    | Int(number: int)
    | Real(fraction: real)
    | Str(text: string)
    | Arr(items: seq<Json>)
    | Obj(fields: map<string, Json>)
}
