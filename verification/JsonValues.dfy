/** JSON documents as the scripts read them.  Numbers are integers. */
module JsonValues {

  datatype Json =
    | Null
    | Bool(b: bool)
    | Number(n: int)
    | Text(s: string)
    | List(items: seq<Json>)
    | Object(fields: map<string, Json>)
}
