/**
 * JSON documents as trees; the library's parsing and printing of JSON text is not modelled.
 */
module JsonTrees {
  import opened Strings

  datatype Double = Finite(value: real) | NonFinite

  datatype Json =
    | Object(members: seq<Member>)
    | Array(items: seq<Json>)
    | String(text: Bytes)
    | Bool(flag: bool)
    | Int(number: int)
    | Real(double: Double)
    | Null

  datatype Member = Member(key: Bytes, value: Json)
}
