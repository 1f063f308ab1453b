/** JSON as the program sees it: a value type, and a text form that is not looked into. */
module JsonValues {
  import opened Wrappers
  import opened Framing

  datatype Json =
    | Null
    | Bool(b: bool)
    | Number(n: real)
    | Text(s: string)
    | Array(items: seq<Json>)
    | Object(fields: map<string, Json>)

  /** `dump` and `parse`; None is the exception each of them may raise. */
  datatype Codec = Codec(dump: Json -> Option<Payload>, parse: Payload -> Option<Json>)

  ghost predicate Faithful(codec: Codec) {
    forall j: Json :: codec.dump(j).Some? ==> codec.parse(codec.dump(j).value) == Some(j)
  }

  /** The value of a text member; None is the exception for a wrong shape. */
  function TextAt(j: Json, key: string): Option<string> {
    if j.Object? && key in j.fields && j.fields[key].Text? then Some(j.fields[key].s) else None
  }

  function MemberAt(j: Json, key: string): Option<Json> {
    if j.Object? && key in j.fields then Some(j.fields[key]) else None
  }

  /** A text member that may be missing, but not of another type nor in a non-object. */
  function TextOr(j: Json, key: string, otherwise: string): Option<string> {
    if j.Object? && key !in j.fields then Some(otherwise) else TextAt(j, key)
  }
}
