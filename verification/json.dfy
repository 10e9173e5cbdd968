/**
 * The value tree the JSON5 parser (json.h) hands to the technique compiler.
 * The parser itself is not part of this model: a text that does not parse is
 * a `None` input to the compiler, and a number arrives with the two readings
 * the compiler ever takes of its text, `atoi` (an `int`) and `(float)atof`
 * (as the bit pattern of the `float`). A string is what the compiler reads
 * through its `char*`: the characters before the first NUL.
 */
module Json {
  import opened Machine
  import GfxString

  datatype Value =
    | JNull
    | JTrue
    | JFalse
    | JNumber(atoi: I32, atof: U32)
    | JString(text: GfxString.CText)
    | JArray(items: seq<Value>)
    | JObject(members: seq<Member>)

  /** One `name: value` element of an object, in the order of the text. */
  datatype Member = Member(name: string, value: Value)

  /** `json_type_true || json_type_false`. */
  predicate IsBool(v: Value) {
    v.JTrue? || v.JFalse?
  }
}
