/** Scalar JSON values: the contents of record payloads and of the per-game
    settings groups. Nested objects and arrays inside a payload are not modelled. */
module Json {

  datatype Scalar = Nil | Num(n: int) | Str(s: string) | Bool(b: bool)

  /** A JSON object whose members are all scalars. */
  type Fields = map<string, Scalar>
}
