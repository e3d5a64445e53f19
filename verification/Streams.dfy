/** Records as they flow between operators. */
module Streams {
  /** What an interface value can hold, as far as the operators look. */
  datatype Value = Str(s: string) | Int(n: int) | Float(x: real) | Other(tag: int)

  type Record = map<string, Value>

  datatype Timed = Timed(at: int, rec: Record)
}
