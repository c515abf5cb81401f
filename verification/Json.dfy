/** JSON values, as the evaluator and the coercion code see them. */
module JsonValues {
  datatype Num = Int(i: int) | Float(r: real)

  datatype Json =
    | Null
    | Bool(b: bool)
    | Number(n: Num)
    | Str(s: string)
    | Array(items: seq<Json>)
    | Object(fields: map<string, Json>)

  /** Integers and floats as one exact scale; the rounding of `as_f64` is not modelled. */
  function AsReal(n: Num): real { if n.Int? then n.i as real else n.r }

  /** The value is a number, integer or float, that stands for this real. */
  predicate Denotes(v: Json, x: real) {
    v == Number(Float(x)) || (v.Number? && v.n.Int? && v.n.i as real == x)
  }
}
