/** The part of the script runtime's value type that the bindings inspect. */
module LuaValues {

  /** A script value. `Number` is a float; `Integer` is the runtime's separate
      integer variant, which the bindings below do not accept. Floats are
      modelled as reals: NaN and the infinities are outside the model. */
  datatype LuaValue =
    | Nil
    | Boolean(b: bool)
    | Integer(i: int)
    | Number(n: real)
    | Str(s: string)
    | Table(id: nat)
    | Function(id: nat)

  /** Rust's `f as u8`: truncation toward zero, saturating at 0 and 255. */
  function CastU8(n: real): (r: nat)
    ensures r <= 255
    ensures n <= 0.0 ==> r == 0
    ensures n >= 255.0 ==> r == 255
    ensures 0.0 <= n < 256.0 ==> r as real <= n < r as real + 1.0
  {
    if n <= 0.0 then 0
    else if n >= 255.0 then 255
    else n.Floor
  }

  /** An integer cast back to a float, as `x as u8 as f64` does. */
  lemma {:induction false} CastU8OfWhole(k: nat)
    requires k <= 255
    ensures CastU8(k as real) == k
  {
  }
}
