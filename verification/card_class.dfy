/** The class of a battle card and its script encoding. */
module CardClasses {
  import opened Wrappers
  import opened LuaValues

  datatype CardClass = Standard | Mega | Giga | Dark

  /** `#[default]`. */
  const DEFAULT: CardClass := Standard

  function ToU8(c: CardClass): (r: nat)
    ensures r <= 3
  {
    match c
    case Standard => 0 case Mega => 1 case Giga => 2 case Dark => 3
  }

  function FromU8(b: nat): (r: Option<CardClass>)
    ensures r.Some? <==> b <= 3
    ensures r.Some? ==> ToU8(r.value) == b
  {
    if b == 0 then Some(Standard) else if b == 1 then Some(Mega)
    else if b == 2 then Some(Giga) else if b == 3 then Some(Dark) else None
  }

  function FromLua(v: LuaValue): (r: Result<CardClass>)
    ensures !v.Number? ==> r.Err?
    ensures v.Number? ==> (r.Ok? <==> CastU8(v.n) <= 3)
    ensures v.Number? && r.Ok? ==> ToU8(r.value) == CastU8(v.n)
  {
    match v
    case Number(n) =>
      (match FromU8(CastU8(n))
       case Some(c) => Ok(c)
       case None => Err(ConversionError("CardClass")))
    case _ => Err(ConversionError("CardClass"))
  }

  function ToLua(c: CardClass): LuaValue {
    Number(ToU8(c) as real)
  }

  lemma {:induction false} RoundTrip(c: CardClass)
    ensures FromLua(ToLua(c)) == Ok(c)
  {
    CastU8OfWhole(ToU8(c));
  }

  /** 0..3 decode in declaration order; the default is the class numbered 0. */
  lemma {:induction false} DecodeOrder()
    ensures FromLua(Number(0.0)) == Ok(Standard) && FromLua(Number(1.0)) == Ok(Mega)
    ensures FromLua(Number(2.0)) == Ok(Giga) && FromLua(Number(3.0)) == Ok(Dark)
    ensures FromLua(Number(4.0)).Err?
    ensures ToU8(DEFAULT) == 0
  {
  }
}
