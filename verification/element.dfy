/** Elemental affinity of an attack or entity, and its script encoding. */
module Elements {
  import opened Wrappers
  import opened LuaValues

  /** Declaration order is the encoding: None = 0 … Break = 10. */
  datatype Element = None | Fire | Aqua | Elec | Wood | Sword | Wind | Cursor | Summon | Plus | Break

  const DEFAULT: Element := Element.None

  function ToU8(e: Element): (r: nat)
    ensures r <= 10
  {
    match e
    case None => 0 case Fire => 1 case Aqua => 2 case Elec => 3 case Wood => 4 case Sword => 5
    case Wind => 6 case Cursor => 7 case Summon => 8 case Plus => 9 case Break => 10
  }

  /** `Element::from_u8`: the variant with that discriminant, if any. */
  function FromU8(b: nat): (r: Option<Element>)
    ensures r.Some? <==> b <= 10
    ensures r.Some? ==> ToU8(r.value) == b
  {
    if b == 0 then Some(Element.None) else if b == 1 then Some(Fire) else if b == 2 then Some(Aqua)
    else if b == 3 then Some(Elec) else if b == 4 then Some(Wood) else if b == 5 then Some(Sword)
    else if b == 6 then Some(Wind) else if b == 7 then Some(Cursor) else if b == 8 then Some(Summon)
    else if b == 9 then Some(Plus) else if b == 10 then Some(Break) else Option.None
  }

  predicate IsWeakTo(self: Element, other: Element) {
    match (self, other)
    case (Aqua, Elec) => true
    case (Fire, Aqua) => true
    case (Wood, Fire) => true
    case (Elec, Wood) => true
    case (Sword, Break) => true
    case (Wind, Sword) => true
    case (Cursor, Wind) => true
    case (Break, Cursor) => true
    case _ => false
  }

  /** The weakness relation as an independent table of pairs. */
  const WEAKNESSES: set<(Element, Element)> := {
    (Aqua, Elec), (Fire, Aqua), (Wood, Fire), (Elec, Wood),
    (Sword, Break), (Wind, Sword), (Cursor, Wind), (Break, Cursor)
  }

  /** Weakness holds for exactly the eight listed pairs. */
  lemma {:induction false} WeaknessTable(a: Element, b: Element)
    ensures IsWeakTo(a, b) <==> (a, b) in WEAKNESSES
  {
  }

  /** Irreflexive and asymmetric; None, Summon and Plus take part in no weakness;
      each element has at most one weakness. */
  lemma {:induction false} WeaknessShape(a: Element, b: Element, c: Element)
    ensures !IsWeakTo(a, a)
    ensures IsWeakTo(a, b) ==> !IsWeakTo(b, a)
    ensures a in {Element.None, Summon, Plus} ==> !IsWeakTo(a, b) && !IsWeakTo(b, a)
    ensures IsWeakTo(a, b) && IsWeakTo(a, c) ==> b == c
  {
  }

  /** Decoding a script value: only a float is accepted, and it goes through `as u8`. */
  function FromLua(v: LuaValue): (r: Result<Element>)
    ensures !v.Number? ==> r == Err(ConversionError("Element"))
    ensures v.Number? ==> (r.Ok? <==> CastU8(v.n) <= 10)
    ensures v.Number? && r.Ok? ==> ToU8(r.value) == CastU8(v.n)
  {
    match v
    case Number(n) =>
      (match FromU8(CastU8(n))
       case Some(e) => Ok(e)
       case None => Err(ConversionError("Element")))
    case _ => Err(ConversionError("Element"))
  }

  function ToLua(e: Element): LuaValue {
    Number(ToU8(e) as real)
  }

  /** Encoding then decoding gives back the element. */
  lemma {:induction false} RoundTrip(e: Element)
    ensures FromLua(ToLua(e)) == Ok(e)
  {
    CastU8OfWhole(ToU8(e));
  }

  /** A negative number saturates to 0 and decodes to None; 11 and above fail. */
  lemma {:induction false} DecodeEdges(n: real)
    ensures n < 0.0 ==> FromLua(Number(n)) == Ok(Element.None)
    ensures n >= 11.0 ==> FromLua(Number(n)).Err?
    ensures FromLua(Integer(3)).Err?
  {
  }
}
