/** Player inputs and their one-byte wire encoding. */
module Inputs {
  import opened Wrappers

  datatype Input =
    | Up | Down | Left | Right | UseCard | Shoot | Special | Pause | Confirm | Cancel
    | Option | Sprint | ShoulderL | ShoulderR | Minimap | AdvanceFrame | RewindFrame

  /** Every variant in declaration order; its position is its discriminant. */
  const ALL: seq<Input> := [
    Up, Down, Left, Right, UseCard, Shoot, Special, Pause, Confirm, Cancel,
    Option, Sprint, ShoulderL, ShoulderR, Minimap, AdvanceFrame, RewindFrame
  ]

  function ToU8(i: Input): nat {
    match i
    case Up => 0 case Down => 1 case Left => 2 case Right => 3 case UseCard => 4
    case Shoot => 5 case Special => 6 case Pause => 7 case Confirm => 8 case Cancel => 9
    case Option => 10 case Sprint => 11 case ShoulderL => 12 case ShoulderR => 13
    case Minimap => 14 case AdvanceFrame => 15 case RewindFrame => 16
  }

  function FromU8(b: Byte): (r: Wrappers.Option<Input>)
    ensures r.Some? <==> b <= 16
    ensures r.Some? ==> ToU8(r.value) == b
  {
    if b <= 16 then Some(ALL[b]) else None
  }

  /** The discriminants are 0..16 in declaration order and decoding inverts encoding. */
  lemma {:induction false} Discriminants(i: Input)
    ensures |ALL| == 17
    ensures forall k :: 0 <= k < 17 ==> ToU8(ALL[k]) == k
    ensures ToU8(i) <= 16 && ALL[ToU8(i)] == i
    ensures FromU8(ToU8(i)) == Some(i)
  {
  }

  const REQUIRED_INPUTS: seq<Input> := [
    Up, Down, Left, Right, Cancel, Confirm, Pause, Option, ShoulderL, ShoulderR
  ]

  /** Ten distinct inputs; none of the gameplay-only or debugging inputs is required. */
  lemma {:induction false} RequiredInputsShape()
    ensures |REQUIRED_INPUTS| == 10 && NoDup(REQUIRED_INPUTS)
    ensures forall i :: i in {UseCard, Shoot, Special, Sprint, Minimap, AdvanceFrame, RewindFrame} ==>
      i !in REQUIRED_INPUTS
  {
  }

  /** Decodes a byte list, dropping bytes that name no input (`flat_map(from_u8)`). */
  function DecodeAll(bytes: seq<Byte>): (r: seq<Input>)
    ensures |r| <= |bytes|
    ensures forall i :: i in r ==> ToU8(i) in bytes
    ensures forall b :: b in bytes && b <= 16 ==> ALL[b] in r
  {
    if bytes == [] then []
    else
      var rest := DecodeAll(bytes[1..]);
      match FromU8(bytes[0])
      case Some(i) => [i] + rest
      case None => rest
  }

  /** Decoding works byte by byte: a concatenation decodes to the concatenated inputs. */
  lemma {:induction false} DecodeAllAppend(a: seq<Byte>, b: seq<Byte>)
    ensures DecodeAll(a + b) == DecodeAll(a) + DecodeAll(b)
    decreases |a|
  {
    if a == [] {
      assert a + b == b;
    } else {
      assert (a + b)[0] == a[0];
      assert (a + b)[1..] == a[1..] + b;
      DecodeAllAppend(a[1..], b);
    }
  }

  /** A single byte decodes to its input, or to nothing when it names none. */
  lemma {:induction false} DecodeAllSingle(b: Byte)
    ensures DecodeAll([b]) == if b <= 16 then [ALL[b]] else []
  {
    assert [b][1..] == [];
  }

  /** Encoding a list of inputs byte by byte and decoding it gives the list back. */
  lemma {:induction false} DecodeAllEncoded(inputs: seq<Input>)
    ensures DecodeAll(seq(|inputs|, k requires 0 <= k < |inputs| => ToU8(inputs[k]) as Byte)) == inputs
    decreases |inputs|
  {
    var bytes := seq(|inputs|, k requires 0 <= k < |inputs| => ToU8(inputs[k]) as Byte);
    if inputs != [] {
      Discriminants(inputs[0]);
      var tail := seq(|inputs[1..]|, k requires 0 <= k < |inputs[1..]| => ToU8(inputs[1..][k]) as Byte);
      assert bytes[1..] == tail;
      DecodeAllEncoded(inputs[1..]);
    }
  }
}
