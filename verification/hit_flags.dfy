/** Hit-flag bits carried by an attack's properties. */
module HitFlags {

  type HitFlags = bv32

  const NONE: HitFlags := 0x0000_0000
  const RETAIN_INTANGIBLE: HitFlags := 0x0000_0001
  const FREEZE: HitFlags := 0x0000_0002
  const PIERCE_INVIS: HitFlags := 0x0000_0004
  const FLINCH: HitFlags := 0x0000_0008
  const SHAKE: HitFlags := 0x0000_0010
  const PARALYZE: HitFlags := 0x0000_0020
  const FLASH: HitFlags := 0x0000_0040
  const PIERCE_GUARD: HitFlags := 0x0000_0080
  const IMPACT: HitFlags := 0x0000_0100
  const DRAG: HitFlags := 0x0000_0200
  const BUBBLE: HitFlags := 0x0000_0400
  const NO_COUNTER: HitFlags := 0x0000_0800
  const ROOT: HitFlags := 0x0000_1000
  const BLIND: HitFlags := 0x0000_2000
  const CONFUSE: HitFlags := 0x0000_4000
  const PIERCE_GROUND: HitFlags := 0x0000_8000

  /** Every named flag except NONE, in declaration order. */
  const NAMED: seq<HitFlags> := [
    RETAIN_INTANGIBLE, FREEZE, PIERCE_INVIS, FLINCH, SHAKE, PARALYZE, FLASH, PIERCE_GUARD,
    IMPACT, DRAG, BUBBLE, NO_COUNTER, ROOT, BLIND, CONFUSE, PIERCE_GROUND
  ]

  const LIST: seq<HitFlags> := [
    RETAIN_INTANGIBLE, FREEZE, PIERCE_INVIS, FLINCH, SHAKE, PARALYZE, FLASH, PIERCE_GUARD,
    IMPACT, DRAG, BUBBLE, NO_COUNTER, ROOT, BLIND, CONFUSE
  ]

  const STATUS_LIST: seq<HitFlags> := [FREEZE, PARALYZE, BUBBLE, ROOT, BLIND, CONFUSE]

  predicate SingleBit(f: HitFlags) {
    f != 0 && f & (f - 1) == 0
  }

  /** Bit number `k` of a 32-bit flag word. */
  function Bit(k: nat): HitFlags
    requires k < 32
  {
    (1 as bv32) << k
  }

  /** The i-th named flag is bit i: all sixteen are distinct single bits in bits 0..15. */
  lemma {:induction false} NamedFlagsAreBits()
    ensures |NAMED| == 16
    ensures forall i :: 0 <= i < 16 ==> NAMED[i] == Bit(i) && SingleBit(NAMED[i])
    ensures forall i, j :: 0 <= i < j < 16 ==> NAMED[i] != NAMED[j]
    ensures NONE == 0
  {
    forall i | 0 <= i < 16
      ensures NAMED[i] == Bit(i) && SingleBit(NAMED[i])
    {
      BitCases(i);
    }
  }

  lemma {:induction false} BitCases(i: nat)
    requires i < 16
    ensures NAMED[i] == Bit(i) && SingleBit(NAMED[i])
  {
    if i < 4 {
      if i == 0 {} else if i == 1 {} else if i == 2 {} else {}
    } else if i < 8 {
      if i == 4 {} else if i == 5 {} else if i == 6 {} else {}
    } else if i < 12 {
      if i == 8 {} else if i == 9 {} else if i == 10 {} else {}
    } else {
      if i == 12 {} else if i == 13 {} else if i == 14 {} else {}
    }
  }

  /** LIST is every single-bit flag but PIERCE_GROUND, each once; STATUS_LIST lies inside it. */
  lemma {:induction false} ListShape()
    ensures |LIST| == 15 && LIST == NAMED[..15]
    ensures PIERCE_GROUND !in LIST
    ensures forall i, j :: 0 <= i < j < |LIST| ==> LIST[i] != LIST[j]
    ensures forall f :: f in STATUS_LIST ==> f in LIST
  {
    NamedFlagsAreBits();
  }

  /** The animation state used to draw a status effect on an entity of the given height. */
  function StatusAnimationState(flag: HitFlags, height: real): (r: string)
    ensures flag == CONFUSE ==> r == "CONFUSE"
    ensures flag == BLIND ==> r == "BLIND"
    ensures flag == FREEZE ==>
      r == (if height <= 48.0 then "FREEZE_SMALL" else if height <= 75.0 then "FREEZE_MEDIUM" else "FREEZE_LARGE")
    ensures flag !in {CONFUSE, BLIND, FREEZE} ==> r == ""
  {
    if flag == CONFUSE then "CONFUSE"
    else if flag == BLIND then "BLIND"
    else if flag == FREEZE then
      (if height <= 48.0 then "FREEZE_SMALL" else if height <= 75.0 then "FREEZE_MEDIUM" else "FREEZE_LARGE")
    else ""
  }

  /** A combination of status bits names no animation state, even when it contains one. */
  lemma {:induction false} CombinedFlagsHaveNoState(flag: HitFlags, height: real)
    requires !SingleBit(flag)
    ensures StatusAnimationState(flag, height) == ""
  {
  }

  function FreezeRank(state: string): nat {
    if state == "FREEZE_SMALL" then 0 else if state == "FREEZE_MEDIUM" then 1 else 2
  }

  /** A taller entity never gets a smaller freeze block; the size classes break at 48 and 75. */
  lemma {:induction false} FreezeSizeMonotone(h1: real, h2: real)
    requires h1 <= h2
    ensures FreezeRank(StatusAnimationState(FREEZE, h1)) <= FreezeRank(StatusAnimationState(FREEZE, h2))
    ensures StatusAnimationState(FREEZE, 48.0) == "FREEZE_SMALL"
    ensures StatusAnimationState(FREEZE, 48.5) == "FREEZE_MEDIUM"
    ensures StatusAnimationState(FREEZE, 75.0) == "FREEZE_MEDIUM"
    ensures StatusAnimationState(FREEZE, 75.5) == "FREEZE_LARGE"
  {
  }
}
