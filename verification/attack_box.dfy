/** An attack queued on a tile by a spell. */
module AttackBoxes {
  import opened BattleWorld
  import opened HitProperties

  datatype TileHighlight = NoHighlight | Flash | Solid | Automatic

  /** The spell part of an entity: what it hits with and how it asks its tile to light up. */
  datatype Spell = Spell(hitProps: HitProps, requestedHighlight: TileHighlight)

  datatype AttackBox = AttackBox(
    attackerId: EntityId,
    team: Team,
    x: int,
    y: int,
    props: HitProps,
    highlight: bool)

  /** `AttackBox::new_from`. */
  function NewFrom(pos: Pos, entity: Entity, spell: Spell): (r: AttackBox)
    ensures r.attackerId == entity.id && r.team == entity.team
    ensures (r.x, r.y) == pos
    ensures r.props == spell.hitProps
    ensures r.highlight <==> spell.requestedHighlight == Automatic
  {
    AttackBox(entity.id, entity.team, pos.0, pos.1, spell.hitProps, spell.requestedHighlight == Automatic)
  }

  /** Only the attacker's identity and team are read from the entity: two entities
      agreeing on them produce the same box. */
  lemma {:induction false} NewFromReadsOnlyIdAndTeam(pos: Pos, a: Entity, b: Entity, spell: Spell)
    requires a.id == b.id && a.team == b.team
    ensures NewFrom(pos, a, spell) == NewFrom(pos, b, spell)
  {
  }
}
