/** The hit properties an attack carries. */
module HitProperties {
  import opened Wrappers
  import opened HitFlags
  import opened Elements

  /** Only the fields the modelled operations read or copy; the drag and
      context records are folded into `context`. */
  datatype HitProps = HitProps(
    damage: int,
    flags: HitFlags,
    element: Element,
    secondaryElement: Element,
    aggressor: Option<nat>,
    context: nat)
}
