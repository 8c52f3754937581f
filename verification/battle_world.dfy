/**
 * The records of the battle simulation: entities, tiles, animators, card
 * actions, components and defense rules, and the world that holds them.
 * Callbacks and Lua tables are opaque tokens.
 */
module BattleWorld {
  import opened Wrappers
  import opened Stores

  type EntityId = nat
  /** A `BattleCallback`: what it does is decided by a script. */
  type Callback = nat
  /** A Lua registry table of a script. */
  type TableId = nat
  type Pos = (int, int)

  datatype Team = Unset | Red | Blue | Other

  datatype Direction = NoDirection | Left | Right | Up | Down | UpLeft | UpRight | DownLeft | DownRight

  datatype Tile = Tile(
    team: Team,
    direction: Direction,
    hole: bool,
    edge: bool,
    entityCount: int,
    reservations: set<EntityId>,
    ignoredAttackers: set<EntityId>)
  {
    /** `Tile::has_other_reservations`. */
    predicate HasOtherReservations(id: EntityId) {
      reservations - {id} != {}
    }
  }

  /** A node of an entity's sprite tree. */
  datatype SpriteNode = SpriteNode(visible: bool, offset: Pos)

  datatype Entity = Entity(
    id: EntityId,
    x: int,
    y: int,
    team: Team,
    facing: Direction,
    pendingSpawn: bool,
    spawned: bool,
    onField: bool,
    erased: bool,
    deleted: bool,
    animatorIndex: nat,
    cardActionIndex: Option<nat>,
    spawnCallback: Callback,
    battleStartCallback: Callback,
    deleteCallback: Callback,
    deleteCallbacks: seq<Callback>,
    localComponents: seq<nat>,
    autoReservesTiles: bool,
    ignoreHoleTiles: bool,
    shareTile: bool,
    sprites: map<nat, SpriteNode>)
  {
    function Position(): Pos { (x, y) }
  }

  /** An animator as the scripts see it: `frameCallbacks` lists the
      (zero-based frame, callback) pairs registered with `on_frame`, oldest first. */
  datatype Animator = Animator(
    state: string,
    states: set<string>,
    enabled: bool,
    points: map<string, Pos>,
    origin: Pos,
    frameCallbacks: seq<(nat, Callback)>)

  datatype Lockout = Animation | Async(frames: nat) | Sequence

  datatype Step = Step(completed: bool, callback: Callback)

  datatype Attachment = Attachment(
    pointName: string,
    spriteIndex: nat,
    animatorIndex: nat,
    parentAnimatorIndex: nat)

  datatype CardAction = CardAction(
    activeFrames: nat,
    deleted: bool,
    executed: bool,
    used: bool,
    interrupted: bool,
    entity: EntityId,
    state: string,
    prevState: Option<string>,
    spriteIndex: nat,
    steps: seq<Step>,
    stepIndex: nat,
    attachments: seq<Attachment>,
    lockout: Lockout,
    oldPosition: Pos,
    endCallback: Option<Callback>)

  datatype Lifetime = Local | Battle | BattleStep

  datatype Component = Component(entity: EntityId, lifetime: Lifetime, updateCallback: Callback)

  /** Priorities of defense rules: ordered tiers, with `Last` above every tier. */
  datatype DefensePriority = Tier(n: nat) | Last

  predicate PriorityLe(a: DefensePriority, b: DefensePriority) {
    b.Last? || (a.Tier? && a.n <= b.n)
  }

  predicate PriorityLt(a: DefensePriority, b: DefensePriority) {
    PriorityLe(a, b) && a != b
  }

  datatype DefenseRule = DefenseRule(
    collisionOnly: bool,
    priority: DefensePriority,
    vmIndex: nat,
    table: TableId)

  datatype Living = Living(health: int, defenseRules: seq<DefenseRule>)

  datatype World = World(
    entities: Store<Entity>,
    living: map<EntityId, Living>,
    tiles: map<Pos, Tile>,
    animators: map<nat, Animator>,
    cardActions: Store<CardAction>,
    components: Store<Component>,
    pending: seq<Callback>,
    fired: seq<Callback>,
    replacedTables: set<TableId>,
    battleStarted: bool,
    time: nat)
  {
    ghost predicate StoresValid() {
      entities.Valid() && cardActions.Valid() && components.Valid()
    }
  }

  /**
   * What the modelled code can observe of the scripts and animations: which
   * callbacks a callback queues when it runs, which callbacks an animator state
   * change returns, which callbacks a forced `update` of an animator returns, and
   * which named function a Lua table holds.
   */
  datatype Host = Host(
    enqueues: Callback -> seq<Callback>,
    stateCallbacks: (nat, string) -> seq<Callback>,
    updateCallbacks: nat -> seq<Callback>,
    tableFunction: (TableId, string) -> Option<Callback>)
}
