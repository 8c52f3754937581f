/**
 * The defense-rule chain of a living entity: rules are kept in ascending
 * priority, a rule of an existing tier replaces the holder of that tier, and
 * `Last` rules always go to the end. Also the rule selection of the judge and
 * the status filter pass.
 */
module DefenseRules {
  import opened Wrappers
  import opened BattleWorld
  import opened BattleSimulation
  import opened HitFlags
  import opened HitProperties

  /** Ascending priorities, and no tier held twice (`Last` may repeat). */
  predicate Chain(rules: seq<DefenseRule>) {
    forall i, j :: 0 <= i < j < |rules| ==>
      PriorityLe(rules[i].priority, rules[j].priority)
      && (rules[i].priority.Tier? ==> rules[i].priority != rules[j].priority)
  }

  /** `position(|r| r.priority >= priority)`. */
  function FirstAtLeast(rules: seq<DefenseRule>, p: DefensePriority): (r: Option<nat>)
    ensures r.Some? ==> r.value < |rules| && PriorityLe(p, rules[r.value].priority)
    ensures r.Some? ==> forall j :: 0 <= j < r.value ==> !PriorityLe(p, rules[j].priority)
    ensures r.None? ==> forall j :: 0 <= j < |rules| ==> !PriorityLe(p, rules[j].priority)
  {
    if rules == [] then None
    else if PriorityLe(p, rules[0].priority) then Some(0)
    else match FirstAtLeast(rules[1..], p)
      case Some(i) => Some(i + 1)
      case None => None
  }

  /**
   * The list rewrite of `DefenseRule::add`: the new chain and the rule it
   * displaced, if any. A `Last` rule is appended; otherwise the rule goes just
   * before the first rule of greater priority, replaces the first rule of equal
   * priority, or is appended when every rule is below it.
   */
  function Insert(rules: seq<DefenseRule>, rule: DefenseRule): (r: (seq<DefenseRule>, Option<DefenseRule>))
    ensures rule.priority.Last? ==> r == (rules + [rule], None)
    ensures r.1.None? ==> |r.0| == |rules| + 1 && multiset(r.0) == multiset(rules) + multiset{rule}
    ensures r.1.Some? ==> (|r.0| == |rules| && r.1.value in rules
      && multiset(r.0) == multiset(rules) - multiset{r.1.value} + multiset{rule})
    ensures rule in r.0
  {
    if rule.priority.Last? then (rules + [rule], None)
    else match FirstAtLeast(rules, rule.priority)
      case Some(i) =>
        if PriorityLt(rule.priority, rules[i].priority) then
          InsertAt(rules, i, rule);
          (rules[..i] + [rule] + rules[i..], None)
        else
          ReplaceAt(rules, i, rule);
          assert rules[i := rule][i] == rule;
          (rules[i := rule], Some(rules[i]))
      case None => (rules + [rule], None)
  }

  /** Inserting keeps the chain sorted with every tier held at most once. */
  lemma {:induction false} InsertKeepsChain(rules: seq<DefenseRule>, rule: DefenseRule)
    requires Chain(rules)
    ensures Chain(Insert(rules, rule).0)
  {
    if rule.priority.Tier? {
      match FirstAtLeast(rules, rule.priority)
      case Some(i) =>
        if PriorityLt(rule.priority, rules[i].priority) {
          ChainInsert(rules, i, rule);
        } else {
          ChainReplace(rules, i, rule);
        }
      case None =>
        assert rules + [rule] == rules[..|rules|] + [rule] + rules[|rules|..];
        ChainInsert(rules, |rules|, rule);
    }
  }

  /** A tier rule put between the rules below it and the rules above it keeps the chain. */
  lemma {:induction false} ChainInsert(rules: seq<DefenseRule>, i: nat, rule: DefenseRule)
    requires Chain(rules) && i <= |rules| && rule.priority.Tier?
    requires forall j :: 0 <= j < i ==> !PriorityLe(rule.priority, rules[j].priority)
    requires i < |rules| ==> PriorityLt(rule.priority, rules[i].priority)
    ensures Chain(rules[..i] + [rule] + rules[i..])
  {
    var out := rules[..i] + [rule] + rules[i..];
    InsertAt(rules, i, rule);
    forall a, b | 0 <= a < b < |out|
      ensures PriorityLe(out[a].priority, out[b].priority)
      ensures out[a].priority.Tier? ==> out[a].priority != out[b].priority
    {
      if a == i {
        assert out[b] == rules[b - 1];
      } else if b == i {
        assert out[a] == rules[a];
      } else {
        var a' := if a < i then a else a - 1;
        var b' := if b < i then b else b - 1;
        assert out[a] == rules[a'] && out[b] == rules[b'];
      }
    }
  }

  /** A rule taking the place of one of the same priority keeps the chain. */
  lemma {:induction false} ChainReplace(rules: seq<DefenseRule>, i: nat, rule: DefenseRule)
    requires Chain(rules) && i < |rules| && rules[i].priority == rule.priority
    ensures Chain(rules[i := rule])
  {
    var out := rules[i := rule];
    forall a, b | 0 <= a < b < |out|
      ensures PriorityLe(out[a].priority, out[b].priority)
      ensures out[a].priority.Tier? ==> out[a].priority != out[b].priority
    {
      assert out[a].priority == rules[a].priority && out[b].priority == rules[b].priority;
    }
  }

  /**
   * A tier rule whose tier is already held replaces the holder in place: same
   * length, same rules everywhere else, and the holder is what is displaced.
   */
  lemma {:induction false} InsertReplaces(rules: seq<DefenseRule>, rule: DefenseRule, i: nat)
    requires Chain(rules) && rule.priority.Tier?
    requires i < |rules| && rules[i].priority == rule.priority
    ensures Insert(rules, rule) == (rules[i := rule], Some(rules[i]))
  {
    var k := FirstAtLeast(rules, rule.priority);
    assert k.Some?;
    assert k.value == i;
  }

  /**
   * A rule of a tier nobody holds displaces nothing. It goes just before the
   * first rule of greater priority, and is appended exactly when there is none,
   * that is when every rule is below it.
   */
  lemma {:induction false} InsertPlacement(rules: seq<DefenseRule>, rule: DefenseRule)
    requires rule.priority.Tier?
    requires forall j :: 0 <= j < |rules| ==> rules[j].priority != rule.priority
    ensures Insert(rules, rule).1 == None
    ensures FirstAtLeast(rules, rule.priority).Some? ==>
      var i := FirstAtLeast(rules, rule.priority).value;
      Insert(rules, rule).0 == rules[..i] + [rule] + rules[i..]
    ensures FirstAtLeast(rules, rule.priority).None? <==>
      (forall j :: 0 <= j < |rules| ==> PriorityLt(rules[j].priority, rule.priority))
    ensures FirstAtLeast(rules, rule.priority).None? ==> Insert(rules, rule).0 == rules + [rule]
  {
    match FirstAtLeast(rules, rule.priority)
    case Some(i) =>
      assert rules[i].priority != rule.priority;
    case None =>
  }

  /**
   * A script-side defense table as the rule reads it. `#collision_only` is read
   * as a Lua truth value, so it is never an error (nil reads as false);
   * `#priority` may be missing or of the wrong type.
   */
  datatype DefenseTable = DefenseTable(id: TableId, collisionOnly: bool, priority: Option<DefensePriority>)

  /** `call_on_replace`: the displaced rule's table is marked replaced and its
      `on_replace_func`, if any, runs. */
  function CallOnReplace(w: World, host: Host, rule: DefenseRule): (r: World)
    ensures r.replacedTables == w.replacedTables + {rule.table}
    ensures r.living == w.living && r.entities == w.entities
    ensures r.fired == w.fired +
      (if host.tableFunction(rule.table, "on_replace_func").Some?
       then [host.tableFunction(rule.table, "on_replace_func").value] else [])
  {
    var w1 := w.(replacedTables := w.replacedTables + {rule.table});
    match host.tableFunction(rule.table, "on_replace_func")
    case Some(cb) => Call(w1, host, cb)
    case None => w1
  }

  /** `DefenseRule::add` on entity `entity` from the script VM `vmIndex`. */
  function Add(w: World, host: Host, vmIndex: nat, table: DefenseTable, entity: EntityId): (r: Result<World>)
    ensures entity !in w.living ==> r == Ok(w)
    ensures entity in w.living ==> (r.Err? <==> table.priority.None?)
    ensures r.Ok? ==> r.value.living.Keys == w.living.Keys
    ensures r.Ok? ==> forall e :: e in w.living && e != entity ==> r.value.living[e] == w.living[e]
  {
    if entity !in w.living then Ok(w)
    else if table.priority.None? then Err(ConversionError("DefensePriority"))
    else
      var rule := DefenseRule(table.collisionOnly, table.priority.value, vmIndex, table.id);
      var living := w.living[entity];
      var (rules, displaced) := Insert(living.defenseRules, rule);
      var w1 := w.(living := w.living[entity := living.(defenseRules := rules)]);
      match displaced
      case Some(previous) => Ok(CallOnReplace(w1, host, previous))
      case None => Ok(w1)
  }

  /** Exactly the displaced rule's table is marked replaced; no other add marks anything. */
  lemma {:induction false} AddMarksOnlyDisplaced(w: World, host: Host, vmIndex: nat, table: DefenseTable, entity: EntityId)
    requires entity in w.living && table.priority.Some?
    ensures var rule := DefenseRule(table.collisionOnly, table.priority.value, vmIndex, table.id);
      var ins := Insert(w.living[entity].defenseRules, rule);
      && Add(w, host, vmIndex, table, entity).Ok?
      && Add(w, host, vmIndex, table, entity).value.living[entity].defenseRules == ins.0
      && Add(w, host, vmIndex, table, entity).value.replacedTables ==
           w.replacedTables + (if ins.1.Some? then {ins.1.value.table} else {})
  {
  }

  function Priorities(rules: seq<DefenseRule>): seq<DefensePriority> {
    if rules == [] then [] else [rules[0].priority] + Priorities(rules[1..])
  }

  /** Adding tiers 3, 1, 2 to an empty chain sorts them and displaces nothing. */
  lemma {:induction false} AddSequenceExample(r3: DefenseRule, r1: DefenseRule, r2: DefenseRule)
    requires r3.priority == Tier(3) && r1.priority == Tier(1) && r2.priority == Tier(2)
    ensures Insert([], r3) == ([r3], None)
    ensures Insert([r3], r1) == ([r1, r3], None)
    ensures Insert([r1, r3], r2) == ([r1, r2, r3], None)
  {
    assert [] + [r3] == [r3];
    InsertBeforeExample(r3, r1);
    InsertBetweenExample(r1, r3, r2);
  }

  lemma {:induction false} InsertBeforeExample(r3: DefenseRule, r1: DefenseRule)
    requires r3.priority == Tier(3) && r1.priority == Tier(1)
    ensures Insert([r3], r1) == ([r1, r3], None)
  {
    assert FirstAtLeast([r3], Tier(1)) == Some(0);
    assert [r3][..0] + [r1] + [r3][0..] == [r1, r3];
  }

  lemma {:induction false} InsertBetweenExample(r1: DefenseRule, r3: DefenseRule, r2: DefenseRule)
    requires r3.priority == Tier(3) && r1.priority == Tier(1) && r2.priority == Tier(2)
    ensures Insert([r1, r3], r2) == ([r1, r2, r3], None)
  {
    assert FirstAtLeast([r1, r3], Tier(2)) == Some(1) by {
      assert [r1, r3][1..] == [r3];
      assert FirstAtLeast([r3], Tier(2)) == Some(0);
    }
    assert [r1, r3][..1] + [r2] + [r1, r3][1..] == [r1, r2, r3];
  }

  /** A second tier-1 rule added to the chain 1, 2, 3 takes the first one's place,
      and the first one is the rule displaced. */
  lemma {:induction false} ReplaceExample(r1: DefenseRule, r2: DefenseRule, r3: DefenseRule, r1': DefenseRule)
    requires r3.priority == Tier(3) && r1.priority == Tier(1) && r2.priority == Tier(2) && r1'.priority == Tier(1)
    ensures Insert([r1, r2, r3], r1') == ([r1', r2, r3], Some(r1))
  {
    assert FirstAtLeast([r1, r2, r3], Tier(1)) == Some(0);
    assert [r1, r2, r3][0 := r1'] == [r1', r2, r3];
  }

  /** `position(|rule| rule.vm_index == vm_index && rule.priority == priority)`. */
  function FirstOwned(rules: seq<DefenseRule>, vmIndex: nat, p: DefensePriority): (r: Option<nat>)
    ensures r.Some? ==> r.value < |rules| && rules[r.value].vmIndex == vmIndex && rules[r.value].priority == p
    ensures r.Some? ==> forall j :: 0 <= j < r.value ==> !(rules[j].vmIndex == vmIndex && rules[j].priority == p)
    ensures r.None? ==> forall j :: 0 <= j < |rules| ==> !(rules[j].vmIndex == vmIndex && rules[j].priority == p)
  {
    if rules == [] then None
    else if rules[0].vmIndex == vmIndex && rules[0].priority == p then Some(0)
    else match FirstOwned(rules[1..], vmIndex, p)
      case Some(i) => Some(i + 1)
      case None => None
  }

  /** The list rewrite of `DefenseRule::remove`. */
  function RemoveFrom(rules: seq<DefenseRule>, vmIndex: nat, p: DefensePriority, table: TableId): (r: seq<DefenseRule>)
    ensures r == rules || (|r| == |rules| - 1 && multiset(r) + multiset{RemovedRule(rules, vmIndex, p)} == multiset(rules))
  {
    match FirstOwned(rules, vmIndex, p)
    case Some(i) =>
      if rules[i].table == table then
        DeleteAt(rules, i);
        rules[..i] + rules[i + 1..]
      else rules
    case None => rules
  }

  /** The rule `remove` would take out: the first one owned by the VM at that priority. */
  function RemovedRule(rules: seq<DefenseRule>, vmIndex: nat, p: DefensePriority): DefenseRule {
    match FirstOwned(rules, vmIndex, p)
    case Some(i) => rules[i]
    case None => DefenseRule(false, p, vmIndex, 0)
  }

  /**
   * `remove` takes out at most one rule: the first rule owned by the VM at that
   * priority, and only when it was made from the given table. Everything before
   * it stays in place and everything after it moves up by one.
   */
  lemma {:induction false} RemoveFromEffect(rules: seq<DefenseRule>, vmIndex: nat, p: DefensePriority, table: TableId)
    returns (r: seq<DefenseRule>, found: Option<nat>)
    ensures r == RemoveFrom(rules, vmIndex, p, table) && found == FirstOwned(rules, vmIndex, p)
    ensures (found.None? || rules[found.value].table != table) ==> r == rules
    ensures found.Some? && rules[found.value].table == table ==>
      |r| == |rules| - 1
      && (forall j :: 0 <= j < found.value ==> r[j] == rules[j])
      && (forall j :: found.value <= j < |r| ==> r[j] == rules[j + 1])
  {
    r, found := RemoveFrom(rules, vmIndex, p, table), FirstOwned(rules, vmIndex, p);
    if found.Some? && rules[found.value].table == table {
      assert r == rules[..found.value] + rules[found.value + 1..];
      DeleteAt(rules, found.value);
    }
  }

  /** Removing a rule keeps the chain a chain. */
  lemma {:induction false} RemoveFromKeepsChain(rules: seq<DefenseRule>, vmIndex: nat, p: DefensePriority, table: TableId)
    requires Chain(rules)
    ensures Chain(RemoveFrom(rules, vmIndex, p, table))
  {
    var r := RemoveFrom(rules, vmIndex, p, table);
    var found := FirstOwned(rules, vmIndex, p);
    if found.Some? && rules[found.value].table == table {
      ChainDelete(rules, found.value);
    }
  }

  lemma {:induction false} ChainDelete(rules: seq<DefenseRule>, i: nat)
    requires Chain(rules) && i < |rules|
    ensures Chain(rules[..i] + rules[i + 1..])
  {
    var r := rules[..i] + rules[i + 1..];
    DeleteAt(rules, i);
    forall a, b | 0 <= a < b < |r|
      ensures PriorityLe(r[a].priority, r[b].priority)
      ensures r[a].priority.Tier? ==> r[a].priority != r[b].priority
    {
      var a' := if a < i then a else a + 1;
      var b' := if b < i then b else b + 1;
      assert r[a] == rules[a'] && r[b] == rules[b'];
    }
  }

  /** `DefenseRule::remove` on entity `entity` from the script VM `vmIndex`. */
  function Remove(w: World, vmIndex: nat, table: DefenseTable, entity: EntityId): (r: Result<World>)
    ensures entity !in w.living ==> r == Ok(w)
    ensures entity in w.living && table.priority.None? ==> r.Err?
    ensures r.Ok? && entity in w.living ==>
      r.value == w.(living := w.living[entity := w.living[entity].(defenseRules :=
        RemoveFrom(w.living[entity].defenseRules, vmIndex, table.priority.value, table.id))])
  {
    if entity !in w.living then Ok(w)
    else if table.priority.None? then Err(ConversionError("DefensePriority"))
    else
      var living := w.living[entity];
      var rules := RemoveFrom(living.defenseRules, vmIndex, table.priority.value, table.id);
      Ok(w.(living := w.living[entity := living.(defenseRules := rules)]))
  }

  /** Removing the rule that was just appended by a fresh tier gives the chain back. */
  lemma {:induction false} AddThenRemove(rules: seq<DefenseRule>, rule: DefenseRule)
    requires Chain(rules) && rule.priority.Tier?
    requires forall j :: 0 <= j < |rules| ==> PriorityLt(rules[j].priority, rule.priority)
    ensures RemoveFrom(Insert(rules, rule).0, rule.vmIndex, rule.priority, rule.table) == rules
  {
    var out := Insert(rules, rule).0;
    assert out == rules + [rule];
    var found := FirstOwned(out, rule.vmIndex, rule.priority);
    assert found == Some(|rules|) by {
      assert forall j :: 0 <= j < |rules| ==> out[j].priority != rule.priority;
    }
    assert out[..|rules|] == rules;
  }

  // ---------------------------------------------------------------- judge

  /** The rules the judge consults for one kind of hit, in chain order. */
  function Consulted(rules: seq<DefenseRule>, collisionOnly: bool): (r: seq<DefenseRule>)
    ensures |r| <= |rules|
    ensures forall x :: x in r <==> x in rules && x.collisionOnly == collisionOnly
  {
    if rules == [] then []
    else
      var rest := Consulted(rules[1..], collisionOnly);
      assert forall x :: x in rules <==> x == rules[0] || x in rules[1..];
      if rules[0].collisionOnly == collisionOnly then [rules[0]] + rest else rest
  }

  /** Selection works rule by rule: the rules of a concatenation are consulted in
      the order of the two parts. */
  lemma {:induction false} ConsultedAppend(a: seq<DefenseRule>, b: seq<DefenseRule>, collisionOnly: bool)
    ensures Consulted(a + b, collisionOnly) == Consulted(a, collisionOnly) + Consulted(b, collisionOnly)
    decreases |a|
  {
    if a != [] {
      assert (a + b)[1..] == a[1..] + b;
      ConsultedAppend(a[1..], b, collisionOnly);
    } else {
      assert a + b == b;
    }
  }

  /** A single rule is consulted exactly when its kind matches the hit. */
  lemma {:induction false} ConsultedSingle(x: DefenseRule, collisionOnly: bool)
    ensures Consulted([x], collisionOnly) == if x.collisionOnly == collisionOnly then [x] else []
  {
    assert [x][1..] == [];
  }

  /** Every rule is consulted for exactly one of the two kinds of hit. */
  lemma {:induction false} ConsultedPartition(rules: seq<DefenseRule>)
    ensures |Consulted(rules, true)| + |Consulted(rules, false)| == |rules|
    ensures multiset(Consulted(rules, true)) + multiset(Consulted(rules, false)) == multiset(rules)
  {
    if rules != [] {
      ConsultedPartition(rules[1..]);
      assert rules == [rules[0]] + rules[1..];
    }
  }

  /** The `can_block_func` callbacks of the consulted rules, in order. */
  function BlockCallbacks(host: Host, rules: seq<DefenseRule>): seq<Callback> {
    if rules == [] then []
    else
      (if host.tableFunction(rules[0].table, "can_block_func").Some?
       then [host.tableFunction(rules[0].table, "can_block_func").value] else [])
      + BlockCallbacks(host, rules[1..])
  }

  /** `DefenseJudge::judge`: each consulted rule's `can_block_func` runs, in chain order. */
  function Judge(w: World, host: Host, rules: seq<DefenseRule>, collisionOnly: bool): (r: World)
    ensures r.fired == w.fired + BlockCallbacks(host, Consulted(rules, collisionOnly))
    ensures r.living == w.living && r.entities == w.entities
  {
    CallAll(w, host, BlockCallbacks(host, Consulted(rules, collisionOnly)))
  }

  // ---------------------------------------------------------------- statuses

  /** What a rule's `filter_statuses_func` does to the hit properties: absent, failed
      (the properties stay as they were), or replaced them. */
  datatype FilterOutcome = NoFilter | Failed | Filtered(props: HitProps)

  function FilterChain(props: HitProps, rules: seq<DefenseRule>, filter: (TableId, HitProps) -> FilterOutcome): HitProps
    decreases |rules|
  {
    if rules == [] then props
    else
      var next := match filter(rules[0].table, props)
        case Filtered(p) => p
        case _ => props;
      FilterChain(next, rules[1..], filter)
  }

  /** `DefenseJudge::filter_statuses`: every rule may rewrite the properties in turn;
      `NO_COUNTER` as it was on entry is then put back. */
  function FilterStatuses(props: HitProps, rules: seq<DefenseRule>, filter: (TableId, HitProps) -> FilterOutcome): (r: HitProps)
    ensures props.flags & NO_COUNTER != 0 ==> r.flags & NO_COUNTER != 0
    ensures r.flags & !NO_COUNTER == FilterChain(props, rules, filter).flags & !NO_COUNTER
    ensures r == FilterChain(props, rules, filter).(flags := r.flags)
  {
    var chained := FilterChain(props, rules, filter);
    chained.(flags := chained.flags | (props.flags & NO_COUNTER))
  }

  /** Rules can set `NO_COUNTER` but never clear it: the result carries it iff it was
      set on entry or by the rules. */
  lemma {:induction false} NoCounterOnlyGrows(props: HitProps, rules: seq<DefenseRule>, filter: (TableId, HitProps) -> FilterOutcome)
    ensures FilterStatuses(props, rules, filter).flags & NO_COUNTER != 0 <==>
      (props.flags & NO_COUNTER != 0 || FilterChain(props, rules, filter).flags & NO_COUNTER != 0)
  {
  }

  /** With no rule that filters, the chain hands the properties through unchanged. */
  lemma {:induction false} NoFilterIsIdentity(props: HitProps, rules: seq<DefenseRule>, filter: (TableId, HitProps) -> FilterOutcome)
    requires forall j :: 0 <= j < |rules| ==> !filter(rules[j].table, props).Filtered?
    ensures FilterChain(props, rules, filter) == props
    decreases |rules|
  {
    if rules != [] {
      assert !filter(rules[0].table, props).Filtered?;
      NoFilterIsIdentity(props, rules[1..], filter);
    }
  }

  /** With no rule that filters, `filter_statuses` changes nothing. */
  lemma {:induction false} NoFilterNoChange(props: HitProps, rules: seq<DefenseRule>, filter: (TableId, HitProps) -> FilterOutcome)
    requires forall j :: 0 <= j < |rules| ==> !filter(rules[j].table, props).Filtered?
    ensures FilterStatuses(props, rules, filter) == props
  {
    NoFilterIsIdentity(props, rules, filter);
    OrOwnBits(props.flags);
  }

  lemma {:induction false} OrOwnBits(f: HitFlags)
    ensures f | (f & NO_COUNTER) == f
  {
  }
}
