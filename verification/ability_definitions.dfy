/**
 * The static ability registry (src/lib/gameLogic/abilities/abilityDefinitions.ts):
 * the definition table, the executors that turn a context into a modifier, and
 * the two lookups.
 */
module AbilityDefinitions {
  import opened Wrappers
  import opened Types
  import opened Modifiers

  /** A JSON-serialisable ability definition. */
  datatype AbilityDefinition = AbilityDefinition(
    id: string,
    name: string,
    description: string,
    contextType: ContextType,
    cooldown: Option<int>)

  /** The definition table, in source order. */
  const Definitions: seq<AbilityDefinition> := [
    AbilityDefinition("basic_attack", "Basic Attack",
      "A simple attack dealing damage based on attack stat", Attack, Some(0)),
    AbilityDefinition("heal", "Heal", "Restores health to an ally", Heal, Some(3)),
    AbilityDefinition("power_attack", "Power Attack",
      "A powerful attack with increased damage", Attack, Some(2)),
    AbilityDefinition("buff_attack", "Attack Buff", "Increases attack stat", Buff, Some(4)),
    AbilityDefinition("debuff_attack", "Weaken", "Reduces enemy attack stat", Debuff, Some(3)),
    AbilityDefinition("shield", "Shield", "Increases max health", Buff, Some(4)),
    AbilityDefinition("poison", "Poison", "Deals damage over time to enemy", Debuff, Some(3)),
    AbilityDefinition("light_up", "Light Up",
      "Burns the enemy, applying 5 burn stacks", Debuff, Some(3))
  ]

  /** The entries of the executor registry `abilityExecutors`. */
  datatype Executor =
    | BasicAttackExec | HealExec | PowerAttackExec | BuffAttackExec
    | DebuffAttackExec | ShieldExec | PoisonExec | LightUpExec

  /** The registry key of an executor. */
  function ExecutorKey(x: Executor): string {
    match x
    case BasicAttackExec => "basic_attack"
    case HealExec => "heal"
    case PowerAttackExec => "power_attack"
    case BuffAttackExec => "buff_attack"
    case DebuffAttackExec => "debuff_attack"
    case ShieldExec => "shield"
    case PoisonExec => "poison"
    case LightUpExec => "light_up"
  }

  /** `getAbilityExecutor`: the registry lookup by id. */
  function GetAbilityExecutor(id: string): (r: Option<Executor>)
    ensures r.Some? ==> ExecutorKey(r.value) == id
    ensures forall x: Executor :: ExecutorKey(x) == id ==> r == Some(x)
  {
    if id == "basic_attack" then Some(BasicAttackExec)
    else if id == "heal" then Some(HealExec)
    else if id == "power_attack" then Some(PowerAttackExec)
    else if id == "buff_attack" then Some(BuffAttackExec)
    else if id == "debuff_attack" then Some(DebuffAttackExec)
    else if id == "shield" then Some(ShieldExec)
    else if id == "poison" then Some(PoisonExec)
    else if id == "light_up" then Some(LightUpExec)
    else None
  }

  /**
   * Runs an executor on the context the ability was used with. `stamp` stands for
   * the `Date.now()` suffix that makes the ids of non-stacking modifiers fresh.
   */
  function Execute(x: Executor, ctx: Context, stamp: string): (m: Modifier)
    ensures x != LightUpExec ==> m.id == ExecutorKey(x) + "_" + stamp && m.stacks == 1
    ensures x == LightUpExec ==>
              m.id == "burn_light_up" && m.stacks == 5 && m.duration == None
              && m.modifierType == OnTrigger && m.trigger == OnContext(TurnEnd) && m.effect == NoEffect
    ensures IsBurnId(m.id) <==> x == LightUpExec
    ensures x in {BasicAttackExec, HealExec, PowerAttackExec} <==> m.modifierType == OneTime
    ensures x in {BuffAttackExec, DebuffAttackExec, ShieldExec} <==> m.trigger == Permanent
    ensures m.trigger != OnModifierAdded
    ensures x == BasicAttackExec ==> m.effect == Strike(ctx) && m.trigger == OnContext(Damage) && m.duration == None
    ensures x == HealExec ==> m.effect == HealBy(ctx) && m.trigger == OnContext(Heal) && m.duration == None
    ensures x == PowerAttackExec ==> m.effect == PowerStrike(ctx) && m.trigger == OnContext(Damage) && m.duration == None
    ensures x == BuffAttackExec ==> m.effect == RaiseAttack(ctx) && m.duration == Some(3)
    ensures x == DebuffAttackExec ==> m.effect == LowerAttack(ctx) && m.duration == Some(2)
    ensures x == ShieldExec ==> m.effect == Shield(ctx) && m.duration == Some(3)
    ensures x == PoisonExec ==>
              m.effect == Poison(ctx) && m.modifierType == OnTrigger && m.trigger == OnContext(Damage) && m.duration == Some(3)
  {
    BurnIdOfPrefix(ExecutorKey(x) + "_", stamp);
    KeyIsNotBurnId(x);
    // every id but light_up's is the executor's key, an underscore and the stamp
    var id := ExecutorKey(x) + "_" + stamp;
    match x
    case BasicAttackExec =>
      NewModifier(id, "Basic Attack", "Deals damage", OneTime,
                  OnContext(Damage), Strike(ctx), None, None)
    case HealExec =>
      NewModifier(id, "Heal", "Restores health", OneTime,
                  OnContext(Heal), HealBy(ctx), None, None)
    case PowerAttackExec =>
      NewModifier(id, "Power Attack", "Deals increased damage", OneTime,
                  OnContext(Damage), PowerStrike(ctx), None, None)
    case BuffAttackExec =>
      NewModifier(id, "Attack Buff", "Increases attack stat", OnTrigger,
                  Permanent, RaiseAttack(ctx), Some(3), None)
    case DebuffAttackExec =>
      NewModifier(id, "Weaken", "Reduces attack stat", OnTrigger,
                  Permanent, LowerAttack(ctx), Some(2), None)
    case ShieldExec =>
      NewModifier(id, "Shield", "Increases max health", OnTrigger,
                  Permanent, Shield(ctx), Some(3), None)
    case PoisonExec =>
      NewModifier(id, "Poison", "Deals damage over time", OnTrigger,
                  OnContext(Damage), Poison(ctx), Some(3), None)
    case LightUpExec =>
      NewModifier("burn_light_up", "Burn", "Deals 1 damage per stack at end of turn", OnTrigger,
                  OnContext(TurnEnd), NoEffect, None, Some(5))
  }

  /** No registry key other than light_up's output id starts with the burn prefix. */
  lemma KeyIsNotBurnId(x: Executor)
    ensures x != LightUpExec ==> !IsBurnId(ExecutorKey(x) + "_")
  {
    if x == LightUpExec { return; }
    var p := ExecutorKey(x) + "_";
    var burn := "burn_";
    assert burn[0] == 'b' && burn[1] == 'u' && burn[2] == 'r';
    assert p[0] != 'b' || p[1] != 'u' || p[2] != 'r';
  }

  /** `getAbilityDefinition`: the first definition with that id, or nothing. */
  function GetAbilityDefinition(id: string): (r: Option<AbilityDefinition>)
    ensures r.Some? ==> r.value in Definitions && r.value.id == id
    ensures r.None? <==> forall d :: d in Definitions ==> d.id != id
  {
    var k := FindIndex(Definitions, (d: AbilityDefinition) => d.id, id);
    if k.Some? then Some(Definitions[k.value]) else None
  }

  /** Every definition in the table has an executor, keyed by the same id. */
  lemma EveryDefinitionHasExecutor()
    ensures forall d :: d in Definitions ==> GetAbilityExecutor(d.id).Some?
  {
  }

  /** The ids in the table are pairwise distinct. */
  lemma DefinitionIdsDistinct()
    ensures forall i, j :: 0 <= i < j < |Definitions| ==> Definitions[i].id != Definitions[j].id
  {
    forall i, j | 0 <= i < j < |Definitions|
      ensures Definitions[i].id != Definitions[j].id
    {
      var a, b := Definitions[i].id, Definitions[j].id;
      assert |a| != |b| || a[0] != b[0];
    }
  }

  /** Looking up the id of a table entry yields that entry. */
  lemma {:induction false} LookupTableEntry(i: nat)
    requires i < |Definitions|
    ensures GetAbilityDefinition(Definitions[i].id) == Some(Definitions[i])
  {
    DefinitionIdsDistinct();
  }

  /** The cooldowns of the table. */
  lemma DefinitionCooldowns()
    ensures GetAbilityDefinition("basic_attack").Some? && GetAbilityDefinition("basic_attack").value.cooldown == Some(0)
    ensures GetAbilityDefinition("heal").Some? && GetAbilityDefinition("heal").value.cooldown == Some(3)
    ensures GetAbilityDefinition("power_attack").Some? && GetAbilityDefinition("power_attack").value.cooldown == Some(2)
    ensures GetAbilityDefinition("buff_attack").Some? && GetAbilityDefinition("buff_attack").value.cooldown == Some(4)
    ensures GetAbilityDefinition("debuff_attack").Some? && GetAbilityDefinition("debuff_attack").value.cooldown == Some(3)
    ensures GetAbilityDefinition("shield").Some? && GetAbilityDefinition("shield").value.cooldown == Some(4)
    ensures GetAbilityDefinition("poison").Some? && GetAbilityDefinition("poison").value.cooldown == Some(3)
    ensures GetAbilityDefinition("light_up").Some? && GetAbilityDefinition("light_up").value.cooldown == Some(3)
  {
    LookupTableEntry(0);
    LookupTableEntry(1);
    LookupTableEntry(2);
    LookupTableEntry(3);
    LookupTableEntry(4);
    LookupTableEntry(5);
    LookupTableEntry(6);
    LookupTableEntry(7);
  }
}
