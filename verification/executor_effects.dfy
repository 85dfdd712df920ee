/**
 * What the modifier each executor of src/lib/gameLogic/abilities/abilityDefinitions.ts
 * builds does once applied to the character it lands on, whatever the context
 * it is applied with: the damage, heal and stat changes the executors promise.
 */
module ExecutorEffects {
  import opened Wrappers
  import opened Types
  import opened Modifiers
  import opened AbilityDefinitions
  import opened Characters

  /**
   * basic_attack: the holder takes the ATTACK context's damage, with the ATTACK
   * context's target id as the damage source, floored at zero when nothing reacts to it.
   */
  lemma BasicAttackDealsDamage(target: string, d: int, stamp: string, any: Context, ch: Character)
    requires Quiet(ch.modifiers, DamageCtx(ch.id, d, target))
    ensures Apply(Execute(BasicAttackExec, AttackCtx(target, d), stamp), any, ch)
            == Ok(Processed(WithHealth(ch, Max(0, ch.stats.health - d)), any))
  {
  }

  /** power_attack: the target takes one and a half times the damage, rounded down. */
  lemma PowerAttackDealsMore(target: string, d: int, stamp: string, any: Context, ch: Character)
    requires Quiet(ch.modifiers, DamageCtx(ch.id, (3 * d) / 2, target))
    ensures Apply(Execute(PowerAttackExec, AttackCtx(target, d), stamp), any, ch)
            == Ok(Processed(WithHealth(ch, Max(0, ch.stats.health - (3 * d) / 2)), any))
  {
  }

  /** heal: the character heals six fifths of the HEAL context's amount, rounded down, capped at its maximum. */
  lemma HealRestoresMore(target: string, a: int, stamp: string, any: Context, ch: Character)
    requires Quiet(ch.modifiers, HealCtx(ch.id, (6 * a) / 5))
    ensures Apply(Execute(HealExec, HealCtx(target, a), stamp), any, ch)
            == Ok(Processed(WithHealth(ch, Min(ch.stats.maxHealth, ch.stats.health + (6 * a) / 5)), any))
  {
  }

  /** buff_attack: attack rises by the BUFF context's value, 10 when that is zero. */
  lemma BuffRaisesAttack(target: string, stat: StatName, v: int, dur: Option<int>, stamp: string, any: Context, ch: Character)
    ensures Apply(Execute(BuffAttackExec, BuffCtx(target, stat, v, dur), stamp), any, ch)
            == Ok(Processed(ch.(stats := ch.stats.(attack := ch.stats.attack + OrDefault(v, 10))), any))
  {
  }

  /** debuff_attack: attack falls by the DEBUFF context's value, 5 when that is zero, and not below zero. */
  lemma DebuffLowersAttack(target: string, stat: StatName, v: int, dur: Option<int>, stamp: string, any: Context, ch: Character)
    ensures Apply(Execute(DebuffAttackExec, DebuffCtx(target, stat, v, dur), stamp), any, ch)
            == Ok(Processed(ch.(stats := ch.stats.(attack := Max(0, ch.stats.attack - OrDefault(v, 5)))), any))
  {
  }

  /** shield: maximum and current health both rise by the BUFF context's value, 5 when that is zero. */
  lemma ShieldRaisesHealth(target: string, stat: StatName, v: int, dur: Option<int>, stamp: string, any: Context, ch: Character)
    ensures Apply(Execute(ShieldExec, BuffCtx(target, stat, v, dur), stamp), any, ch)
            == Ok(Processed(ch.(stats := ch.stats.(maxHealth := ch.stats.maxHealth + OrDefault(v, 5),
                                                   health := ch.stats.health + OrDefault(v, 5))), any))
  {
  }

  /** poison: the character takes half the DEBUFF context's value, 5 when that is zero, rounded down. */
  lemma PoisonDealsHalf(target: string, stat: StatName, v: int, dur: Option<int>, stamp: string, any: Context, ch: Character)
    requires Quiet(ch.modifiers, DamageCtx(ch.id, OrDefault(v, 5) / 2, target))
    ensures Apply(Execute(PoisonExec, DebuffCtx(target, stat, v, dur), stamp), any, ch)
            == Ok(Processed(WithHealth(ch, Max(0, ch.stats.health - OrDefault(v, 5) / 2)), any))
  {
  }

  /** light_up: the burn modifier itself does nothing when applied; the burn step deals its damage. */
  lemma LightUpDoesNothing(ctx: Context, stamp: string, any: Context, ch: Character)
    ensures Apply(Execute(LightUpExec, ctx, stamp), any, ch) == Ok(Processed(ch, any))
  {
  }
}
