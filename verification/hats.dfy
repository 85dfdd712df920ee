/**
 * The equipment registry: sixteen hats, each a trigger modifier with a small
 * integer rule (src/lib/gameLogic/hatDefinitions.ts).
 */
module Hats {
  import opened Wrappers
  import opened Types
  import opened Modifiers
  import opened Characters

  datatype HatDefinition = HatDefinition(modifier: Modifier, description: string)

  /** Hat modifier ids share the prefix `hat_`. */
  predicate IsHatId(id: string) {
    |id| >= 4 && id[..4] == "hat_"
  }

  /** A hat: an `on_trigger` modifier with id `hat_<key>`, no duration and one stack. */
  function Hat(key: string, name: string, description: string, on: ContextType, effect: Effect): (d: HatDefinition)
    ensures IsHatId(d.modifier.id) && !IsBurnId(d.modifier.id)
    ensures d.modifier.modifierType == OnTrigger && d.modifier.trigger == OnContext(on)
    ensures d.modifier.effect == effect && d.modifier.stacks == 1 && d.modifier.duration == None
    ensures d.description == description
  {
    var id := "hat_" + key;
    assert id[..4] == "hat_";
    assert id[0] == 'h';
    NotBurnIdByFirstChar(id);
    HatDefinition(NewModifier(id, name, description, OnTrigger, OnContext(on), effect, None, None), description)
  }

  /** A registry entry: a hat modifier that fires on one context kind and never re-enters the pipeline. */
  predicate WellShaped(d: HatDefinition) {
    && IsHatId(d.modifier.id) && !IsBurnId(d.modifier.id)
    && d.modifier.modifierType == OnTrigger && d.modifier.trigger.OnContext?
    && d.modifier.stacks == 1 && !Reenters(d.modifier.effect)
  }

  /** One row of `hatDefinitions`: key, display name, description, trigger kind and effect. */
  datatype HatRow = HatRow(key: string, name: string, description: string, on: ContextType, effect: Effect)

  /** The rule of each row of `hatDefinitions`: the trigger kind and the effect; no row outside 1..16. */
  function HatRule(hatId: int): (r: Option<(ContextType, Effect)>)
    ensures r.Some? <==> 1 <= hatId <= 16
    ensures r.Some? ==> !Reenters(r.value.1)
  {
    match hatId
      case 1 => Some((Attack, DoubleAttack))
      case 2 => Some((Damage, HealSelf(2)))
      case 3 => Some((Damage, ReduceDamage(2)))
      case 4 => Some((TurnStart, HealSelf(2)))
      case 5 => Some((Attack, BonusAtFullHealth(5)))
      case 6 => Some((Attack, DoubleWhenLow))
      case 7 => Some((TurnEnd, HealSelf(1)))
      case 8 => Some((Heal, BoostHeal(3)))
      case 9 => Some((Damage, HealSelf(1)))
      case 10 => Some((Damage, ReduceDamage(1)))
      case 11 => Some((Attack, BonusAndHeal(2, 1)))
      case 12 => Some((Damage, ReduceDamage(3)))
      case 13 => Some((Attack, BonusDamage(3)))
      case 14 => Some((Damage, ReduceDamage(5)))
      case 15 => Some((TurnStart, HealSelf(4)))
      case 16 => Some((Attack, HealOnAttack(2)))
      case _ => None
  }

  /** The text of each row of `hatDefinitions`: key, display name and description. */
  function HatText(hatId: int): (string, string, string) {
    match hatId
      case 1 => ("wizard", "Wizard Hat", "+3 Attack + Double Damage")
      case 2 => ("tophat", "Top Hat", "+5 Attack + Heal 2 when hit")
      case 3 => ("cowboy", "Cowboy Hat", "+2 Attack, +10 Max Health + -2 Damage taken")
      case 4 => ("blue_baseball", "Blue Baseball Hat", "+20 Max Health + Heal 2 at turn start")
      case 5 => ("red_baseball", "Red Baseball Hat", "+20 Max Health + +5 Damage when full health")
      case 6 => ("bunny_ears", "Bunny Ears", "+2 Attack + Double Damage below 50% HP")
      case 7 => ("propeller", "Propeller Hat", "+3 Attack + Heal 1 at turn end")
      case 8 => ("pink_bow", "Pretty Pink Bow", "+15 Max Health + +3 extra healing")
      case 9 => ("puke_penguin", "Puke Penguin Hat", "+25 Max Health + Heal 1 when hit")
      case 10 => ("blue_penguin", "Blue Penguin Hat", "+25 Max Health + -1 Damage taken")
      case 11 => ("christmas", "Christmas Hat", "+2 Attack, +10 Max Health + +2 Damage + Heal 1 on attack")
      case 12 => ("dove", "Dove Hat", "+3 Attack + -3 Damage taken")
      case 13 => ("small_red_bird", "Small Red Bird", "+2 Attack + +3 Damage")
      case 14 => ("hard_hat", "Hard Hat", "+30 Max Health + -5 Damage taken")
      case 15 => ("leprechaun", "Leprechaun Hat", "+4 Attack + Heal 4 at turn start")
      case 16 => ("dude", "Dude Hat", "+3 Attack, +15 Max Health + Heal 2 on attack")
      case _ => ("", "", "")
  }

  /** One row of `hatDefinitions`, for the ids 1..16. */
  function HatRowOf(hatId: int): (r: Option<HatRow>)
    ensures r.Some? <==> 1 <= hatId <= 16
    ensures r.Some? ==> !Reenters(r.value.effect)
  {
    match HatRule(hatId)
    case None => None
    case Some((on, effect)) =>
      var (key, name, description) := HatText(hatId);
      Some(HatRow(key, name, description, on, effect))
  }

  /** `getHatDefinition(hatId)`: the lookup in `hatDefinitions`, undefined outside ids 1..16. */
  function GetHatDefinition(hatId: int): (r: Option<HatDefinition>)
    ensures r.Some? <==> 1 <= hatId <= 16
    ensures r.Some? ==> WellShaped(r.value)
  {
    match HatRowOf(hatId)
    case None => None
    case Some(row) => Some(Hat(row.key, row.name, row.description, row.on, row.effect))
  }

  /** The effect of hat `hatId`, for the hats that have one. */
  function HatEffect(hatId: int): (e: Effect)
    requires 1 <= hatId <= 16
  {
    GetHatDefinition(hatId).value.modifier.effect
  }

  /**
   * Hats are not burn modifiers, so equipping the same hat again appends a
   * second entry instead of stacking.
   */
  lemma ReaddingHatDuplicates(ch: Character, hatId: int)
    requires 1 <= hatId <= 16
    ensures var m := GetHatDefinition(hatId).value.modifier;
            AddModifier(AddModifier(ch, m), m).modifiers == ch.modifiers + [m, m]
  {
    var m := GetHatDefinition(hatId).value.modifier;
    assert (ch.modifiers + [m]) + [m] == ch.modifiers + [m, m];
  }

  /** The ATTACK-triggered hats never fire through `shouldTrigger`, on any context. */
  lemma AttackHatsAreInert(hatId: int, ctx: Context)
    requires hatId in {1, 5, 6, 11, 13, 16}
    ensures GetHatDefinition(hatId).Some?
    ensures GetHatDefinition(hatId).value.modifier.trigger == OnContext(Attack)
    ensures !ShouldTrigger(GetHatDefinition(hatId).value.modifier, ctx)
  {
  }

  /**
   * The damage-reduction hats (cowboy 2, blue penguin 1, dove 3, hard hat 5)
   * lower a DAMAGE context's damage by their amount, never below zero, and touch
   * nothing else.
   */
  lemma DamageReductionHats(hatId: int, k: int, ch: Character, ctx: Context)
    requires (hatId, k) in {(3, 2), (10, 1), (12, 3), (14, 5)}
    requires ctx.DamageCtx?
    ensures GetHatDefinition(hatId).Some? && HatEffect(hatId) == ReduceDamage(k)
    ensures var r := Apply(GetHatDefinition(hatId).value.modifier, ctx, ch);
            && r.Ok? && r.value.ch == ch
            && r.value.ctx == DamageCtx(ctx.target, Max(0, ctx.damage - k), ctx.source)
            && r.value.ctx.damage >= 0
  {
  }

  /**
   * A character wearing only a damage-reduction hat of strength k loses
   * max(0, amount - k) health, floored at zero: a 5-point hit with the cowboy
   * hat costs exactly 3.
   */
  lemma DamageThroughReductionHat(hatId: int, k: int, ch: Character, amount: int, source: string)
    requires (hatId, k) in {(3, 2), (10, 1), (12, 3), (14, 5)}
    requires ch.modifiers == [GetHatDefinition(hatId).value.modifier]
    ensures TakeDamage(ch, amount, source) == Ok(WithHealth(ch, Max(0, ch.stats.health - Max(0, amount - k))))
  {
    var m := GetHatDefinition(hatId).value.modifier;
    var ctx := DamageCtx(ch.id, amount, source);
    DamageReductionHats(hatId, k, ch, ctx);
    assert ShouldTrigger(m, ctx);
    SoleModifierFires(m, ch, ctx);
    TakeDamageCommitsRewrittenDamage(ch, amount, source);
  }

  /**
   * The self-healing hats (top hat 2, blue baseball 2, propeller 1, puke penguin 1,
   * leprechaun 4) raise health by their amount but never above maxHealth, and
   * leave the context alone.
   */
  lemma SelfHealHats(hatId: int, k: int, ch: Character, ctx: Context)
    requires (hatId, k) in {(2, 2), (4, 2), (7, 1), (9, 1), (15, 4)}
    ensures GetHatDefinition(hatId).Some? && HatEffect(hatId) == HealSelf(k)
    ensures var r := Apply(GetHatDefinition(hatId).value.modifier, ctx, ch);
            && r.Ok? && r.value.ctx == ctx
            && r.value.ch == WithHealth(ch, Min(ch.stats.maxHealth, ch.stats.health + k))
            && r.value.ch.stats.health <= ch.stats.maxHealth
            && (ch.stats.health <= ch.stats.maxHealth ==> r.value.ch.stats.health >= ch.stats.health)
  {
  }

  /** The pink bow adds 3 to a HEAL amount and changes nothing else; other contexts pass untouched. */
  lemma PinkBowBoostsHeal(ch: Character, ctx: Context)
    ensures GetHatDefinition(8).Some?
    ensures var r := Apply(GetHatDefinition(8).value.modifier, ctx, ch);
            && r.Ok? && r.value.ch == ch
            && r.value.ctx == (if ctx.HealCtx? then ctx.(amount := ctx.amount + 3) else ctx)
  {
  }

  /** A character wearing only the pink bow heals 3 more than asked, still capped at maxHealth. */
  lemma HealThroughPinkBow(ch: Character, amount: int)
    requires ch.modifiers == [GetHatDefinition(8).value.modifier]
    ensures Characters.Heal(ch, amount) == Ok(WithHealth(ch, Min(ch.stats.maxHealth, ch.stats.health + amount + 3)))
  {
    var m := GetHatDefinition(8).value.modifier;
    var ctx := HealCtx(ch.id, amount);
    assert ShouldTrigger(m, ctx);
    assert RunModifiers([m], ch, ctx, CallDepth) == Ok(Processed(ch, HealCtx(ch.id, amount + 3))) by {
      assert [m][1..] == [];
    }
  }

  /** The wizard hat's effect doubles ATTACK damage. */
  lemma WizardDoublesAttack(ch: Character, target: string, damage: int)
    ensures GetHatDefinition(1).Some?
    ensures Apply(GetHatDefinition(1).value.modifier, AttackCtx(target, damage), ch)
              == Ok(Processed(ch, AttackCtx(target, 2 * damage)))
  {
  }

  /** The bunny ears double ATTACK damage exactly when health is at most half of maxHealth (rounded down). */
  lemma BunnyEarsDoubleWhenLow(ch: Character, target: string, damage: int)
    ensures GetHatDefinition(6).Some?
    ensures var r := Apply(GetHatDefinition(6).value.modifier, AttackCtx(target, damage), ch);
            && r.Ok? && r.value.ch == ch
            && r.value.ctx.damage == (if ch.stats.health <= ch.stats.maxHealth / 2 then 2 * damage else damage)
  {
  }

  /** The red baseball hat adds 5 to ATTACK damage only at full health. */
  lemma RedBaseballAtFullHealth(ch: Character, target: string, damage: int)
    ensures GetHatDefinition(5).Some?
    ensures var r := Apply(GetHatDefinition(5).value.modifier, AttackCtx(target, damage), ch);
            && r.Ok? && r.value.ch == ch
            && r.value.ctx.damage == (if ch.stats.health >= ch.stats.maxHealth then damage + 5 else damage)
  {
  }
}
