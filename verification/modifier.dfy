/**
 * A passive effect attached to a character (src/lib/gameLogic/abilities/Modifier.ts).
 *
 * The source stores the effect as a closure `(context, character) => void`. Every
 * closure the repository creates is one of the constructors of `Effect` below; the
 * closures built by ability executors capture the context the ability was used
 * with, which the constructors carry as `captured`. The interpreter of `Effect`
 * is `Characters.ApplyEffect`, because some effects call back into the character's
 * damage and heal pipeline.
 */
module Modifiers {
  import opened Wrappers
  import opened Types

  datatype Effect =
    // --- hat effects (src/lib/gameLogic/hatDefinitions.ts) ---
      /** ATTACK: damage doubles. */
    | DoubleAttack
      /** Any context: health := min(maxHealth, health + amount). */
    | HealSelf(amount: int)
      /** DAMAGE: damage := max(0, damage - amount). */
    | ReduceDamage(amount: int)
      /** ATTACK at full health: damage += bonus. */
    | BonusAtFullHealth(bonus: int)
      /** ATTACK at or below half health: damage doubles. */
    | DoubleWhenLow
      /** HEAL: amount += bonus. */
    | BoostHeal(bonus: int)
      /** ATTACK: damage += bonus, then health := min(maxHealth, health + amount). */
    | BonusAndHeal(bonus: int, amount: int)
      /** ATTACK: damage += bonus. */
    | BonusDamage(bonus: int)
      /** ATTACK: health := min(maxHealth, health + amount). */
    | HealOnAttack(amount: int)
    // --- ability executor effects (src/lib/gameLogic/abilities/abilityDefinitions.ts) ---
      /** basic_attack: the character takes the captured ATTACK damage. */
    | Strike(captured: Context)
      /** power_attack: the character takes floor(1.5 * captured damage). */
    | PowerStrike(captured: Context)
      /** heal: the character heals floor(1.2 * captured amount). */
    | HealBy(captured: Context)
      /** buff_attack: attack += (captured value || 10). */
    | RaiseAttack(captured: Context)
      /** debuff_attack: attack := max(0, attack - (captured value || 5)). */
    | LowerAttack(captured: Context)
      /** shield: maxHealth and health both grow by (captured value || 5). */
    | Shield(captured: Context)
      /** poison: the character takes floor((captured value || 5) / 2). */
    | Poison(captured: Context)
      /** light_up's burn: the effect does nothing; the engine handles burn stacks. */
    | NoEffect

  /**
   * Effects whose application calls the character's own `takeDamage` or `heal`,
   * and so re-enters the modifier pipeline.
   */
  predicate Reenters(e: Effect) {
    match e
    case Strike(c) => c.AttackCtx?
    case PowerStrike(c) => c.AttackCtx?
    case HealBy(c) => c.HealCtx?
    case Poison(c) => c.DebuffCtx?
    case _ => false
  }

  datatype Modifier = Modifier(
    id: string,
    name: string,
    description: string,
    modifierType: ModifierType,
    trigger: Trigger,
    effect: Effect,
    duration: Option<int>,
    stacks: int)

  /** The constructor: `stacks` is 1 unless an initial count is supplied. */
  function NewModifier(id: string, name: string, description: string, modifierType: ModifierType,
                       trigger: Trigger, effect: Effect, duration: Option<int>,
                       initialStacks: Option<int>): (m: Modifier)
    ensures initialStacks.None? ==> m.stacks == 1
    ensures initialStacks.Some? ==> m.stacks == initialStacks.value
    ensures m.id == id && m.name == name && m.description == description
    ensures m.modifierType == modifierType && m.trigger == trigger
    ensures m.effect == effect && m.duration == duration
  {
    var stacks := if initialStacks.Some? then initialStacks.value else 1;
    Modifier(id, name, description, modifierType, trigger, effect, duration, stacks)
  }

  /**
   * `shouldTrigger`: a one-time modifier never fires, a permanent one never fires,
   * and otherwise only the TURN_START, TURN_END, DAMAGE and HEAL triggers fire, on a
   * context of the same tag. There is no branch for ATTACK, BUFF, DEBUFF or
   * `on_modifier_added`.
   */
  predicate ShouldTrigger(m: Modifier, ctx: Context): (r: bool)
    ensures r <==>
              && m.modifierType == OnTrigger
              && m.trigger.OnContext?
              && (m.trigger.kind == TurnStart || m.trigger.kind == TurnEnd
                  || m.trigger.kind == Damage || m.trigger.kind == Heal)
              && m.trigger.kind == ctx.Kind()
  {
    if m.modifierType.OneTime? then false
    else if m.trigger == Permanent then false
    else if m.trigger == OnContext(TurnStart) && ctx.TurnStartCtx? then true
    else if m.trigger == OnContext(TurnEnd) && ctx.TurnEndCtx? then true
    else if m.trigger == OnContext(Damage) && ctx.DamageCtx? then true
    else if m.trigger == OnContext(Heal) && ctx.HealCtx? then true
    else false
  }

  /** `shouldTriggerOnModifierAdded`. */
  predicate ShouldTriggerOnModifierAdded(m: Modifier)
    ensures ShouldTriggerOnModifierAdded(m) ==> forall ctx :: !ShouldTrigger(m, ctx)
  {
    if m.modifierType == OneTime then false
    else m.trigger == OnModifierAdded
  }

  /** The three facts a caller relies on about which modifiers can fire at all. */
  lemma {:induction false} TriggerDiscipline(m: Modifier, ctx: Context)
    ensures m.modifierType == OneTime ==> !ShouldTrigger(m, ctx) && !ShouldTriggerOnModifierAdded(m)
    ensures (m.trigger in {Permanent, OnModifierAdded, OnContext(Attack), OnContext(Buff), OnContext(Debuff)})
              ==> !ShouldTrigger(m, ctx)
    ensures ShouldTriggerOnModifierAdded(m) <==> m.modifierType == OnTrigger && m.trigger == OnModifierAdded
  {
  }

  /** `startsWith('burn_')`: the reserved prefix of stackable damage-over-time modifiers. */
  predicate IsBurnId(id: string) {
    |id| >= 5 && id[..5] == "burn_"
  }

  /** Whether an id is a burn id is decided by a prefix of at least five characters. */
  lemma BurnIdOfPrefix(p: string, s: string)
    requires |p| >= 5
    ensures IsBurnId(p + s) <==> IsBurnId(p)
  {
    assert (p + s)[..5] == p[..5];
  }

  /** An id whose first character is not `b` is not a burn id. */
  lemma NotBurnIdByFirstChar(id: string)
    requires |id| > 0 && id[0] != 'b'
    ensures !IsBurnId(id)
  {
    if |id| >= 5 {
      assert id[..5][0] == id[0];
      assert ("burn_")[0] == 'b';
    }
  }
}
