/**
 * An actor holding stats, abilities and modifiers, and the damage and heal
 * pipeline through which its modifiers rewrite incoming events
 * (src/lib/gameLogic/characters/Character.svelte.ts).
 *
 * The source mutates a shared object; here every operation returns the new
 * character. Modifier effects are interpreted by `ApplyEffect`. Some effects call
 * the character's own `takeDamage` or `heal` (the source's `character.takeDamage`
 * inside an effect closure), so `ApplyEffect`, `RunModifiers`, `TakeDamageAt` and
 * `HealAt` are mutually recursive. Such re-entry can go on forever in the source
 * (a DAMAGE-triggered poison modifier calls `takeDamage`, which fires it again),
 * where the JavaScript engine eventually throws on its exhausted call stack. The
 * `depth` parameter is that stack: it bounds the nesting of re-entrant calls and
 * its exhaustion yields `Err(CallStackExceeded)`.
 */
module Characters {
  import opened Wrappers
  import opened Types
  import opened Modifiers
  import opened AbilityDefinitions
  import opened Abilities

  datatype Character = Character(
    id: string,
    name: string,
    stats: Stats,
    modifiers: seq<Modifier>,
    abilities: seq<Ability>)

  /** The nesting of re-entrant effect calls the model allows before it reports an exhausted call stack. */
  const CallDepth: nat := 64

  /** A character and a context after an effect or a modifier pass has run on them. */
  datatype Processed = Processed(ch: Character, ctx: Context)

  /** Everything but the stats is the same: effects only ever write stats. */
  predicate SameFrame(a: Character, b: Character) {
    a.id == b.id && a.name == b.name && a.modifiers == b.modifiers && a.abilities == b.abilities
  }

  /** No modifier in the list re-enters the pipeline. */
  predicate Settled(mods: seq<Modifier>) {
    forall m :: m in mods ==> !Reenters(m.effect)
  }

  /** No modifier in the list fires on the context. */
  predicate Quiet(mods: seq<Modifier>, ctx: Context) {
    forall m :: m in mods ==> !ShouldTrigger(m, ctx)
  }

  function WithHealth(ch: Character, h: int): Character {
    ch.(stats := ch.stats.(health := h))
  }

  /** The constructor: stats are copied, the modifier list starts empty. */
  function NewCharacter(id: string, name: string, baseStats: Stats, abilities: seq<Ability>): (c: Character)
    ensures c.id == id && c.name == name && c.stats == baseStats && c.abilities == abilities
    ensures c.modifiers == []
  {
    Character(id, name, baseStats, [], abilities)
  }

  // ---------------------------------------------------------------------------
  // Modifier list
  // ---------------------------------------------------------------------------

  /**
   * `addModifier`: a burn modifier whose id is already present adds its stacks to
   * the first entry with that id; every other modifier is appended, duplicate id
   * or not.
   */
  function AddModifier(ch: Character, m: Modifier): (r: Character)
    ensures r.id == ch.id && r.name == ch.name && r.stats == ch.stats && r.abilities == ch.abilities
    ensures IsBurnId(m.id) && (exists j :: 0 <= j < |ch.modifiers| && ch.modifiers[j].id == m.id) ==>
              && |r.modifiers| == |ch.modifiers|
              && exists k :: 0 <= k < |ch.modifiers| && ch.modifiers[k].id == m.id
                   && (forall j :: 0 <= j < k ==> ch.modifiers[j].id != m.id)
                   && r.modifiers[k] == ch.modifiers[k].(stacks := ch.modifiers[k].stacks + m.stacks)
                   && (forall j :: 0 <= j < |ch.modifiers| && j != k ==> r.modifiers[j] == ch.modifiers[j])
    ensures !IsBurnId(m.id) || (forall j :: 0 <= j < |ch.modifiers| ==> ch.modifiers[j].id != m.id) ==>
              r.modifiers == ch.modifiers + [m]
  {
    var existing := FindIndex(ch.modifiers, (x: Modifier) => x.id, m.id);
    if existing.Some? && IsBurnId(m.id) then
      var k := existing.value;
      ch.(modifiers := ch.modifiers[k := ch.modifiers[k].(stacks := ch.modifiers[k].stacks + m.stacks)])
    else
      ch.(modifiers := ch.modifiers + [m])
  }

  /** `filter((m) => m.id !== id)`. */
  function Without(mods: seq<Modifier>, id: string): (r: seq<Modifier>)
    ensures |r| <= |mods|
  {
    if |mods| == 0 then []
    else if mods[0].id == id then Without(mods[1..], id)
    else [mods[0]] + Without(mods[1..], id)
  }

  /** The filter keeps exactly the entries with another id, and is the identity when no entry has the id. */
  lemma {:induction false} WithoutMembers(mods: seq<Modifier>, id: string)
    ensures forall m :: m in Without(mods, id) <==> m in mods && m.id != id
    ensures (forall j :: 0 <= j < |mods| ==> mods[j].id != id) ==> Without(mods, id) == mods
    decreases |mods|
  {
    if |mods| > 0 {
      WithoutMembers(mods[1..], id);
      assert mods == [mods[0]] + mods[1..];
      if forall j :: 0 <= j < |mods| ==> mods[j].id != id {
        assert forall j :: 0 <= j < |mods[1..]| ==> mods[1..][j].id != id by {
          forall j | 0 <= j < |mods[1..]| ensures mods[1..][j].id != id {
            assert mods[1..][j] == mods[j + 1];
          }
        }
      }
    }
  }

  /** Filtering distributes over concatenation, so the kept entries keep their order. */
  lemma {:induction false} WithoutConcat(a: seq<Modifier>, b: seq<Modifier>, id: string)
    ensures Without(a + b, id) == Without(a, id) + Without(b, id)
  {
    if |a| > 0 {
      assert (a + b)[1..] == a[1..] + b;
      WithoutConcat(a[1..], b, id);
    } else {
      assert a + b == b;
    }
  }

  /** `removeModifier`: every entry with the id is gone, the rest stay in order. */
  function RemoveModifier(ch: Character, id: string): (r: Character)
    ensures r.id == ch.id && r.name == ch.name && r.stats == ch.stats && r.abilities == ch.abilities
    ensures forall m :: m in r.modifiers <==> m in ch.modifiers && m.id != id
    ensures (forall j :: 0 <= j < |ch.modifiers| ==> ch.modifiers[j].id != id) ==> r == ch
  {
    WithoutMembers(ch.modifiers, id);
    ch.(modifiers := Without(ch.modifiers, id))
  }

  /** At most one entry per burn id: the stacking rule of `addModifier` keeps it so. */
  predicate BurnIdsUnique(mods: seq<Modifier>) {
    forall i, j :: 0 <= i < j < |mods| && IsBurnId(mods[i].id) ==> mods[i].id != mods[j].id
  }

  /** `addModifier` and `removeModifier` keep burn ids unique. */
  lemma ModifierListKeepsBurnIdsUnique(ch: Character, m: Modifier, id: string)
    requires BurnIdsUnique(ch.modifiers)
    ensures BurnIdsUnique(AddModifier(ch, m).modifiers)
    ensures BurnIdsUnique(RemoveModifier(ch, id).modifiers)
  {
    WithoutKeepsBurnIdsUnique(ch.modifiers, id);
  }

  lemma {:induction false} WithoutKeepsBurnIdsUnique(mods: seq<Modifier>, id: string)
    requires BurnIdsUnique(mods)
    ensures BurnIdsUnique(Without(mods, id))
  {
    if |mods| > 0 {
      TailBurnIdsUnique(mods);
      WithoutKeepsBurnIdsUnique(mods[1..], id);
      var rest := Without(mods[1..], id);
      if mods[0].id != id {
        if IsBurnId(mods[0].id) {
          WithoutMembers(mods[1..], id);
          forall k | 0 <= k < |rest| ensures rest[k].id != mods[0].id {
            assert rest[k] in mods[1..];
            var k' :| 0 <= k' < |mods[1..]| && mods[1..][k'] == rest[k];
            assert mods[k' + 1] == rest[k];
          }
        }
        ConsBurnIdsUnique(mods[0], rest);
      }
    }
  }

  lemma TailBurnIdsUnique(mods: seq<Modifier>)
    requires |mods| > 0 && BurnIdsUnique(mods)
    ensures BurnIdsUnique(mods[1..])
  {
    forall i, j | 0 <= i < j < |mods[1..]| && IsBurnId(mods[1..][i].id)
      ensures mods[1..][i].id != mods[1..][j].id
    {
      assert mods[1..][i] == mods[i + 1] && mods[1..][j] == mods[j + 1];
    }
  }

  lemma ConsBurnIdsUnique(m: Modifier, rest: seq<Modifier>)
    requires BurnIdsUnique(rest)
    requires IsBurnId(m.id) ==> forall k :: 0 <= k < |rest| ==> rest[k].id != m.id
    ensures BurnIdsUnique([m] + rest)
  {
    var r := [m] + rest;
    forall i, j | 0 <= i < j < |r| && IsBurnId(r[i].id) ensures r[i].id != r[j].id {
      assert r[j] == rest[j - 1];
      if i > 0 {
        assert r[i] == rest[i - 1];
      }
    }
  }

  /** `getEffectiveStats`: a copy of the current stats; attached modifiers are not folded in. */
  function EffectiveStats(ch: Character): (s: Stats)
    ensures s == ch.stats
  {
    ch.stats
  }

  /** Attaching a modifier never changes the effective stats. */
  lemma AddModifierKeepsEffectiveStats(ch: Character, m: Modifier)
    ensures EffectiveStats(AddModifier(ch, m)) == EffectiveStats(ch)
  {
  }

  // ---------------------------------------------------------------------------
  // Effect interpretation and the damage/heal pipeline
  // ---------------------------------------------------------------------------

  /**
   * Runs one effect on a context and a character (`Modifier.apply`, which calls
   * the effect). Effects rewrite numeric context fields, write stats, or call the
   * character's own `takeDamage` / `heal`; none changes the context's tag or the
   * character's modifiers and abilities.
   */
  function ApplyEffect(e: Effect, ctx: Context, ch: Character, depth: nat): (r: Outcome<Processed>)
    ensures r.Ok? ==> r.value.ctx.Kind() == ctx.Kind() && SameFrame(r.value.ch, ch)
    ensures r.Ok? && !Reenters(e) ==> r.value.ch.stats.maxHealth == ch.stats.maxHealth || e.Shield?
    ensures r.Err? ==> r.error == CallStackExceeded && Reenters(e)
    ensures !Reenters(e) ==> r.Ok?
    ensures Settled(ch.modifiers) && depth > 0 ==> r.Ok?
    decreases depth, 1, 0
  {
    var s := ch.stats;
    match e
    case DoubleAttack =>
      Ok(Processed(ch, if ctx.AttackCtx? then AttackCtx(ctx.target, ctx.damage * 2) else ctx))
    case HealSelf(k) =>
      Ok(Processed(WithHealth(ch, Min(s.maxHealth, s.health + k)), ctx))
    case ReduceDamage(k) =>
      Ok(Processed(ch, if ctx.DamageCtx? then DamageCtx(ctx.target, Max(0, ctx.damage - k), ctx.source) else ctx))
    case BonusAtFullHealth(b) =>
      Ok(Processed(ch, if ctx.AttackCtx? && s.health >= s.maxHealth then AttackCtx(ctx.target, ctx.damage + b) else ctx))
    case DoubleWhenLow =>
      Ok(Processed(ch, if ctx.AttackCtx? && s.health <= s.maxHealth / 2 then AttackCtx(ctx.target, ctx.damage * 2) else ctx))
    case BoostHeal(b) =>
      Ok(Processed(ch, if ctx.HealCtx? then HealCtx(ctx.target, ctx.amount + b) else ctx))
    case BonusAndHeal(b, k) =>
      if ctx.AttackCtx? then
        Ok(Processed(WithHealth(ch, Min(s.maxHealth, s.health + k)), AttackCtx(ctx.target, ctx.damage + b)))
      else Ok(Processed(ch, ctx))
    case BonusDamage(b) =>
      Ok(Processed(ch, if ctx.AttackCtx? then AttackCtx(ctx.target, ctx.damage + b) else ctx))
    case HealOnAttack(k) =>
      if ctx.AttackCtx? then Ok(Processed(WithHealth(ch, Min(s.maxHealth, s.health + k)), ctx))
      else Ok(Processed(ch, ctx))
    case Strike(c) =>
      if !c.AttackCtx? then Ok(Processed(ch, ctx))
      else if depth == 0 then Err(CallStackExceeded)
      else
        var hit :- TakeDamageAt(ch, c.damage, c.target, depth - 1);
        Ok(Processed(hit, ctx))
    case PowerStrike(c) =>
      if !c.AttackCtx? then Ok(Processed(ch, ctx))
      else if depth == 0 then Err(CallStackExceeded)
      else
        var hit :- TakeDamageAt(ch, (3 * c.damage) / 2, c.target, depth - 1);
        Ok(Processed(hit, ctx))
    case HealBy(c) =>
      if !c.HealCtx? then Ok(Processed(ch, ctx))
      else if depth == 0 then Err(CallStackExceeded)
      else
        var healed :- HealAt(ch, (6 * c.amount) / 5, depth - 1);
        Ok(Processed(healed, ctx))
    case RaiseAttack(c) =>
      if c.BuffCtx? then Ok(Processed(ch.(stats := s.(attack := s.attack + OrDefault(c.value, 10))), ctx))
      else Ok(Processed(ch, ctx))
    case LowerAttack(c) =>
      if c.DebuffCtx? then Ok(Processed(ch.(stats := s.(attack := Max(0, s.attack - OrDefault(c.value, 5)))), ctx))
      else Ok(Processed(ch, ctx))
    case Shield(c) =>
      if c.BuffCtx? then
        var v := OrDefault(c.value, 5);
        Ok(Processed(ch.(stats := s.(maxHealth := s.maxHealth + v, health := s.health + v)), ctx))
      else Ok(Processed(ch, ctx))
    case Poison(c) =>
      if !c.DebuffCtx? then Ok(Processed(ch, ctx))
      else if depth == 0 then Err(CallStackExceeded)
      else
        var hit :- TakeDamageAt(ch, OrDefault(c.value, 5) / 2, c.target, depth - 1);
        Ok(Processed(hit, ctx))
    case NoEffect =>
      Ok(Processed(ch, ctx))
  }

  /**
   * The loop of `processModifiers` over a snapshot `mods` of the modifier list:
   * each modifier whose `shouldTrigger` holds applies its effect, in list order.
   */
  function RunModifiers(mods: seq<Modifier>, ch: Character, ctx: Context, depth: nat): (r: Outcome<Processed>)
    ensures r.Ok? ==> r.value.ctx.Kind() == ctx.Kind() && SameFrame(r.value.ch, ch)
    ensures Quiet(mods, ctx) ==> r == Ok(Processed(ch, ctx))
    ensures Settled(mods) ==> r.Ok?
    ensures r.Err? ==> r.error == CallStackExceeded
    decreases depth, 2, |mods|
  {
    if |mods| == 0 then Ok(Processed(ch, ctx))
    else if ShouldTrigger(mods[0], ctx) then
      var p :- ApplyEffect(mods[0].effect, ctx, ch, depth);
      RunModifiers(mods[1..], p.ch, p.ctx, depth)
    else
      RunModifiers(mods[1..], ch, ctx, depth)
  }

  /** `processModifiers` at a given remaining call depth. */
  function ProcessModifiersAt(ch: Character, ctx: Context, depth: nat): (r: Outcome<Processed>)
    ensures r.Ok? ==> r.value.ctx.Kind() == ctx.Kind() && SameFrame(r.value.ch, ch)
    ensures Quiet(ch.modifiers, ctx) ==> r == Ok(Processed(ch, ctx))
    ensures Settled(ch.modifiers) ==> r.Ok?
    decreases depth, 2, |ch.modifiers| + 1
  {
    RunModifiers(ch.modifiers, ch, ctx, depth)
  }

  /**
   * `takeDamage` at a given remaining call depth: build a DAMAGE context, let the
   * modifiers rewrite it, then commit the post-modifier damage, flooring health at 0.
   */
  function TakeDamageAt(ch: Character, amount: int, source: string, depth: nat): (r: Outcome<Character>)
    ensures r.Ok? ==> r.value.stats.health >= 0 && SameFrame(r.value, ch)
    ensures Quiet(ch.modifiers, DamageCtx(ch.id, amount, source)) ==>
              r == Ok(WithHealth(ch, Max(0, ch.stats.health - amount)))
    ensures Settled(ch.modifiers) ==> r.Ok?
    ensures r.Err? ==> r.error == CallStackExceeded
    decreases depth, 3, 0
  {
    var p :- ProcessModifiersAt(ch, DamageCtx(ch.id, amount, source), depth);
    var finalDamage := if p.ctx.DamageCtx? then p.ctx.damage else amount;
    Ok(WithHealth(p.ch, Max(0, p.ch.stats.health - finalDamage)))
  }

  /**
   * `heal` at a given remaining call depth: build a HEAL context, let the modifiers
   * rewrite it, then commit the post-modifier amount, capping health at maxHealth.
   */
  function HealAt(ch: Character, amount: int, depth: nat): (r: Outcome<Character>)
    ensures r.Ok? ==> r.value.stats.health <= r.value.stats.maxHealth && SameFrame(r.value, ch)
    ensures Quiet(ch.modifiers, HealCtx(ch.id, amount)) ==>
              r == Ok(WithHealth(ch, Min(ch.stats.maxHealth, ch.stats.health + amount)))
    ensures Settled(ch.modifiers) ==> r.Ok?
    ensures r.Err? ==> r.error == CallStackExceeded
    decreases depth, 3, 0
  {
    var p :- ProcessModifiersAt(ch, HealCtx(ch.id, amount), depth);
    var finalHeal := if p.ctx.HealCtx? then p.ctx.amount else amount;
    Ok(WithHealth(p.ch, Min(p.ch.stats.maxHealth, p.ch.stats.health + finalHeal)))
  }

  /** `Modifier.apply(context, character)`. */
  function Apply(m: Modifier, ctx: Context, ch: Character): (r: Outcome<Processed>)
    ensures r.Ok? ==> r.value.ctx.Kind() == ctx.Kind() && SameFrame(r.value.ch, ch)
    ensures !Reenters(m.effect) || Settled(ch.modifiers) ==> r.Ok?
  {
    ApplyEffect(m.effect, ctx, ch, CallDepth)
  }

  /** `processModifiers(context)`. */
  function ProcessModifiers(ch: Character, ctx: Context): (r: Outcome<Processed>)
    ensures r.Ok? ==> r.value.ctx.Kind() == ctx.Kind() && SameFrame(r.value.ch, ch)
    ensures Quiet(ch.modifiers, ctx) ==> r == Ok(Processed(ch, ctx))
    ensures Settled(ch.modifiers) ==> r.Ok?
  {
    ProcessModifiersAt(ch, ctx, CallDepth)
  }

  /** `takeDamage(amount, source)`. */
  function TakeDamage(ch: Character, amount: int, source: string): (r: Outcome<Character>)
    ensures r.Ok? ==> r.value.stats.health >= 0 && SameFrame(r.value, ch)
    ensures Quiet(ch.modifiers, DamageCtx(ch.id, amount, source)) ==>
              r == Ok(WithHealth(ch, Max(0, ch.stats.health - amount)))
    ensures Settled(ch.modifiers) ==> r.Ok?
  {
    TakeDamageAt(ch, amount, source, CallDepth)
  }

  /** `heal(amount)`. */
  function Heal(ch: Character, amount: int): (r: Outcome<Character>)
    ensures r.Ok? ==> r.value.stats.health <= r.value.stats.maxHealth && SameFrame(r.value, ch)
    ensures Quiet(ch.modifiers, HealCtx(ch.id, amount)) ==>
              r == Ok(WithHealth(ch, Min(ch.stats.maxHealth, ch.stats.health + amount)))
    ensures Settled(ch.modifiers) ==> r.Ok?
  {
    HealAt(ch, amount, CallDepth)
  }

  // ---------------------------------------------------------------------------
  // Abilities and liveness
  // ---------------------------------------------------------------------------

  /**
   * `useAbility`: fails when no ability has the id; otherwise it is `use` on the
   * first ability with that id, whose new cooldown is written back.
   */
  function UseAbility(ch: Character, id: string, ctx: Context, stamp: string): (r: Outcome<(Character, Modifier)>)
    ensures (forall j :: 0 <= j < |ch.abilities| ==> ch.abilities[j].id != id) ==> r == Err(AbilityNotFound(id))
    ensures forall k :: (0 <= k < |ch.abilities| && ch.abilities[k].id == id
                        && (forall j :: 0 <= j < k ==> ch.abilities[j].id != id)) ==>
                match Use(ch.abilities[k], ctx, stamp)
                case Err(e) => r == Err(e)
                case Ok(used) =>
                  r.Ok? && r.value.1 == used.1
                  && r.value.0 == ch.(abilities := ch.abilities[k := used.0])
  {
    FindIndexIsFirst(ch.abilities, (a: Ability) => a.id, id);
    var k := FindIndex(ch.abilities, (a: Ability) => a.id, id);
    if k.None? then Err(AbilityNotFound(id))
    else
      var used :- Use(ch.abilities[k.value], ctx, stamp);
      Ok((ch.(abilities := ch.abilities[k.value := used.0]), used.1))
  }

  /** `tickCooldowns`: every ability ticks exactly once; nothing else changes. */
  function TickCooldowns(ch: Character): (r: Character)
    ensures r == ch.(abilities := r.abilities)
    ensures |r.abilities| == |ch.abilities|
    ensures forall i :: 0 <= i < |ch.abilities| ==> r.abilities[i] == TickCooldown(ch.abilities[i])
  {
    ch.(abilities := seq(|ch.abilities|, i requires 0 <= i < |ch.abilities| => TickCooldown(ch.abilities[i])))
  }

  /** A tick keeps ready abilities ready and brings every waiting one a turn closer. */
  lemma TickCooldownsProgress(ch: Character)
    requires forall a :: a in ch.abilities ==> a.currentCooldown >= 0
    ensures forall i :: 0 <= i < |ch.abilities| ==>
              TickCooldowns(ch).abilities[i].currentCooldown == Max(0, ch.abilities[i].currentCooldown - 1)
  {
    forall i | 0 <= i < |ch.abilities|
      ensures TickCooldowns(ch).abilities[i].currentCooldown == Max(0, ch.abilities[i].currentCooldown - 1)
    {
      assert ch.abilities[i] in ch.abilities;
    }
  }

  /** `isAlive`. */
  predicate IsAlive(ch: Character) {
    ch.stats.health > 0
  }

  /**
   * With nothing firing on the DAMAGE context, the character survives the hit
   * exactly when its health exceeded the damage; a dead character is not revived
   * by non-negative damage.
   */
  lemma QuietDamageKillsIff(ch: Character, amount: int, source: string)
    requires Quiet(ch.modifiers, DamageCtx(ch.id, amount, source))
    ensures TakeDamage(ch, amount, source).Ok?
    ensures IsAlive(TakeDamage(ch, amount, source).value) <==> ch.stats.health > amount
    ensures amount >= 0 && !IsAlive(ch) ==> !IsAlive(TakeDamage(ch, amount, source).value)
  {
  }

  /** The position of the first living character (`find((h) => h.isAlive())`). */
  function FirstAlive(chars: seq<Character>): (r: Option<nat>)
    ensures r.Some? ==> r.value < |chars| && IsAlive(chars[r.value])
    ensures r.Some? ==> forall j :: 0 <= j < r.value ==> !IsAlive(chars[j])
    ensures r.None? <==> forall j :: 0 <= j < |chars| ==> !IsAlive(chars[j])
  {
    if |chars| == 0 then None
    else if IsAlive(chars[0]) then Some(0)
    else
      var rest := FirstAlive(chars[1..]);
      if rest.Some? then Some(rest.value + 1) else None
  }

  // ---------------------------------------------------------------------------
  // Modifiers acting on an incoming modifier
  // ---------------------------------------------------------------------------

  /**
   * One effect run with a Modifier standing in for the character, as
   * `processModifiersOnModifier` does. Effects that only rewrite the context go
   * through; an effect that reads or writes `character.stats`, or calls
   * `character.takeDamage` / `character.heal`, meets a Modifier, which has none
   * of those, and throws a TypeError.
   */
  function ApplyToModifier(e: Effect, ctx: Context): (r: Outcome<Context>)
    ensures r.Ok? ==> r.value.Kind() == ctx.Kind()
    ensures r.Err? ==> r.error == TypeError
    ensures e.HealSelf? ==> r.Err?
    ensures e in {DoubleAttack, NoEffect, DoubleWhenLow} && !ctx.AttackCtx? ==> r == Ok(ctx)
  {
    match e
    case DoubleAttack => Ok(if ctx.AttackCtx? then AttackCtx(ctx.target, ctx.damage * 2) else ctx)
    case HealSelf(_) => Err(TypeError)
    case ReduceDamage(k) => Ok(if ctx.DamageCtx? then DamageCtx(ctx.target, Max(0, ctx.damage - k), ctx.source) else ctx)
    case BonusAtFullHealth(_) => if ctx.AttackCtx? then Err(TypeError) else Ok(ctx)
    case DoubleWhenLow => if ctx.AttackCtx? then Err(TypeError) else Ok(ctx)
    case BoostHeal(b) => Ok(if ctx.HealCtx? then HealCtx(ctx.target, ctx.amount + b) else ctx)
    case BonusAndHeal(_, _) => if ctx.AttackCtx? then Err(TypeError) else Ok(ctx)
    case BonusDamage(b) => Ok(if ctx.AttackCtx? then AttackCtx(ctx.target, ctx.damage + b) else ctx)
    case HealOnAttack(_) => if ctx.AttackCtx? then Err(TypeError) else Ok(ctx)
    case Strike(c) => if c.AttackCtx? then Err(TypeError) else Ok(ctx)
    case PowerStrike(c) => if c.AttackCtx? then Err(TypeError) else Ok(ctx)
    case HealBy(c) => if c.HealCtx? then Err(TypeError) else Ok(ctx)
    case RaiseAttack(c) => if c.BuffCtx? then Err(TypeError) else Ok(ctx)
    case LowerAttack(c) => if c.DebuffCtx? then Err(TypeError) else Ok(ctx)
    case Shield(c) => if c.BuffCtx? then Err(TypeError) else Ok(ctx)
    case Poison(c) => if c.DebuffCtx? then Err(TypeError) else Ok(ctx)
    case NoEffect => Ok(ctx)
  }

  function RunOnModifier(mods: seq<Modifier>, ctx: Context): (r: Outcome<Context>)
    ensures r.Ok? ==> r.value.Kind() == ctx.Kind()
    ensures (forall m :: m in mods ==> !ShouldTriggerOnModifierAdded(m)) ==> r == Ok(ctx)
  {
    if |mods| == 0 then Ok(ctx)
    else if ShouldTriggerOnModifierAdded(mods[0]) then
      var ctx' :- ApplyToModifier(mods[0].effect, ctx);
      RunOnModifier(mods[1..], ctx')
    else RunOnModifier(mods[1..], ctx)
  }

  /**
   * `processModifiersOnModifier`: attached modifiers that fire on a modifier being
   * added run against it. No effect writes a modifier field, so the incoming
   * modifier itself comes back; the context they share may have been rewritten.
   * When nothing fires, neither changes.
   */
  function ProcessModifiersOnModifier(ch: Character, newModifier: Modifier, ctx: Context): (r: Outcome<(Modifier, Context)>)
    ensures r.Ok? ==> r.value.0 == newModifier && r.value.1.Kind() == ctx.Kind()
    ensures (forall m :: m in ch.modifiers ==> !ShouldTriggerOnModifierAdded(m)) ==> r == Ok((newModifier, ctx))
  {
    var ctx' :- RunOnModifier(ch.modifiers, ctx);
    Ok((newModifier, ctx'))
  }

  // ---------------------------------------------------------------------------
  // Properties of the pipeline
  // ---------------------------------------------------------------------------

  /** The modifiers of a list whose `shouldTrigger` holds, in list order. */
  function Fired(mods: seq<Modifier>, ctx: Context): (r: seq<Modifier>)
    ensures forall m :: m in r <==> m in mods && ShouldTrigger(m, ctx)
  {
    if |mods| == 0 then []
    else if ShouldTrigger(mods[0], ctx) then [mods[0]] + Fired(mods[1..], ctx)
    else Fired(mods[1..], ctx)
  }

  /** Applies every modifier of a list, unconditionally, in order. */
  function ApplyAll(mods: seq<Modifier>, ch: Character, ctx: Context, depth: nat): Outcome<Processed>
  {
    if |mods| == 0 then Ok(Processed(ch, ctx))
    else
      var p :- ApplyEffect(mods[0].effect, ctx, ch, depth);
      ApplyAll(mods[1..], p.ch, p.ctx, depth)
  }

  /**
   * `processModifiers` applies exactly the modifiers whose `shouldTrigger` holds on
   * the incoming context, in list order: effects never change the context's tag,
   * so whether a later modifier fires does not depend on the earlier ones.
   */
  lemma {:induction false} RunModifiersAppliesFired(mods: seq<Modifier>, ch: Character, ctx: Context, depth: nat)
    ensures RunModifiers(mods, ch, ctx, depth) == ApplyAll(Fired(mods, ctx), ch, ctx, depth)
  {
    if |mods| > 0 {
      var fired := Fired(mods, ctx);
      if ShouldTrigger(mods[0], ctx) {
        assert fired[0] == mods[0] && fired[1..] == Fired(mods[1..], ctx);
        var r := ApplyEffect(mods[0].effect, ctx, ch, depth);
        if r.Ok? {
          var p := r.value;
          FiredDependsOnKind(mods[1..], p.ctx, ctx);
          RunModifiersAppliesFired(mods[1..], p.ch, p.ctx, depth);
        }
      } else {
        RunModifiersAppliesFired(mods[1..], ch, ctx, depth);
      }
    }
  }

  /** Which modifiers fire depends only on the context's tag. */
  lemma {:induction false} FiredDependsOnKind(mods: seq<Modifier>, a: Context, b: Context)
    requires a.Kind() == b.Kind()
    ensures Fired(mods, a) == Fired(mods, b)
  {
    if |mods| > 0 {
      FiredDependsOnKind(mods[1..], a, b);
    }
  }

  /** ATTACK, BUFF and DEBUFF contexts fire no modifier, so processing them changes nothing. */
  lemma ActionContextsAreInert(ch: Character, ctx: Context)
    requires ctx.AttackCtx? || ctx.BuffCtx? || ctx.DebuffCtx?
    ensures ProcessModifiers(ch, ctx) == Ok(Processed(ch, ctx))
  {
    assert Quiet(ch.modifiers, ctx);
  }

  /** With a single modifier that fires, processing a context is exactly that modifier's `apply`. */
  lemma SoleModifierFires(m: Modifier, ch: Character, ctx: Context)
    requires ch.modifiers == [m] && ShouldTrigger(m, ctx) && Apply(m, ctx, ch).Ok?
    ensures ProcessModifiers(ch, ctx) == Apply(m, ctx, ch)
  {
    var p := Apply(m, ctx, ch).value;
    assert ch.modifiers[1..] == [];
    assert ApplyEffect(ch.modifiers[0].effect, ctx, ch, CallDepth) == Ok(p);
    assert RunModifiers([], p.ch, p.ctx, CallDepth) == Ok(p);
    assert RunModifiers(ch.modifiers, ch, ctx, CallDepth) == Ok(p);
    assert ProcessModifiersAt(ch, ctx, CallDepth) == Ok(p);
  }

  /**
   * `takeDamage` is: apply, in list order, exactly the modifiers that fire on the
   * DAMAGE context, then commit the damage left in the rewritten context. It fails
   * exactly when one of those effects fails.
   */
  lemma {:induction false} TakeDamageCommitsRewrittenDamage(ch: Character, amount: int, source: string)
    ensures var ctx := DamageCtx(ch.id, amount, source);
            var q := ApplyAll(Fired(ch.modifiers, ctx), ch, ctx, CallDepth);
            && (TakeDamage(ch, amount, source).Ok? <==> q.Ok?)
            && (q.Ok? ==> q.value.ctx.DamageCtx?
                          && TakeDamage(ch, amount, source)
                             == Ok(WithHealth(q.value.ch, Max(0, q.value.ch.stats.health - q.value.ctx.damage))))
  {
    var ctx := DamageCtx(ch.id, amount, source);
    var q := ApplyAll(Fired(ch.modifiers, ctx), ch, ctx, CallDepth);
    assert ProcessModifiers(ch, ctx) == q by {
      RunModifiersAppliesFired(ch.modifiers, ch, ctx, CallDepth);
      ProcessModifiersIsRun(ch, ctx);
    }
    assert TakeDamage(ch, amount, source).Ok? <==> q.Ok? by {
      TakeDamageAfterPass(ch, amount, source, q);
    }
    if q.Ok? {
      var p := q.value;
      assert p.ctx.DamageCtx? && TakeDamage(ch, amount, source) == Ok(WithHealth(p.ch, Max(0, p.ch.stats.health - p.ctx.damage))) by {
        TakeDamageAfterPass(ch, amount, source, q);
      }
    }
  }

  /** `processModifiers` is the pass over the character's own list at full depth. */
  lemma ProcessModifiersIsRun(ch: Character, ctx: Context)
    ensures ProcessModifiers(ch, ctx) == RunModifiers(ch.modifiers, ch, ctx, CallDepth)
  {
  }

  /** `takeDamage` in terms of the result of its modifier pass. */
  lemma TakeDamageAfterPass(ch: Character, amount: int, source: string, q: Outcome<Processed>)
    requires q == ProcessModifiers(ch, DamageCtx(ch.id, amount, source))
    ensures TakeDamage(ch, amount, source).Ok? <==> q.Ok?
    ensures q.Ok? ==> q.value.ctx.DamageCtx?
                      && TakeDamage(ch, amount, source)
                         == Ok(WithHealth(q.value.ch, Max(0, q.value.ch.stats.health - q.value.ctx.damage)))
  {
    assert TakeDamage(ch, amount, source) == TakeDamageAt(ch, amount, source, CallDepth);
    if q.Ok? {
      assert q.value.ctx.Kind() == Damage;
      assert q.value.ctx.DamageCtx?;
      assert TakeDamageAt(ch, amount, source, CallDepth)
             == Ok(WithHealth(q.value.ch, Max(0, q.value.ch.stats.health - q.value.ctx.damage)));
    } else {
      assert TakeDamageAt(ch, amount, source, CallDepth) == Err(q.error);
    }
  }

  /**
   * `heal` is: apply, in list order, exactly the modifiers that fire on the HEAL
   * context, then commit the amount left in the rewritten context, capped at max
   * health. It fails exactly when one of those effects fails.
   */
  lemma {:induction false} HealCommitsRewrittenAmount(ch: Character, amount: int)
    ensures var ctx := HealCtx(ch.id, amount);
            var q := ApplyAll(Fired(ch.modifiers, ctx), ch, ctx, CallDepth);
            && (Heal(ch, amount).Ok? <==> q.Ok?)
            && (q.Ok? ==> q.value.ctx.HealCtx?
                          && Heal(ch, amount)
                             == Ok(WithHealth(q.value.ch, Min(q.value.ch.stats.maxHealth, q.value.ch.stats.health + q.value.ctx.amount))))
  {
    var ctx := HealCtx(ch.id, amount);
    var q := ApplyAll(Fired(ch.modifiers, ctx), ch, ctx, CallDepth);
    assert ProcessModifiers(ch, ctx) == q by {
      RunModifiersAppliesFired(ch.modifiers, ch, ctx, CallDepth);
      ProcessModifiersIsRun(ch, ctx);
    }
    assert Heal(ch, amount).Ok? <==> q.Ok? by {
      HealAfterPass(ch, amount, q);
    }
    if q.Ok? {
      var p := q.value;
      assert p.ctx.HealCtx? && Heal(ch, amount) == Ok(WithHealth(p.ch, Min(p.ch.stats.maxHealth, p.ch.stats.health + p.ctx.amount))) by {
        HealAfterPass(ch, amount, q);
      }
    }
  }

  /** `heal` in terms of the result of its modifier pass. */
  lemma HealAfterPass(ch: Character, amount: int, q: Outcome<Processed>)
    requires q == ProcessModifiers(ch, HealCtx(ch.id, amount))
    ensures Heal(ch, amount).Ok? <==> q.Ok?
    ensures q.Ok? ==> q.value.ctx.HealCtx?
                      && Heal(ch, amount)
                         == Ok(WithHealth(q.value.ch, Min(q.value.ch.stats.maxHealth, q.value.ch.stats.health + q.value.ctx.amount)))
  {
    assert Heal(ch, amount) == HealAt(ch, amount, CallDepth);
    if q.Ok? {
      assert q.value.ctx.Kind() == ContextType.Heal;
      assert q.value.ctx.HealCtx?;
      assert HealAt(ch, amount, CallDepth)
             == Ok(WithHealth(q.value.ch, Min(q.value.ch.stats.maxHealth, q.value.ch.stats.health + q.value.ctx.amount)));
    } else {
      assert HealAt(ch, amount, CallDepth) == Err(q.error);
    }
  }

  /**
   * With no modifier firing, a non-negative hit on a character with
   * 0 <= health <= maxHealth removes exactly min(amount, health) and keeps the
   * stats invariant.
   */
  lemma PlainDamageKeepsStatsInvariant(ch: Character, amount: int, source: string)
    requires Quiet(ch.modifiers, DamageCtx(ch.id, amount, source))
    requires 0 <= ch.stats.health <= ch.stats.maxHealth && amount >= 0
    ensures TakeDamage(ch, amount, source).Ok?
    ensures var h := TakeDamage(ch, amount, source).value.stats;
            && h.health == ch.stats.health - Min(amount, ch.stats.health)
            && 0 <= h.health <= h.maxHealth == ch.stats.maxHealth
  {
  }

  /**
   * With no modifier firing, a non-negative heal adds exactly `amount` capped at
   * maxHealth and keeps the stats invariant.
   */
  lemma PlainHealKeepsStatsInvariant(ch: Character, amount: int)
    requires Quiet(ch.modifiers, HealCtx(ch.id, amount))
    requires 0 <= ch.stats.health <= ch.stats.maxHealth && amount >= 0
    ensures Heal(ch, amount).Ok?
    ensures var h := Heal(ch, amount).value.stats;
            && h.health == ch.stats.health + Min(amount, ch.stats.maxHealth - ch.stats.health)
            && 0 <= h.health <= h.maxHealth == ch.stats.maxHealth
  {
  }

  /**
   * Two light_up burns on a character without one merge into a single entry of
   * 10 stacks instead of two list entries.
   */
  lemma LightUpTwiceStacks(ch: Character, c1: Context, c2: Context, s1: string, s2: string)
    requires forall j :: 0 <= j < |ch.modifiers| ==> ch.modifiers[j].id != "burn_light_up"
    ensures var burn := Execute(LightUpExec, c1, s1);
            AddModifier(AddModifier(ch, burn), Execute(LightUpExec, c2, s2)).modifiers
              == ch.modifiers + [burn.(stacks := 10)]
  {
    var burn := Execute(LightUpExec, c1, s1);
    StackOntoLast(AddModifier(ch, burn), ch.modifiers, burn, Execute(LightUpExec, c2, s2));
  }

  /** A burn whose id only the last entry carries stacks onto that entry. */
  lemma StackOntoLast(ch: Character, pre: seq<Modifier>, last: Modifier, m: Modifier)
    requires ch.modifiers == pre + [last] && IsBurnId(m.id) && last.id == m.id
    requires forall j :: 0 <= j < |pre| ==> pre[j].id != m.id
    ensures AddModifier(ch, m).modifiers == pre + [last.(stacks := last.stacks + m.stacks)]
  {
    assert ch.modifiers[|pre|] == last;
    FindIndexIsFirst(ch.modifiers, (x: Modifier) => x.id, m.id);
  }
}
