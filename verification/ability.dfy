/** A cooldown-gated action (src/lib/gameLogic/abilities/Ability.ts). */
module Abilities {
  import opened Wrappers
  import opened Types
  import opened Modifiers
  import opened AbilityDefinitions

  datatype Ability = Ability(
    id: string,
    name: string,
    description: string,
    execute: Executor,
    contextType: ContextType,
    cooldown: Option<int>,
    currentCooldown: int)

  /** The constructor with `currentCooldown` left at its default of 0. */
  function NewAbility(id: string, name: string, description: string, execute: Executor,
                      contextType: ContextType, cooldown: Option<int>): (a: Ability)
    ensures IsReady(a)
    ensures a.id == id && a.name == name && a.description == description
    ensures a.execute == execute && a.contextType == contextType && a.cooldown == cooldown
  {
    Ability(id, name, description, execute, contextType, cooldown, 0)
  }

  /** `isReady`: with a non-negative counter, ready is exactly when a passing turn leaves the ability as it is. */
  predicate IsReady(a: Ability)
    ensures a.currentCooldown >= 0 ==> (IsReady(a) <==> TickCooldown(a) == a)
  {
    a.currentCooldown == 0
  }

  /** The cooldown `use` starts: JavaScript's `if (this.cooldown)` skips both an absent and a zero cooldown. */
  predicate StartsCooldown(a: Ability) {
    a.cooldown.Some? && a.cooldown.value != 0
  }

  /**
   * `use`: fails while on cooldown; otherwise runs the executor and, when the
   * ability has a nonzero cooldown, restarts it.
   */
  function Use(a: Ability, ctx: Context, stamp: string): (r: Outcome<(Ability, Modifier)>)
    ensures r.Err? <==> !IsReady(a)
    ensures r.Err? ==> r.error == OnCooldown(a.name)
    ensures r.Ok? ==> r.value.1 == Execute(a.execute, ctx, stamp)
    ensures r.Ok? && StartsCooldown(a) ==> r.value.0.currentCooldown == a.cooldown.value
    ensures r.Ok? && !StartsCooldown(a) ==> r.value.0 == a
    ensures r.Ok? ==> r.value.0 == a.(currentCooldown := r.value.0.currentCooldown)
  {
    if !IsReady(a) then Err(OnCooldown(a.name))
    else
      var produced := Execute(a.execute, ctx, stamp);
      var a' := if StartsCooldown(a) then a.(currentCooldown := a.cooldown.value) else a;
      Ok((a', produced))
  }

  /** `tickCooldown`: one turn passes; the counter never drops below zero. */
  function TickCooldown(a: Ability): (r: Ability)
    ensures a.currentCooldown > 0 ==> r.currentCooldown == a.currentCooldown - 1
    ensures a.currentCooldown <= 0 ==> r == a
    ensures a.currentCooldown >= 0 ==> r.currentCooldown >= 0
    ensures r == a.(currentCooldown := r.currentCooldown)
  {
    if a.currentCooldown > 0 then a.(currentCooldown := a.currentCooldown - 1) else a
  }

  /** `n` end-of-turn ticks in a row. */
  function Ticks(a: Ability, n: nat): Ability
    decreases n
  {
    if n == 0 then a else Ticks(TickCooldown(a), n - 1)
  }

  /** After `n` ticks a non-negative counter stands at max(0, c - n). */
  lemma {:induction false} TicksCountDown(a: Ability, n: nat)
    requires a.currentCooldown >= 0
    ensures Ticks(a, n).currentCooldown == Max(0, a.currentCooldown - n)
    ensures Ticks(a, n) == a.(currentCooldown := Ticks(a, n).currentCooldown)
    decreases n
  {
    if n > 0 {
      TicksCountDown(TickCooldown(a), n - 1);
    }
  }

  /**
   * The cooldown round trip: after a successful use with cooldown c > 0, the
   * ability is unavailable for the next c - 1 ticks, ready after exactly c, and
   * stays at 0 under further ticks.
   */
  lemma CooldownRoundTrip(a: Ability, ctx: Context, stamp: string)
    requires IsReady(a) && a.cooldown.Some? && a.cooldown.value > 0
    ensures Use(a, ctx, stamp).Ok?
    ensures var used := Use(a, ctx, stamp).value.0;
              && (forall k: nat :: k < a.cooldown.value ==> !IsReady(Ticks(used, k)))
              && IsReady(Ticks(used, a.cooldown.value))
              && (forall k: nat :: k >= a.cooldown.value ==> Ticks(used, k).currentCooldown == 0)
  {
    var used := Use(a, ctx, stamp).value.0;
    forall k: nat ensures Ticks(used, k).currentCooldown == Max(0, a.cooldown.value - k) {
      TicksCountDown(used, k);
    }
  }
}
