# Ninaur combat engine, modelled in Dafny

This project models the turn-based combat core of the Ninaur game: a party of
up to five heroes fights one boss. It covers:

- the ability and modifier data model;
- the ability registry and factory;
- the context builder (`populateContext`);
- a character's damage/heal pipeline, with its `on_trigger` modifiers;
- the sixteen hats and their modifiers;
- building a character from a database row;
- the round state machine of the game engine, including the end-of-round burn pass;
- the boss stat curve.

The model is functional. Every class becomes an immutable datatype, and every
mutating method becomes a function that returns the new value. A thrown
`Error` becomes an `Err` of the `Failure` datatype. A modifier's effect
closure becomes a constructor of `Effect`, which `Characters.ApplyEffect`
interprets. That interpreter is the only place where the closures'
behaviour lives.

Modules follow the source files:

| module | file | source |
|---|---|---|
| `Wrappers` | wrappers.dfy | `Option`, `Result`, and a `map` that stops at the first thrown error |
| `Types` | types.dfy | src/lib/gameLogic/types.ts |
| `Modifiers` | modifier.dfy | src/lib/gameLogic/abilities/Modifier.ts |
| `AbilityDefinitions` | ability_definitions.dfy | src/lib/gameLogic/abilities/abilityDefinitions.ts |
| `Abilities` | ability.dfy | src/lib/gameLogic/abilities/Ability.ts |
| `AbilityFactory` | ability_factory.dfy | src/lib/gameLogic/abilities/AbilityFactory.ts |
| `Characters` | character.dfy | src/lib/gameLogic/characters/Character.svelte.ts, plus the effect closures |
| `Hats` | hats.dfy | src/lib/gameLogic/hatDefinitions.ts |
| `PopulateContext` | populate_context.dfy | src/lib/gameLogic/populateContext.ts |
| `CharacterFromDb` | character_from_db.dfy | src/lib/gameLogic/createCharacterFromDb.ts |
| `GameEngine` | game_engine.dfy | src/lib/gameLogic/GameEngine.svelte.ts |
| `Burn` | burn.dfy | the burn loop of `endRound` in GameEngine.svelte.ts |
| `BurnRule` | burn_rule.dfy | the burn loop stated entry by entry against a reference definition |
| `ExecutorEffects` | executor_effects.dfy | what each executor's modifier does to the character it lands on |
| `Rounds` | game_rounds.dfy | properties of repeated `processNextAction` calls |
| `BossStats` | boss_stats.dfy | src/lib/server/db/bossStats.ts |

Design points that shape the contracts:

- **Re-entry and the call stack.** Four effects re-enter the pipeline:
  - the basic and power attacks call `takeDamage`;
  - the heal ability calls `heal`;
  - poison calls `takeDamage` once per `processModifiers` pass.

  In JavaScript an unbounded re-entry (a poison that fires on the damage it
  deals) ends with a `RangeError`. The model threads a depth bound,
  `CallDepth` = 64, through the mutually recursive pipeline. Running out of
  depth gives `Err(CallStackExceeded)`.
- **Settled modifier lists.** `Settled(mods)` says that no modifier in the
  list re-enters. For settled lists every pipeline call is `Ok`.
  - Hats and `createCharacterFromDb` only ever produce settled lists.
  - `GameEngine.Valid` says every character is settled.
  - Every engine operation keeps `Valid`.
- **Object identity in the burn pass.** `endRound` iterates over a snapshot
  of the burn modifiers. It mutates those same objects while the list is
  being rebuilt. The model tags each list entry with its position in the
  snapshot, so it can tell which entry a snapshot element still refers to.
  `BurnRule` states the outcome without tags: `BurnedList` burns the list
  entry by entry, and `BurnPassFollowsRule` proves the tagged loop equal to
  it whenever burn ids are unique, which `addModifier` guarantees.
- **Float arithmetic.** `Math.floor(x * 0.2)` is modelled as `x / 5`. Euclidean
  division equals the floor for a positive divisor. The other floored
  products are modelled the same way, for example `Math.floor(x * 1.5)` as
  `3 * x / 2`.

## Model

| member | source | states |
|---|---|---|
| Wrappers.MapResult | src/lib/gameLogic/abilities/AbilityFactory.ts:44-53 | `Array.map` of a throwing function: it succeeds iff every element succeeds, then it is the element-wise results in order; otherwise it is the error of a failing element with all earlier elements succeeding |
| Types.KindNamesRoundTrip | src/lib/gameLogic/types.ts:11-19 | the seven context types have seven distinct wire names, and parsing a name gives its type back |
| Types.TriggerNamesDistinct | src/lib/gameLogic/types.ts:66-75 | the nine trigger shapes have distinct names, and none of them is `on_ability` |
| Modifiers.NewModifier | src/lib/gameLogic/abilities/Modifier.ts:7-22 | fields are stored as given, and `stacks` is 1 unless an initial count is passed |
| Modifiers.ShouldTrigger | src/lib/gameLogic/abilities/Modifier.ts:26-56 | a modifier fires iff it is `on_trigger`, its trigger is one of TURN_START, TURN_END, DAMAGE or HEAL, and the context has that same type |
| Modifiers.TriggerDiscipline | src/lib/gameLogic/abilities/Modifier.ts:26-65 | one-time modifiers never fire; permanent, ATTACK, BUFF, DEBUFF and on_modifier_added triggers never fire on a context; the on-modifier-added check holds exactly for `on_trigger` modifiers with that trigger |
| Modifiers.ShouldTriggerOnModifierAdded | src/lib/gameLogic/abilities/Modifier.ts:59-65 | a modifier that fires when a modifier is added never fires on any context |
| Modifiers.BurnIdOfPrefix | src/lib/gameLogic/characters/Character.svelte.ts:36 | `startsWith('burn_')` depends only on the first five characters |
| AbilityDefinitions.GetAbilityExecutor | src/lib/gameLogic/abilities/abilityDefinitions.ts:216-218 | finds exactly the executor registered under the id, and nothing for an unknown id |
| AbilityDefinitions.Execute | src/lib/gameLogic/abilities/abilityDefinitions.ts:67-208 | every executor but light_up makes a fresh id `key_stamp` with one stack; light_up makes the stacking `burn_light_up` with five stacks on TURN_END; each executor's effect, trigger and duration: basic and power attack strike on DAMAGE, heal heals on HEAL, all three one-time without duration; buff and debuff change attack for 3 and 2 turns, shield raises health for 3, all permanent; poison is `on_trigger` DAMAGE for 3 turns |
| ExecutorEffects.BasicAttackDealsDamage | src/lib/gameLogic/abilities/abilityDefinitions.ts:68-83 | the basic attack's modifier makes its holder take the ATTACK damage, with the ATTACK context's target id as the damage source, floored at zero, when nothing reacts |
| ExecutorEffects.PowerAttackDealsMore | src/lib/gameLogic/abilities/abilityDefinitions.ts:103-119 | the power attack's modifier deals one and a half times the damage, rounded down |
| ExecutorEffects.HealRestoresMore | src/lib/gameLogic/abilities/abilityDefinitions.ts:85-101 | the heal's modifier heals six fifths of the amount, rounded down, capped at max health |
| ExecutorEffects.BuffRaisesAttack | src/lib/gameLogic/abilities/abilityDefinitions.ts:121-136 | the buff's modifier raises attack by the context's value, 10 when that is zero |
| ExecutorEffects.DebuffLowersAttack | src/lib/gameLogic/abilities/abilityDefinitions.ts:138-153 | the debuff's modifier lowers attack by the context's value, 5 when that is zero, not below zero |
| ExecutorEffects.ShieldRaisesHealth | src/lib/gameLogic/abilities/abilityDefinitions.ts:155-171 | the shield's modifier raises max health and health by the context's value, 5 when that is zero |
| ExecutorEffects.PoisonDealsHalf | src/lib/gameLogic/abilities/abilityDefinitions.ts:173-190 | the poison's modifier deals half the context's value, 5 when that is zero, rounded down |
| ExecutorEffects.LightUpDoesNothing | src/lib/gameLogic/abilities/abilityDefinitions.ts:192-207 | the light_up burn does nothing when applied; its damage comes from the burn step |
| AbilityDefinitions.GetAbilityDefinition | src/lib/gameLogic/abilities/abilityDefinitions.ts:211-213 | returns a table entry with that id, and nothing iff no entry has it |
| AbilityDefinitions.EveryDefinitionHasExecutor | src/lib/gameLogic/abilities/abilityDefinitions.ts:7-208 | every definition in the table has an executor registered under its id |
| AbilityDefinitions.DefinitionIdsDistinct | src/lib/gameLogic/abilities/abilityDefinitions.ts:7-64 | no two definitions share an id |
| AbilityDefinitions.LookupTableEntry | src/lib/gameLogic/abilities/abilityDefinitions.ts:211-213 | looking up the id of any table entry returns that very entry |
| AbilityDefinitions.DefinitionCooldowns | src/lib/gameLogic/abilities/abilityDefinitions.ts:7-64 | the cooldowns of the eight abilities are 0, 3, 2, 4, 3, 4, 3, 3 |
| Abilities.NewAbility | src/lib/gameLogic/abilities/Ability.ts:5-13 | a new ability is ready (counter 0) and stores its fields |
| Abilities.IsReady | src/lib/gameLogic/abilities/Ability.ts:16-18 | with a non-negative counter, an ability is ready exactly when a passing turn leaves it unchanged |
| Abilities.Use | src/lib/gameLogic/abilities/Ability.ts:21-34 | fails with the on-cooldown error iff the ability is not ready; otherwise it yields the executor's modifier and sets the counter to the cooldown only when the cooldown is truthy (present and nonzero), changing nothing else |
| Abilities.TickCooldown | src/lib/gameLogic/abilities/Ability.ts:37-41 | a positive counter drops by one, other counters stay, nothing else changes, and a non-negative counter stays non-negative |
| Abilities.TicksCountDown | src/lib/gameLogic/abilities/Ability.ts:37-41 | after n ticks a non-negative counter c reads max(0, c - n) |
| Abilities.CooldownRoundTrip | src/lib/gameLogic/abilities/Ability.ts:16-41 | after a use with cooldown c > 0, the ability is not ready after fewer than c ticks, is ready after exactly c, and stays ready after more |
| AbilityFactory.Create | src/lib/gameLogic/abilities/AbilityFactory.ts:10-25 | fails with the no-executor error iff no executor is registered; otherwise it is a ready ability carrying exactly the definition's fields and the executor of its id |
| AbilityFactory.CreateFromId | src/lib/gameLogic/abilities/AbilityFactory.ts:31-39 | fails with the no-definition error iff the id is not in the table; otherwise it is a ready ability built from a table entry with that id |
| AbilityFactory.CreateMany | src/lib/gameLogic/abilities/AbilityFactory.ts:44-46 | succeeds iff every definition has an executor, giving one ready ability per definition in order; otherwise it fails at a definition without an executor, with every earlier one fine |
| AbilityFactory.CreateManyFromIds | src/lib/gameLogic/abilities/AbilityFactory.ts:51-53 | succeeds iff every id is in the table, giving one ready ability per id in order; otherwise it fails with the no-definition error of the first unknown id, every earlier id being in the table |
| AbilityFactory.CreateFromIdRoundTrip | src/lib/gameLogic/abilities/AbilityFactory.ts:31-39 | building any table entry by its id gives back exactly that definition |
| AbilityFactory.CreatedAbilityIsUsable | src/lib/gameLogic/abilities/AbilityFactory.ts:31-39 | a built ability can be used at once and yields the modifier of the executor registered under its id |
| Characters.NewCharacter | src/lib/gameLogic/characters/Character.svelte.ts:22-30 | the stats are copied, the abilities are stored, and the modifier list starts empty |
| Characters.AddModifier | src/lib/gameLogic/characters/Character.svelte.ts:33-43 | a burn modifier whose id is already present adds its stacks to the first entry with that id, leaving all other entries; any other modifier is appended; stats, id and abilities are untouched |
| Characters.WithoutMembers | src/lib/gameLogic/characters/Character.svelte.ts:46-48 | the filter keeps a modifier iff it was present and has another id, and is the identity when no entry has the id |
| Characters.RemoveModifier | src/lib/gameLogic/characters/Character.svelte.ts:46-48 | the result holds exactly the modifiers whose id differs; nothing else changes; removing an absent id is the identity |
| Characters.WithoutConcat | src/lib/gameLogic/characters/Character.svelte.ts:46-48 | filtering by id distributes over list concatenation |
| Characters.ModifierListKeepsBurnIdsUnique | src/lib/gameLogic/characters/Character.svelte.ts:33-48 | adding and removing modifiers never produce two burn entries with the same id |
| Characters.AddModifierKeepsEffectiveStats | src/lib/gameLogic/characters/Character.svelte.ts:53-57 | effective stats are the current stats, so adding a modifier (a hat, say) does not change them |
| Characters.EffectiveStats | src/lib/gameLogic/characters/Character.svelte.ts:53-57 | the effective stats are a copy of the current stats; attached modifiers are not folded in |
| Characters.ApplyEffect | src/lib/gameLogic/abilities/Modifier.ts:68-70 | applying an effect keeps the context's type and the character's identity, modifiers and abilities; only the shield changes max health; only re-entering effects can fail, and only by exhausting the call depth |
| Characters.Apply | src/lib/gameLogic/abilities/Modifier.ts:68-70 | applying a modifier keeps the context's type and the character's identity, modifiers and abilities; it cannot fail unless its effect re-enters the pipeline on an unsettled character |
| Characters.RunModifiers | src/lib/gameLogic/characters/Character.svelte.ts:60-67 | a pass over a list where nothing fires changes nothing; a settled list never fails; the context keeps its type |
| Characters.ProcessModifiers | src/lib/gameLogic/characters/Character.svelte.ts:60-67 | as for the pass over the character's own modifier list at full call depth |
| Characters.TakeDamage | src/lib/gameLogic/characters/Character.svelte.ts:86-103 | health never goes below zero; with no DAMAGE modifier firing it drops by the amount, floored at 0; a settled character never fails |
| Characters.Heal | src/lib/gameLogic/characters/Character.svelte.ts:106-119 | health never exceeds max health; with no HEAL modifier firing it rises by the amount, capped at max health; a settled character never fails |
| Characters.TakeDamageCommitsRewrittenDamage | src/lib/gameLogic/characters/Character.svelte.ts:60-103 | `takeDamage` applies, in list order, exactly the modifiers that fire on DAMAGE, then commits the damage left in the rewritten context to the character they left behind, floored at zero; it fails exactly when one of those effects fails |
| Characters.HealCommitsRewrittenAmount | src/lib/gameLogic/characters/Character.svelte.ts:60-119 | `heal` applies, in list order, exactly the modifiers that fire on HEAL, then commits the amount left in the rewritten context, capped by the max health they left; it fails exactly when one of those effects fails |
| Characters.PlainDamageKeepsStatsInvariant | src/lib/gameLogic/characters/Character.svelte.ts:86-103 | with nothing firing, non-negative damage removes min(amount, health) and keeps 0 <= health <= maxHealth |
| Characters.PlainHealKeepsStatsInvariant | src/lib/gameLogic/characters/Character.svelte.ts:106-119 | with nothing firing, a non-negative heal adds min(amount, missing health) and keeps 0 <= health <= maxHealth |
| Characters.UseAbility | src/lib/gameLogic/characters/Character.svelte.ts:122-129 | an unknown ability id fails with not-found; otherwise the first ability with the id is used, its cooldown change is written back in place, and its error or modifier is passed through |
| Characters.TickCooldowns | src/lib/gameLogic/characters/Character.svelte.ts:132-136 | every ability is ticked once, in place, and nothing else changes |
| Characters.TickCooldownsProgress | src/lib/gameLogic/characters/Character.svelte.ts:132-136 | each non-negative counter moves to max(0, c - 1) |
| Characters.FirstAlive | src/lib/gameLogic/GameEngine.svelte.ts:187 | the index of the first living character, and none iff every character is dead |
| Characters.QuietDamageKillsIff | src/lib/gameLogic/characters/Character.svelte.ts:139-141 | with nothing firing on DAMAGE, the character is alive after the hit exactly when its health exceeded the damage, and non-negative damage never revives a dead character |
| Characters.ProcessModifiersOnModifier | src/lib/gameLogic/characters/Character.svelte.ts:70-83 | the new modifier is returned unchanged, since no effect in the game targets a modifier; with no on_modifier_added modifier the context is also untouched |
| Characters.RunModifiersAppliesFired | src/lib/gameLogic/characters/Character.svelte.ts:60-67 | a pass is the same as applying, in list order, exactly the modifiers that fire on the context |
| Characters.FiredDependsOnKind | src/lib/gameLogic/abilities/Modifier.ts:26-56 | which modifiers fire depends only on the context's type, not on its target or amounts |
| Characters.ActionContextsAreInert | src/lib/gameLogic/abilities/Modifier.ts:26-56 | on an ATTACK, BUFF or DEBUFF context no modifier fires, so the pass returns the character and context unchanged |
| Characters.LightUpTwiceStacks | src/lib/gameLogic/characters/Character.svelte.ts:33-43 | using light_up twice leaves a single `burn_light_up` entry with 10 stacks |
| Hats.Hat | src/lib/gameLogic/hatDefinitions.ts:12-27 | a hat's modifier has id `hat_<key>`, is `on_trigger` on its context, has one stack and no duration, and never looks like a burn |
| Hats.HatRule | src/lib/gameLogic/hatDefinitions.ts:11-266 | a hat's trigger and effect exist exactly for the ids 1 to 16, and none of the effects re-enters the damage or heal pipeline |
| Hats.HatRowOf | src/lib/gameLogic/hatDefinitions.ts:11-266 | the registry has a row exactly for the ids 1 to 16, and no hat effect re-enters the pipeline |
| Hats.GetHatDefinition | src/lib/gameLogic/hatDefinitions.ts:271-273 | a definition exists iff 1 <= id <= 16, and every definition is a well-shaped, non-re-entering, non-burn `on_trigger` hat |
| Hats.ReaddingHatDuplicates | src/lib/gameLogic/characters/Character.svelte.ts:33-43 | adding the same hat twice appends it twice, since only burn ids stack |
| Hats.AttackHatsAreInert | src/lib/gameLogic/hatDefinitions.ts:12-219 | the six ATTACK hats (1, 5, 6, 11, 13, 16) never fire on any context |
| Hats.DamageReductionHats | src/lib/gameLogic/hatDefinitions.ts:43-235 | hats 3, 10, 12 and 14 lower a DAMAGE context's damage by 2, 1, 3 and 5, floored at 0, and touch nothing else |
| Hats.DamageThroughReductionHat | src/lib/gameLogic/characters/Character.svelte.ts:86-103 | a character wearing only a reduction hat loses max(0, amount - k) health, floored at 0 |
| Hats.SelfHealHats | src/lib/gameLogic/hatDefinitions.ts:28-249 | hats 2, 4, 7, 9 and 15 raise the wearer's health by 2, 2, 1, 1 and 4, capped at max health, and leave the context alone |
| Hats.PinkBowBoostsHeal | src/lib/gameLogic/hatDefinitions.ts:125-140 | hat 8 adds 3 to a HEAL context's amount and leaves the character alone |
| Hats.HealThroughPinkBow | src/lib/gameLogic/characters/Character.svelte.ts:106-119 | a character wearing only hat 8 is healed by amount + 3, capped at max health |
| Hats.WizardDoublesAttack | src/lib/gameLogic/hatDefinitions.ts:12-27 | hat 1 applied to an ATTACK context doubles its damage and leaves the wearer alone |
| Hats.BunnyEarsDoubleWhenLow | src/lib/gameLogic/hatDefinitions.ts:92-110 | hat 6 doubles ATTACK damage exactly when the wearer's health is at most half of max health, rounded down, and leaves the wearer alone |
| Hats.RedBaseballAtFullHealth | src/lib/gameLogic/hatDefinitions.ts:73-91 | hat 5 adds 5 to ATTACK damage exactly when the wearer is at full health, and leaves the wearer alone |
| PopulateContext.Fifth | src/lib/gameLogic/populateContext.ts:42 | the result is x / 5 rounded down: 5r <= x < 5r + 5 |
| PopulateContext.FriendlyTarget | src/lib/gameLogic/populateContext.ts:39 | the explicit target if given; else the first living hero if there is one; else the source |
| PopulateContext.Populate | src/lib/gameLogic/populateContext.ts:15-115 | the context has the ability's type; it fails with no-target exactly for ATTACK, DEBUFF and DAMAGE when neither a target nor an enemy is given; BUFF and DEBUFF name the attack stat, last 3 turns and carry a floored fifth of the source's attack; BUFF aims at the friendly target; HEAL aims at the friendly target, the explicit one when given, and carries a floored fifth of the source's max health |
| PopulateContext.OffensiveTargeting | src/lib/gameLogic/populateContext.ts:25-87 | offensive contexts aim at the explicit target, else at the enemy; they carry the source's attack (a floored fifth of it for DEBUFF), and DAMAGE names the source |
| PopulateContext.FriendlyTargeting | src/lib/gameLogic/populateContext.ts:37-59 | without a target, HEAL and BUFF aim at the first living hero, or at the source when every hero is dead; the heal amount is a floored fifth of max health |
| PopulateContext.TurnContextsNameSource | src/lib/gameLogic/populateContext.ts:89-101 | turn contexts always succeed, name the source, and ignore target, heroes and enemy |
| CharacterFromDb.NatToStringRoundTrip | src/lib/gameLogic/createCharacterFromDb.ts:29 | reading back the decimal digits of n gives n |
| CharacterFromDb.IntToString | src/lib/gameLogic/createCharacterFromDb.ts:29 | `id.toString()` is the canonical decimal string: a minus sign exactly for a negative id, then only decimal digits, with no leading zero except for "0" itself |
| CharacterFromDb.IntToStringRoundTrip | src/lib/gameLogic/createCharacterFromDb.ts:29 | reading back `id.toString()` gives the row id, including for negatives |
| CharacterFromDb.IntToStringInjective | src/lib/gameLogic/createCharacterFromDb.ts:29 | distinct row ids give distinct character ids |
| CharacterFromDb.CreateCharacterFromDb | src/lib/gameLogic/createCharacterFromDb.ts:26-49 | the id is the row id's canonical decimal string and parses back to the row id; the name is the type's name; the stats are as stored; there are no abilities; the modifier list is the hat's modifier exactly when a nonzero, known hat id is present, and empty otherwise |
| CharacterFromDb.FromDbIsSettled | src/lib/gameLogic/createCharacterFromDb.ts:26-49 | a built character's modifiers never re-enter the pipeline and have unique burn ids |
| Burn.BurnEntries | src/lib/gameLogic/GameEngine.svelte.ts:231 | the snapshot holds only burn modifiers, each paired with the position it occupies in the list |
| Burn.BurnEntriesComplete | src/lib/gameLogic/GameEngine.svelte.ts:231 | the snapshot misses no burn: every burn entry appears in it with its position |
| Burn.LoweringTracks | src/lib/gameLogic/GameEngine.svelte.ts:237 | lowering the pending burn's stacks in place keeps every later snapshot entry pointing at a burn, keeps the non-burn modifiers both ways, and keeps a settled list settled |
| Burn.RemovalTracks | src/lib/gameLogic/GameEngine.svelte.ts:239-241 | removing the spent burn by id keeps every later snapshot entry that still exists pointing at a burn |
| Burn.BurnLoop | src/lib/gameLogic/GameEngine.svelte.ts:230-243 | the loop over the burn snapshot keeps id, name, abilities and every non-burn modifier, and adds no non-burn modifier; an empty snapshot changes nothing; a settled character never fails and stays settled |
| Burn.BurnPass | src/lib/gameLogic/GameEngine.svelte.ts:230-243 | a character without burns is unchanged; non-burn modifiers survive both ways; a settled character never fails and stays settled |
| Burn.OneBurnStep | src/lib/gameLogic/GameEngine.svelte.ts:232-242 | a lone plain burn of s > 0 stacks deals s damage, floored at 0, and keeps s - 1 stacks, or is removed at s = 1 |
| Burn.BurnTotalClosedForm | src/lib/gameLogic/GameEngine.svelte.ts:233-237 | n passes of a burn starting at s stacks deal s + (s-1) + ... + (s-n+1) = n(2s - n + 1)/2 |
| Burn.BurnDrains | src/lib/gameLogic/GameEngine.svelte.ts:230-243 | n <= s passes of a lone plain burn deal exactly that total and leave s - n stacks, with the burn removed at 0 |
| Burn.LightUpBurnsOut | src/lib/gameLogic/abilities/abilityDefinitions.ts:192-208 | a fresh light_up burn deals 15 damage over five round ends and then is gone |
| BurnRule.Burned | src/lib/gameLogic/GameEngine.svelte.ts:233-241 | one entry under the burn step: a burn at s > 1 stacks keeps s - 1, a burn at one stack is removed, a burn at zero stacks or below and every other modifier stay |
| BurnRule.BurnDamage | src/lib/gameLogic/GameEngine.svelte.ts:233-234 | the burn step's damage, the sum of the positive stacks of the burn entries, is never negative |
| BurnRule.LoopIsRef | src/lib/gameLogic/GameEngine.svelte.ts:231-242 | the snapshot loop, with its in-place stack updates and removals by id, agrees from every partial state with the loop read position by position off the list |
| BurnRule.RefLoopModifiers | src/lib/gameLogic/GameEngine.svelte.ts:231-242 | the positional loop, when it succeeds, leaves exactly the burned list |
| BurnRule.RefLoopQuiet | src/lib/gameLogic/GameEngine.svelte.ts:231-242 | when nothing fires on DAMAGE the positional loop changes only health, by the pending burn damage floored at zero |
| BurnRule.BurnPassFollowsRule | src/lib/gameLogic/GameEngine.svelte.ts:230-243 | under unique burn ids the burn step leaves the burned list, entry by entry in list order; when nothing fires on DAMAGE it also takes the positive stacks of all burns from health, floored at zero, and changes nothing else |
| BurnRule.BurnedListConcat | src/lib/gameLogic/GameEngine.svelte.ts:231-242 | burning a concatenation burns each part |
| BurnRule.BurnedTagsMembers | src/lib/gameLogic/GameEngine.svelte.ts:231-242 | the positions whose entry the step keeps are exactly those where `Burned` is not empty |
| BurnRule.BurnedListEntries | src/lib/gameLogic/GameEngine.svelte.ts:233-241 | under unique burn ids: a burn at s > 1 stacks is in the result with s - 1; a burn at one stack leaves no entry with its id; every other entry is kept as it is |
| BurnRule.BurnGone | src/lib/gameLogic/GameEngine.svelte.ts:238-241 | under unique burn ids a burn that reaches zero stacks leaves no entry with its id |
| BurnRule.TwoBurns | src/lib/gameLogic/GameEngine.svelte.ts:230-243 | two burns at one and three stacks that nothing reacts to: the first is removed, the second keeps two stacks, and health drops by four, floored at zero |
| GameEngine.NewEngine | src/lib/gameLogic/GameEngine.svelte.ts:17-34 | a new engine is at round start, with no heroes, no enemy, index 0, and the boss not yet acted |
| GameEngine.Initialize | src/lib/gameLogic/GameEngine.svelte.ts:89-97 | fails iff there are more than five heroes; otherwise it stores heroes and enemy, resets phase and index, and keeps the boss-acted flag |
| GameEngine.OnEnemy | src/lib/gameLogic/GameEngine.svelte.ts:104 | the optional enemy is processed when present, and its failure is passed through |
| GameEngine.TurnStart | src/lib/gameLogic/GameEngine.svelte.ts:106-112 | a TURN_START pass on one character: an unchanged frame, no change when nothing fires, and no failure when settled |
| GameEngine.TurnEnd | src/lib/gameLogic/GameEngine.svelte.ts:223-243 | a TURN_END pass followed by the burn pass keeps the identity, abilities and non-burn modifiers, and keeps a settled character settled |
| GameEngine.TurnEndFollowsBurnRule | src/lib/gameLogic/GameEngine.svelte.ts:223-243 | after the TURN_END pass the burn step follows the rule: the modifiers become the burned list; when nothing fires on TURN_END or DAMAGE, health drops by the burn damage, floored at zero, and nothing else changes |
| GameEngine.StartRound | src/lib/gameLogic/GameEngine.svelte.ts:100-118 | every hero and the enemy get their TURN_START pass in order; the phase becomes action at index 0 with the boss not yet acted; a valid engine never fails and stays valid |
| GameEngine.HeroAttack | src/lib/gameLogic/GameEngine.svelte.ts:150-174 | a hero strike keeps phase, index, flag and party size, and keeps a valid engine valid |
| GameEngine.BossAttack | src/lib/gameLogic/GameEngine.svelte.ts:181-213 | a boss strike keeps phase, index, flag and party size, and keeps a valid engine valid |
| GameEngine.EndRound | src/lib/gameLogic/GameEngine.svelte.ts:217-254 | every character gets its TURN_END pass and burn pass in order; the phase becomes round end; a valid engine never fails and stays valid |
| GameEngine.EndRoundFollowsBurnRule | src/lib/gameLogic/GameEngine.svelte.ts:217-254 | at round end every hero and the enemy whose burn ids are unique are left with their burned modifier list |
| GameEngine.ProcessNextAction | src/lib/gameLogic/GameEngine.svelte.ts:124-178 | outside the action phase nothing happens; inside it, the phase stays action with strictly less remaining work, or becomes round end, and always round end once nothing remains; the boss flag is never cleared; a valid engine never fails and stays valid |
| GameEngine.GetCharacterById | src/lib/gameLogic/GameEngine.svelte.ts:269-282 | finds the first hero with the id, else the enemy with it, and nothing iff no one has the id |
| Wrappers.FindIndex | src/lib/gameLogic/GameEngine.svelte.ts:271 | `find` by id (heroes here, and likewise modifiers, abilities and definitions): the index of the first element with the id, and none iff no element has it |
| Wrappers.FindIndexIsFirst | src/lib/gameLogic/GameEngine.svelte.ts:271 | any position holding the id with no earlier one holding it is the position `find` reports |
| Rounds.EndedRoundStays | src/lib/gameLogic/GameEngine.svelte.ts:125-127 | after the round has ended, any number of further calls changes nothing |
| Rounds.RoundCompletes | src/lib/gameLogic/GameEngine.svelte.ts:124-178 | from a valid action phase, the remaining work plus one calls always reach round end, and more calls keep it there |
| Rounds.FullRound | src/lib/gameLogic/GameEngine.svelte.ts:100-178 | after `startRound` on a valid engine, heroes.length + 2 calls always end the round |
| Rounds.BossTurnDoesNotEndRound | src/lib/gameLogic/GameEngine.svelte.ts:130-139 | the boss's turn uses a call of its own that leaves the phase at action, and the following call ends the round |
| Rounds.NoSecondBossTurn | src/lib/gameLogic/GameEngine.svelte.ts:130-139 | once the boss has acted, or is dead or absent, the call past the last hero ends the round |
| Rounds.DeadHeroesSkipped | src/lib/gameLogic/GameEngine.svelte.ts:142-148 | a run of dead heroes is passed over within one call, as if the index had started after them |
| Rounds.HeroTurn | src/lib/gameLogic/GameEngine.svelte.ts:150-177 | a living hero facing a living enemy deals exactly its attack stat through the enemy's `takeDamage`, and the index advances |
| Rounds.HeroTurnAgainstDeadEnemy | src/lib/gameLogic/GameEngine.svelte.ts:150-177 | a living hero facing a dead or absent enemy only advances the index |
| Rounds.BossTurn | src/lib/gameLogic/GameEngine.svelte.ts:181-213 | the boss deals exactly its attack stat to the first living hero through `takeDamage`, or strikes no one when all heroes are dead, and is marked as having acted |
| Rounds.GameOverIsVictoryOrDefeat | src/lib/gameLogic/GameEngine.svelte.ts:257-266 | the game is over iff it is won or lost; a victory is not a defeat; without an enemy it is neither over nor won |
| GameEngine.IsGameOver | src/lib/gameLogic/GameEngine.svelte.ts:256-259 | with an enemy, the game is over exactly when the enemy is dead or there is no first living hero |
| GameEngine.IsVictory | src/lib/gameLogic/GameEngine.svelte.ts:262-265 | a victory is exactly a game over in which some hero is still alive |
| Rounds.HeroesShadowEnemy | src/lib/gameLogic/GameEngine.svelte.ts:269-282 | a hero is found before an enemy that has the same id |
| BossStats.GetBossStats | src/lib/server/db/bossStats.ts:12-31 | the boss starts at full health; level 1 gives 1 health and 2 attack; level 2 gives 6 attack; every level but 1 gives 50 * level health, and every level but 1 and 2 gives 5 * level - 5 attack |
| BossStats.AttackGrowsWithLevel | src/lib/server/db/bossStats.ts:13-22 | attack grows by 4 per level up to level 3 and by 5 per level after that |
| BossStats.HealthGrowsWithLevel | src/lib/server/db/bossStats.ts:24 | health strictly grows with level, by 50 per level from level 2 |
| BossStats.StatsMonotone | src/lib/server/db/bossStats.ts:12-31 | for levels 1 <= a <= b, the level-a boss is no stronger than the level-b boss in attack or health |

## Left out

- Modifier `duration` is stored but never counted down, and nothing expires a modifier. The source does the same.
- `loadHats`, `getHatFilepath` and the hats cache: they are network I/O and display data with no effect on combat.
- The `getInstance` singleton and Svelte's `$state` runes: each engine here is a value.
- The `currentAttack` animation state and its `setTimeout` reset: these are presentation and a timer.
- Ids suffixed with `Date.now()`: the executors take the suffix as a `stamp` parameter.
- Floating-point arithmetic: the floored products `Math.floor(x * 0.2)`, `Math.floor(x * 1.2)`, `Math.floor(x * 1.5)` and `Math.floor(x * 0.5)` are modelled as `x / 5`, `6 * x / 5`, `3 * x / 2` and `x / 2`, floor division on integer stats. Non-integer stats are not modelled.
- JavaScript numbers are IEEE doubles; the model's stats, damage, amounts, stacks and row ids are unbounded integers. They agree with the source only while every value stays a safe integer, |x| <= 2^53. Beyond that range, additions round, `x * 0.2` may not floor to x / 5, and `toString` from 1e21 up switches to exponent form (`1e+21`), none of which is modelled.
- JavaScript's call stack: it is modelled by the depth bound `CallDepth` = 64. A real engine's stack is deeper, so the model reports `CallStackExceeded` earlier on runaway re-entry. For settled characters, which is every character the game builds, the bound is never reached.
- Shared mutable objects:
  - aliasing between the engine's arrays and outside references;
  - a hat modifier object shared by characters wearing the same hat;
  - a context mutated by a caller after the call.

  The model copies values instead. The burn pass's aliasing, the one place it matters, is modelled by tags.
- A thrown error in the middle of a mutating method leaves partly updated state in JavaScript. The model returns `Err` and drops that partial state.
- The `default` branch of `populateContext` (lines 103-113): it is unreachable, since the seven context types are exhaustive.
- Keys inherited from `Object.prototype` in the registry lookups (`abilityExecutors['toString']`, say): the registries are modelled as exact tables.
- `level`, `side`, `characterTypeId` and `imageUrl` of a database row: they are carried in `DbCharacter` but not used by `createCharacterFromDb`.
- Behaviour that the code does not have, so the model does not have it either:
  - cooldown ticking and ability selection inside the engine's round;
  - an `on_ability` trigger, which no `ModifierTrigger` value can carry;
  - a boss turn in the same call as the last hero, since a round takes heroes.length + 2 calls.

  The model follows the code.
- Characters.ProcessModifiersOnModifier: it states only that the new modifier comes back unchanged. The effect closures the game defines do nothing to a modifier object, apart from the hat effects that would throw a `TypeError` on one. No registered modifier has the `on_modifier_added` trigger, so the function never runs an effect in the game.
- The animation engine, the HTTP routes, the database seeding and zod's runtime validation: these are outside the combat core.
