/**
 * The round state machine (src/lib/gameLogic/GameEngine.svelte.ts): up to five
 * heroes and one enemy; a round opens with a TURN_START pass, then every call of
 * `processNextAction` lets the next living hero strike the enemy with a plain
 * attack, then lets the boss strike the first living hero once, then closes the
 * round with a TURN_END pass and the burn step.
 *
 * The singleton engine is a value here and every operation returns the next
 * engine; the animation bookkeeping (`currentAttack`, its timer) and the hat
 * image cache are not part of the state.
 */
module GameEngine {
  import opened Wrappers
  import opened Types
  import opened Modifiers
  import opened Characters
  import opened Burn
  import opened BurnRule

  /** `GamePhase`. */
  datatype Phase = RoundStart | Action | RoundEnd

  /** The engine's game state; `heroIndex` is `currentHeroIndex`. */
  datatype Engine = Engine(
    phase: Phase,
    heroes: seq<Character>,
    enemy: Option<Character>,
    heroIndex: nat,
    bossActed: bool)

  const MaxHeroes: nat := 5

  /**
   * No modifier of any character re-enters the damage pipeline: every engine
   * step then completes without exhausting the call stack.
   */
  predicate Valid(e: Engine) {
    && (forall i :: 0 <= i < |e.heroes| ==> Settled(e.heroes[i].modifiers))
    && (e.enemy.Some? ==> Settled(e.enemy.value.modifiers))
  }

  /** The state right after construction. */
  function NewEngine(): (e: Engine)
    ensures e.phase == RoundStart && e.heroes == [] && e.enemy.None? && e.heroIndex == 0 && !e.bossActed
  {
    Engine(RoundStart, [], None, 0, false)
  }

  /**
   * `initialize(heroes, enemy)`: more than five heroes is an error; otherwise the
   * cast is replaced and the round state reset, except `bossActed`, which only
   * `startRound` clears.
   */
  function Initialize(e: Engine, heroes: seq<Character>, enemy: Character): (r: Outcome<Engine>)
    ensures r.Err? <==> |heroes| > MaxHeroes
    ensures r.Err? ==> r.error == TooManyHeroes
    ensures r.Ok? ==> r.value.heroes == heroes && r.value.enemy == Some(enemy)
    ensures r.Ok? ==> r.value.phase == RoundStart && r.value.heroIndex == 0 && r.value.bossActed == e.bossActed
  {
    if |heroes| > MaxHeroes then Err(TooManyHeroes)
    else Ok(e.(heroes := heroes, enemy := Some(enemy), phase := RoundStart, heroIndex := 0))
  }

  /** Runs a per-character step on the enemy, when there is one. */
  function OnEnemy(f: Character -> Outcome<Character>, enemy: Option<Character>): (r: Outcome<Option<Character>>)
    ensures enemy.None? ==> r == Ok(None)
    ensures enemy.Some? ==> (r.Ok? <==> f(enemy.value).Ok?)
    ensures enemy.Some? && r.Ok? ==> r.value == Some(f(enemy.value).value)
    ensures enemy.Some? && r.Err? ==> r.error == f(enemy.value).error
  {
    match enemy
    case None => Ok(None)
    case Some(c) =>
      var c' :- f(c);
      Ok(Some(c'))
  }

  /** The TURN_START pass over one character: `processModifiers({type: TURN_START, characterId})`. */
  function TurnStart(c: Character): (r: Outcome<Character>)
    ensures r.Ok? ==> SameFrame(r.value, c)
    ensures Quiet(c.modifiers, TurnStartCtx(c.id)) ==> r == Ok(c)
    ensures Settled(c.modifiers) ==> r.Ok?
  {
    var p :- ProcessModifiers(c, TurnStartCtx(c.id));
    Ok(p.ch)
  }

  /** The TURN_END pass over one character, then its burn step. */
  function TurnEnd(c: Character): (r: Outcome<Character>)
    ensures r.Ok? ==> r.value.id == c.id && r.value.name == c.name && r.value.abilities == c.abilities
    ensures r.Ok? ==> forall m :: m in c.modifiers && !IsBurnId(m.id) ==> m in r.value.modifiers
    ensures r.Ok? ==> forall m :: m in r.value.modifiers && !IsBurnId(m.id) ==> m in c.modifiers
    ensures Settled(c.modifiers) ==> r.Ok? && Settled(r.value.modifiers)
  {
    var p :- ProcessModifiers(c, TurnEndCtx(c.id));
    BurnPass(p.ch)
  }

  /**
   * The burn rule through the TURN_END pass: the pass leaves the modifier list
   * alone, so the burn step applies the rule to the character's own list; when
   * nothing fires on TURN_END or DAMAGE, only the health changes, by the burn damage.
   */
  lemma TurnEndFollowsBurnRule(c: Character)
    requires BurnIdsUnique(c.modifiers)
    ensures TurnEnd(c).Ok? ==> TurnEnd(c).value.modifiers == BurnedList(c.modifiers)
    ensures Quiet(c.modifiers, TurnEndCtx(c.id)) && IgnoresDamage(c.modifiers) ==>
              TurnEnd(c) == Ok(WithHealth(c, HealthAfter(c.stats.health, BurnDamage(c.modifiers))).(modifiers := BurnedList(c.modifiers)))
  {
    var p := ProcessModifiers(c, TurnEndCtx(c.id));
    if p.Ok? {
      BurnPassFollowsRule(p.value.ch);
    }
  }

  /**
   * `startRound`: TURN_START for every hero, then the enemy; then the action
   * phase begins at the first hero with the boss yet to act.
   */
  function StartRound(e: Engine): (r: Outcome<Engine>)
    ensures r.Ok? ==> r.value.phase == Action && r.value.heroIndex == 0 && !r.value.bossActed
    ensures r.Ok? ==> |r.value.heroes| == |e.heroes|
                      && (forall i :: 0 <= i < |e.heroes| ==> TurnStart(e.heroes[i]) == Ok(r.value.heroes[i]))
    ensures r.Ok? ==> r.value.enemy.Some? == e.enemy.Some?
                      && (e.enemy.Some? ==> TurnStart(e.enemy.value) == Ok(r.value.enemy.value))
    ensures r.Err? ==> r.error == CallStackExceeded
    ensures Valid(e) ==> r.Ok? && Valid(r.value)
  {
    var heroes :- MapResult(TurnStart, e.heroes);
    var enemy :- OnEnemy(TurnStart, e.enemy);
    Ok(Engine(Action, heroes, enemy, 0, false))
  }

  /** The hero at `heroIndex` strikes the enemy, if the enemy is alive. */
  function HeroAttack(e: Engine): (r: Outcome<Engine>)
    requires e.heroIndex < |e.heroes|
    ensures r.Ok? ==> r.value.phase == e.phase && r.value.heroIndex == e.heroIndex && r.value.bossActed == e.bossActed
    ensures r.Ok? ==> |r.value.heroes| == |e.heroes| && r.value.enemy.Some? == e.enemy.Some?
    ensures Valid(e) ==> r.Ok? && Valid(r.value)
  {
    if e.enemy.Some? && IsAlive(e.enemy.value) then
      var hero := e.heroes[e.heroIndex];
      var enemy := e.enemy.value;
      var p :- ProcessModifiers(hero, AttackCtx(enemy.id, EffectiveStats(hero).attack));
      var hit :- TakeDamage(enemy, p.ctx.damage, hero.id);
      Ok(e.(heroes := e.heroes[e.heroIndex := p.ch], enemy := Some(hit)))
    else Ok(e)
  }

  /** `processBossAction`: a living boss strikes the first living hero, if there is one. */
  function BossAttack(e: Engine): (r: Outcome<Engine>)
    ensures r.Ok? ==> r.value.phase == e.phase && r.value.heroIndex == e.heroIndex && r.value.bossActed == e.bossActed
    ensures r.Ok? ==> |r.value.heroes| == |e.heroes| && r.value.enemy.Some? == e.enemy.Some?
    ensures Valid(e) ==> r.Ok? && Valid(r.value)
  {
    if e.enemy.None? || !IsAlive(e.enemy.value) then Ok(e)
    else match FirstAlive(e.heroes)
      case None => Ok(e)
      case Some(i) =>
        var boss := e.enemy.value;
        var target := e.heroes[i];
        var p :- ProcessModifiers(boss, AttackCtx(target.id, EffectiveStats(boss).attack));
        var hit :- TakeDamage(target, p.ctx.damage, boss.id);
        Ok(e.(heroes := e.heroes[i := hit], enemy := Some(p.ch)))
  }

  /** `endRound`: TURN_END and the burn step for every hero, then the enemy; the phase becomes round-end. */
  function EndRound(e: Engine): (r: Outcome<Engine>)
    ensures r.Ok? ==> r.value.phase == RoundEnd && r.value.heroIndex == e.heroIndex && r.value.bossActed == e.bossActed
    ensures r.Ok? ==> |r.value.heroes| == |e.heroes|
                      && (forall i :: 0 <= i < |e.heroes| ==> TurnEnd(e.heroes[i]) == Ok(r.value.heroes[i]))
    ensures r.Ok? ==> r.value.enemy.Some? == e.enemy.Some?
                      && (e.enemy.Some? ==> TurnEnd(e.enemy.value) == Ok(r.value.enemy.value))
    ensures Valid(e) ==> r.Ok? && Valid(r.value)
  {
    var heroes :- MapResult(TurnEnd, e.heroes);
    var enemy :- OnEnemy(TurnEnd, e.enemy);
    Ok(e.(phase := RoundEnd, heroes := heroes, enemy := enemy))
  }

  /** `endRound` applies the burn rule to every hero and to the enemy whose burn ids are unique. */
  lemma EndRoundFollowsBurnRule(e: Engine)
    ensures EndRound(e).Ok? ==>
              forall i :: 0 <= i < |e.heroes| && BurnIdsUnique(e.heroes[i].modifiers) ==>
                EndRound(e).value.heroes[i].modifiers == BurnedList(e.heroes[i].modifiers)
    ensures EndRound(e).Ok? && e.enemy.Some? && BurnIdsUnique(e.enemy.value.modifiers) ==>
              EndRound(e).value.enemy.value.modifiers == BurnedList(e.enemy.value.modifiers)
  {
    if EndRound(e).Ok? {
      forall i | 0 <= i < |e.heroes| && BurnIdsUnique(e.heroes[i].modifiers)
        ensures EndRound(e).value.heroes[i].modifiers == BurnedList(e.heroes[i].modifiers)
      {
        TurnEndFollowsBurnRule(e.heroes[i]);
      }
      if e.enemy.Some? && BurnIdsUnique(e.enemy.value.modifiers) {
        TurnEndFollowsBurnRule(e.enemy.value);
      }
    }
  }

  /**
   * What is left of the action phase: the heroes still to come plus the boss's
   * turn if it has not been taken. Every call that does not end the round
   * lowers it.
   */
  function Remaining(e: Engine): nat {
    (if e.heroIndex < |e.heroes| then |e.heroes| - e.heroIndex else 0) + (if e.bossActed then 0 else 1)
  }

  /**
   * `processNextAction`. Outside the action phase nothing happens. Past the last
   * hero, a living boss that has not acted takes its turn; otherwise the round
   * ends. A dead hero is skipped within the same call; a living hero strikes
   * and the turn passes to the next index.
   */
  function ProcessNextAction(e: Engine): (r: Outcome<Engine>)
    ensures e.phase != Action ==> r == Ok(e)
    ensures r.Ok? && e.phase == Action ==> r.value.phase == Action || r.value.phase == RoundEnd
    ensures r.Ok? && e.phase == Action && r.value.phase == Action ==> Remaining(r.value) < Remaining(e)
    ensures r.Ok? && e.phase == Action && Remaining(e) == 0 ==> r.value.phase == RoundEnd
    ensures r.Ok? && e.bossActed ==> r.value.bossActed
    ensures r.Ok? ==> |r.value.heroes| == |e.heroes| && r.value.enemy.Some? == e.enemy.Some?
    ensures Valid(e) ==> r.Ok? && Valid(r.value)
    decreases |e.heroes| - e.heroIndex
  {
    if e.phase != Action then Ok(e)
    else if e.heroIndex >= |e.heroes| then
      if !e.bossActed && e.enemy.Some? && IsAlive(e.enemy.value) then
        var e' :- BossAttack(e);
        Ok(e'.(bossActed := true))
      else EndRound(e)
    else if !IsAlive(e.heroes[e.heroIndex]) then
      ProcessNextAction(e.(heroIndex := e.heroIndex + 1))
    else
      var e' :- HeroAttack(e);
      Ok(e'.(heroIndex := e.heroIndex + 1))
  }

  /** `isGameOver`: with an enemy, the enemy is dead or no hero is alive. */
  predicate IsGameOver(e: Engine)
    ensures IsGameOver(e) <==> e.enemy.Some? && (!IsAlive(e.enemy.value) || FirstAlive(e.heroes).None?)
  {
    e.enemy.Some? && (!IsAlive(e.enemy.value) || forall h :: h in e.heroes ==> !IsAlive(h))
  }

  /** `isVictory`: with an enemy, the enemy is dead and some hero is alive. */
  predicate IsVictory(e: Engine)
    ensures IsVictory(e) <==> IsGameOver(e) && FirstAlive(e.heroes).Some?
  {
    e.enemy.Some? && !IsAlive(e.enemy.value) && exists h :: h in e.heroes && IsAlive(h)
  }

  /** `getCharacterById`: the first hero with the id, else the enemy if it has it. */
  function GetCharacterById(e: Engine, id: string): (r: Option<Character>)
    ensures r.Some? ==> r.value.id == id && (r.value in e.heroes || e.enemy == Some(r.value))
    ensures r.None? <==> (forall h :: h in e.heroes ==> h.id != id) && (e.enemy.None? || e.enemy.value.id != id)
    ensures forall i :: 0 <= i < |e.heroes| && e.heroes[i].id == id && (forall j :: 0 <= j < i ==> e.heroes[j].id != id)
              ==> r == Some(e.heroes[i])
  {
    match FindIndex(e.heroes, (h: Character) => h.id, id)
    case Some(i) => Some(e.heroes[i])
    case None => if e.enemy.Some? && e.enemy.value.id == id then e.enemy else None
  }
}
