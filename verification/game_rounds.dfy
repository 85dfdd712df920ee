/**
 * How rounds unfold under repeated `processNextAction` calls
 * (src/lib/gameLogic/GameEngine.svelte.ts): every round ends, dead heroes are
 * passed over, heroes strike with their plain attack, the boss strikes once,
 * and the game-over predicates agree.
 */
module Rounds {
  import opened Wrappers
  import opened Types
  import opened Modifiers
  import opened Characters
  import opened GameEngine

  /** `n` calls of `processNextAction`, stopping at the first failure. */
  function Steps(e: Engine, n: nat): Outcome<Engine>
    decreases n
  {
    if n == 0 then Ok(e)
    else
      var e' :- ProcessNextAction(e);
      Steps(e', n - 1)
  }

  /** Once a round has ended, further calls change nothing until the next `startRound`. */
  lemma {:induction false} EndedRoundStays(e: Engine, n: nat)
    requires e.phase == RoundEnd
    ensures Steps(e, n) == Ok(e)
    decreases n
  {
    if n > 0 {
      EndedRoundStays(e, n - 1);
    }
  }

  /**
   * From a valid action phase, `Remaining(e) + 1` calls end the round, and any
   * further calls leave it ended.
   */
  lemma {:induction false} RoundCompletes(e: Engine, extra: nat)
    requires Valid(e) && e.phase == Action
    ensures Steps(e, Remaining(e) + 1 + extra).Ok?
    ensures Steps(e, Remaining(e) + 1 + extra).value.phase == RoundEnd
    decreases Remaining(e)
  {
    var e' := ProcessNextAction(e).value;
    assert Steps(e, Remaining(e) + 1 + extra) == Steps(e', Remaining(e) + extra);
    if e'.phase == RoundEnd {
      EndedRoundStays(e', Remaining(e) + extra);
    } else {
      RoundCompletes(e', Remaining(e) - Remaining(e') - 1 + extra);
    }
  }

  /**
   * A whole round: after `startRound` on a valid engine, `heroes.length + 2`
   * calls of `processNextAction` always reach the round-end phase.
   */
  lemma FullRound(e: Engine)
    requires Valid(e)
    ensures StartRound(e).Ok?
    ensures Steps(StartRound(e).value, |e.heroes| + 2).Ok?
    ensures Steps(StartRound(e).value, |e.heroes| + 2).value.phase == RoundEnd
  {
    var s := StartRound(e).value;
    assert Remaining(s) == |e.heroes| + 1;
    RoundCompletes(s, 0);
  }

  /**
   * The boss's turn is a call of its own: it leaves the phase at action with
   * the boss marked as having acted, so ending the round takes one more call.
   */
  lemma BossTurnDoesNotEndRound(e: Engine)
    requires Valid(e) && e.phase == Action && e.heroIndex >= |e.heroes|
    requires !e.bossActed && e.enemy.Some? && IsAlive(e.enemy.value)
    ensures ProcessNextAction(e).Ok?
    ensures ProcessNextAction(e).value.phase == Action && ProcessNextAction(e).value.bossActed
    ensures ProcessNextAction(ProcessNextAction(e).value) == EndRound(ProcessNextAction(e).value)
  {
  }

  /** After the boss has acted, or with the boss dead or absent, the next call past the last hero ends the round. */
  lemma NoSecondBossTurn(e: Engine)
    requires e.phase == Action && e.heroIndex >= |e.heroes|
    requires e.bossActed || e.enemy.None? || !IsAlive(e.enemy.value)
    ensures ProcessNextAction(e) == EndRound(e)
  {
  }

  /**
   * Dead heroes are passed over within the same call: when every hero from the
   * current index up to `j` is dead, the call behaves as if it started at `j`.
   */
  lemma {:induction false} DeadHeroesSkipped(e: Engine, j: nat)
    requires e.phase == Action && e.heroIndex <= j <= |e.heroes|
    requires forall k :: e.heroIndex <= k < j ==> !IsAlive(e.heroes[k])
    ensures ProcessNextAction(e) == ProcessNextAction(e.(heroIndex := j))
    decreases j - e.heroIndex
  {
    if e.heroIndex < j {
      var next := e.(heroIndex := e.heroIndex + 1);
      assert !IsAlive(e.heroes[e.heroIndex]);
      assert ProcessNextAction(e) == ProcessNextAction(next);
      DeadHeroesSkipped(next, j);
      assert next.(heroIndex := j) == e.(heroIndex := j);
    }
  }

  /**
   * A living hero's turn against a living enemy: no modifier fires on the
   * ATTACK context, so the enemy takes exactly the hero's attack stat through
   * `takeDamage`, the heroes are unchanged, and the turn passes on.
   */
  lemma HeroTurn(e: Engine)
    requires e.phase == Action && e.heroIndex < |e.heroes| && IsAlive(e.heroes[e.heroIndex])
    requires e.enemy.Some? && IsAlive(e.enemy.value)
    ensures var hero := e.heroes[e.heroIndex];
            var hit := TakeDamage(e.enemy.value, hero.stats.attack, hero.id);
            ProcessNextAction(e) ==
              if hit.Ok? then Ok(e.(enemy := Some(hit.value), heroIndex := e.heroIndex + 1)) else Err(hit.error)
  {
    var hero := e.heroes[e.heroIndex];
    ActionContextsAreInert(hero, AttackCtx(e.enemy.value.id, hero.stats.attack));
    assert e.heroes[e.heroIndex := hero] == e.heroes;
  }

  /** A living hero facing a dead enemy does nothing but pass the turn on. */
  lemma HeroTurnAgainstDeadEnemy(e: Engine)
    requires e.phase == Action && e.heroIndex < |e.heroes| && IsAlive(e.heroes[e.heroIndex])
    requires e.enemy.None? || !IsAlive(e.enemy.value)
    ensures ProcessNextAction(e) == Ok(e.(heroIndex := e.heroIndex + 1))
  {
  }

  /**
   * The boss's turn: the first living hero takes exactly the boss's attack stat
   * through `takeDamage`; the other heroes and the boss are unchanged. With no
   * living hero nothing is struck, but the turn is still spent.
   */
  lemma BossTurn(e: Engine)
    requires e.phase == Action && e.heroIndex >= |e.heroes|
    requires !e.bossActed && e.enemy.Some? && IsAlive(e.enemy.value)
    ensures FirstAlive(e.heroes).None? ==> ProcessNextAction(e) == Ok(e.(bossActed := true))
    ensures FirstAlive(e.heroes).Some? ==>
              var i := FirstAlive(e.heroes).value;
              var hit := TakeDamage(e.heroes[i], e.enemy.value.stats.attack, e.enemy.value.id);
              ProcessNextAction(e) ==
                if hit.Ok? then Ok(e.(heroes := e.heroes[i := hit.value], bossActed := true)) else Err(hit.error)
  {
    var boss := e.enemy.value;
    if FirstAlive(e.heroes).Some? {
      var i := FirstAlive(e.heroes).value;
      ActionContextsAreInert(boss, AttackCtx(e.heroes[i].id, boss.stats.attack));
    }
  }

  /** All heroes are dead while an enemy is present. */
  predicate IsDefeat(e: Engine) {
    e.enemy.Some? && forall h :: h in e.heroes ==> !IsAlive(h)
  }

  /**
   * The game is over exactly when it is won or lost; a victory is a game over;
   * and without an enemy the game is neither over nor won.
   */
  lemma GameOverIsVictoryOrDefeat(e: Engine)
    ensures IsGameOver(e) <==> IsVictory(e) || IsDefeat(e)
    ensures IsVictory(e) ==> IsGameOver(e) && !IsDefeat(e)
    ensures e.enemy.None? ==> !IsGameOver(e) && !IsVictory(e)
  {
  }

  /** Inside a hero's list, `getCharacterById` finds the hero before looking at the enemy. */
  lemma HeroesShadowEnemy(e: Engine, i: nat)
    requires i < |e.heroes| && e.enemy.Some? && e.enemy.value.id == e.heroes[i].id
    requires forall j :: 0 <= j < i ==> e.heroes[j].id != e.heroes[i].id
    ensures GetCharacterById(e, e.heroes[i].id) == Some(e.heroes[i])
  {
  }
}
