/**
 * Building the context an ability runs on, from its expected context tag, the
 * acting character and the candidate targets
 * (src/lib/gameLogic/populateContext.ts).
 *
 * The optional target and the optional enemy are `Option`s; the thrown
 * "No target available" errors are `Err(NoTarget(tag))`.
 */
module PopulateContext {
  import opened Wrappers
  import opened Types
  import opened Abilities
  import opened Characters

  /** `x ?? y` on optional characters. */
  function OrElse(x: Option<Character>, y: Option<Character>): Option<Character> {
    if x.Some? then x else y
  }

  /** A fifth, rounded down: `Math.floor(x * 0.2)`. */
  function Fifth(x: int): (r: int)
    ensures 5 * r <= x < 5 * r + 5
  {
    x / 5
  }

  /**
   * The target of a friendly ability (HEAL, BUFF): the explicit target, else the
   * first living hero, else the acting character itself.
   */
  function FriendlyTarget(source: Character, target: Option<Character>, heroes: seq<Character>): (t: Character)
    ensures target.Some? ==> t == target.value
    ensures target.None? && (exists j :: 0 <= j < |heroes| && IsAlive(heroes[j])) ==>
              IsAlive(t) && t in heroes
    ensures target.None? && (forall j :: 0 <= j < |heroes| ==> !IsAlive(heroes[j])) ==> t == source
    ensures target.None? ==> forall k :: 0 <= k < |heroes| && IsAlive(heroes[k]) && (forall j :: 0 <= j < k ==> !IsAlive(heroes[j])) ==>
              t == heroes[k]
  {
    if target.Some? then target.value
    else match FirstAlive(heroes)
      case Some(i) => heroes[i]
      case None => source
  }

  /**
   * `populateContext(ability, source, target, allHeroes, enemy)`. Offensive tags
   * (ATTACK, DEBUFF, DAMAGE) need the explicit target or the enemy; friendly tags
   * (HEAL, BUFF) always find one; turn tags name the acting character.
   */
  function Populate(ability: Ability, source: Character, target: Option<Character>,
                    allHeroes: seq<Character>, enemy: Option<Character>): (r: Outcome<Context>)
    ensures r.Ok? ==> r.value.Kind() == ability.contextType
    ensures r.Err? <==> ability.contextType in {Attack, Debuff, Damage} && target.None? && enemy.None?
    ensures r.Err? ==> r.error == NoTarget(ability.contextType)
    ensures r.Ok? && (r.value.BuffCtx? || r.value.DebuffCtx?) ==>
              && r.value.stat == AttackStat && r.value.duration == Some(3)
              && 5 * r.value.value <= source.stats.attack < 5 * r.value.value + 5
    ensures r.Ok? && r.value.BuffCtx? ==> r.value.target == FriendlyTarget(source, target, allHeroes).id
    ensures r.Ok? && r.value.HealCtx? ==>
              && r.value.target == FriendlyTarget(source, target, allHeroes).id
              && 5 * r.value.amount <= source.stats.maxHealth < 5 * r.value.amount + 5
  {
    var stats := EffectiveStats(source);
    match ability.contextType
    case Attack =>
      var t := OrElse(target, enemy);
      if t.None? then Err(NoTarget(Attack))
      else Ok(AttackCtx(t.value.id, stats.attack))
    case Heal =>
      Ok(HealCtx(FriendlyTarget(source, target, allHeroes).id, Fifth(stats.maxHealth)))
    case Buff =>
      Ok(BuffCtx(FriendlyTarget(source, target, allHeroes).id, AttackStat, Fifth(stats.attack), Some(3)))
    case Debuff =>
      var t := OrElse(target, enemy);
      if t.None? then Err(NoTarget(Debuff))
      else Ok(DebuffCtx(t.value.id, AttackStat, Fifth(stats.attack), Some(3)))
    case Damage =>
      var t := OrElse(target, enemy);
      if t.None? then Err(NoTarget(Damage))
      else Ok(DamageCtx(t.value.id, stats.attack, source.id))
    case TurnStart =>
      Ok(TurnStartCtx(source.id))
    case TurnEnd =>
      Ok(TurnEndCtx(source.id))
  }

  /** The id a populated context aims at, whatever its tag. */
  function TargetOf(ctx: Context): string {
    match ctx
    case AttackCtx(t, _) => t
    case HealCtx(t, _) => t
    case BuffCtx(t, _, _, _) => t
    case DebuffCtx(t, _, _, _) => t
    case DamageCtx(t, _, _) => t
    case TurnStartCtx(c) => c
    case TurnEndCtx(c) => c
  }

  /**
   * Offensive abilities aim at the explicit target when there is one and at the
   * enemy otherwise, and carry the acting character's attack (a fifth of it for
   * DEBUFF).
   */
  lemma OffensiveTargeting(ability: Ability, source: Character, target: Option<Character>,
                           allHeroes: seq<Character>, enemy: Option<Character>)
    requires ability.contextType in {Attack, Debuff, Damage}
    requires target.Some? || enemy.Some?
    ensures var r := Populate(ability, source, target, allHeroes, enemy);
            && r.Ok?
            && TargetOf(r.value) == (if target.Some? then target.value.id else enemy.value.id)
            && (r.value.AttackCtx? || r.value.DamageCtx? ==> r.value.damage == source.stats.attack)
            && (r.value.DamageCtx? ==> r.value.source == source.id)
            && (r.value.DebuffCtx? ==> 5 * r.value.value <= source.stats.attack < 5 * r.value.value + 5)
  {
  }

  /**
   * Friendly abilities never fail. Without an explicit target they aim at a
   * living hero when one exists, the first one, and at the acting character otherwise; a HEAL
   * restores a fifth of the acting character's maxHealth, rounded down.
   */
  lemma FriendlyTargeting(ability: Ability, source: Character, allHeroes: seq<Character>, enemy: Option<Character>)
    requires ability.contextType in {Heal, Buff}
    ensures var r := Populate(ability, source, None, allHeroes, enemy);
            && r.Ok?
            && ((exists j :: 0 <= j < |allHeroes| && IsAlive(allHeroes[j])) ==>
                  exists h :: h in allHeroes && IsAlive(h) && h.id == TargetOf(r.value))
            && ((forall j :: 0 <= j < |allHeroes| ==> !IsAlive(allHeroes[j])) ==> TargetOf(r.value) == source.id)
            && (forall k :: 0 <= k < |allHeroes| && IsAlive(allHeroes[k]) && (forall j :: 0 <= j < k ==> !IsAlive(allHeroes[j])) ==>
                  TargetOf(r.value) == allHeroes[k].id)
            && (r.value.HealCtx? ==> 5 * r.value.amount <= source.stats.maxHealth < 5 * r.value.amount + 5)
  {
    var t := FriendlyTarget(source, None, allHeroes);
    if exists j :: 0 <= j < |allHeroes| && IsAlive(allHeroes[j]) {
      assert IsAlive(t) && t in allHeroes;
    }
  }

  /** Turn contexts name the acting character and ignore every candidate target. */
  lemma TurnContextsNameSource(ability: Ability, source: Character, target: Option<Character>,
                               allHeroes: seq<Character>, enemy: Option<Character>)
    requires ability.contextType in {TurnStart, TurnEnd}
    ensures var r := Populate(ability, source, target, allHeroes, enemy);
            && r.Ok? && TargetOf(r.value) == source.id
            && r.value == Populate(ability, source, None, [], None).value
  {
  }
}
