/**
 * Stats, the seven-tag context union, modifier triggers and modifier kinds
 * (src/lib/gameLogic/types.ts).
 */
module Types {
  import opened Wrappers

  /** Base stats of a character. JS numbers are modelled as unbounded integers. */
  datatype Stats = Stats(health: int, maxHealth: int, attack: int)

  /** The string enum `ContextType`: exactly seven tags. */
  datatype ContextType = Attack | Heal | Buff | Debuff | Damage | TurnStart | TurnEnd

  /** The stat a BUFF or DEBUFF context names. */
  datatype StatName = HealthStat | MaxHealthStat | AttackStat | SpeedStat

  /**
   * The discriminated union `AbilityContext`: one constructor per tag, carrying
   * exactly the fields of that variant.
   */
  datatype Context =
    | AttackCtx(target: string, damage: int)
    | HealCtx(target: string, amount: int)
    | BuffCtx(target: string, stat: StatName, value: int, duration: Option<int>)
    | DebuffCtx(target: string, stat: StatName, value: int, duration: Option<int>)
    | DamageCtx(target: string, damage: int, source: string)
    | TurnStartCtx(characterId: string)
    | TurnEndCtx(characterId: string)
  {
    /** The `type` discriminator of the context. */
    function Kind(): ContextType {
      match this
      case AttackCtx(_, _) => Attack
      case HealCtx(_, _) => Heal
      case BuffCtx(_, _, _, _) => Buff
      case DebuffCtx(_, _, _, _) => Debuff
      case DamageCtx(_, _, _) => Damage
      case TurnStartCtx(_) => TurnStart
      case TurnEndCtx(_) => TurnEnd
    }
  }

  /** `ModifierTrigger`: one of the seven context tags, `on_modifier_added` or `permanent`. */
  datatype Trigger = OnContext(kind: ContextType) | OnModifierAdded | Permanent

  /** `ModifierType`. */
  datatype ModifierType = OneTime | OnTrigger

  /** The errors the core throws, plus the call-stack exhaustion of unbounded re-entry. */
  datatype Failure =
    | TooManyHeroes
    | OnCooldown(abilityName: string)
    | AbilityNotFound(abilityId: string)
    | NoTarget(kind: ContextType)
    | NoExecutor(abilityId: string)
    | NoDefinition(abilityId: string)
    | CallStackExceeded
    | TypeError

  type Outcome<T> = Result<T, Failure>

  function Max(a: int, b: int): int { if a >= b then a else b }

  function Min(a: int, b: int): int { if a <= b then a else b }

  /** JavaScript's `x || d` on a number: zero falls back to the default. */
  function OrDefault(x: int, d: int): int { if x == 0 then d else x }

  /** The wire name of a context tag, as in the enum's string values. */
  function KindName(k: ContextType): (s: string)
    ensures |s| >= 4
  {
    match k
    case Attack => "attack"
    case Heal => "heal"
    case Buff => "buff"
    case Debuff => "debuff"
    case Damage => "damage"
    case TurnStart => "turn_start"
    case TurnEnd => "turn_end"
  }

  /** Reads a context tag back from its wire name. */
  function ParseKind(s: string): (r: Option<ContextType>)
    ensures r.Some? ==> KindName(r.value) == s
  {
    if s == "attack" then Some(Attack)
    else if s == "heal" then Some(Heal)
    else if s == "buff" then Some(Buff)
    else if s == "debuff" then Some(Debuff)
    else if s == "damage" then Some(Damage)
    else if s == "turn_start" then Some(TurnStart)
    else if s == "turn_end" then Some(TurnEnd)
    else None
  }

  /** The seven tags, each named once. */
  const AllKinds: seq<ContextType> := [Attack, Heal, Buff, Debuff, Damage, TurnStart, TurnEnd]

  /** The enum has exactly seven tags, with pairwise distinct wire names that read back. */
  lemma KindNamesRoundTrip()
    ensures |AllKinds| == 7
    ensures forall k: ContextType :: k in AllKinds
    ensures forall k: ContextType :: ParseKind(KindName(k)) == Some(k)
    ensures forall i, j :: 0 <= i < j < |AllKinds| ==> KindName(AllKinds[i]) != KindName(AllKinds[j])
  {
    forall k: ContextType ensures k in AllKinds {
      match k
      case Attack => assert AllKinds[0] == k;
      case Heal => assert AllKinds[1] == k;
      case Buff => assert AllKinds[2] == k;
      case Debuff => assert AllKinds[3] == k;
      case Damage => assert AllKinds[4] == k;
      case TurnStart => assert AllKinds[5] == k;
      case TurnEnd => assert AllKinds[6] == k;
    }
  }

  /** The `type` field of a trigger. */
  function TriggerName(t: Trigger): (s: string)
    ensures t.OnContext? ==> s == KindName(t.kind)
  {
    match t
    case OnContext(k) => KindName(k)
    case OnModifierAdded => "on_modifier_added"
    case Permanent => "permanent"
  }

  /** Triggers are the seven tags plus two more; none is called `on_ability`. */
  lemma TriggerNamesDistinct()
    ensures forall t: Trigger :: TriggerName(t) != "on_ability"
    ensures forall t, u: Trigger :: TriggerName(t) == TriggerName(u) ==> t == u
  {
    KindNamesRoundTrip();
  }
}
