/**
 * Turning definitions and ids into abilities through the two registries
 * (src/lib/gameLogic/abilities/AbilityFactory.ts). The thrown errors are
 * `Err(NoExecutor(id))` and `Err(NoDefinition(id))`; the `map` over a list stops
 * at the first element that throws, which the recursion here reproduces.
 */
module AbilityFactory {
  import opened Wrappers
  import opened Types
  import opened AbilityDefinitions
  import opened Abilities

  /** The definition an ability was built from: every field but the executor and the counter. */
  function ToDefinition(a: Ability): AbilityDefinition {
    AbilityDefinition(a.id, a.name, a.description, a.contextType, a.cooldown)
  }

  /** `AbilityFactory.create`: a ready ability running the executor registered under the definition's id. */
  function Create(def: AbilityDefinition): (r: Outcome<Ability>)
    ensures r.Err? <==> GetAbilityExecutor(def.id).None?
    ensures r.Err? ==> r.error == NoExecutor(def.id)
    ensures r.Ok? ==> ToDefinition(r.value) == def && IsReady(r.value)
    ensures r.Ok? ==> ExecutorKey(r.value.execute) == def.id
  {
    match GetAbilityExecutor(def.id)
    case None => Err(NoExecutor(def.id))
    case Some(x) => Ok(NewAbility(def.id, def.name, def.description, x, def.contextType, def.cooldown))
  }

  /** `AbilityFactory.createFromId`: the table's definition for the id, then `create`. */
  function CreateFromId(id: string): (r: Outcome<Ability>)
    ensures r.Err? <==> forall d :: d in Definitions ==> d.id != id
    ensures r.Err? ==> r.error == NoDefinition(id)
    ensures r.Ok? ==> ToDefinition(r.value) in Definitions && r.value.id == id && IsReady(r.value)
  {
    EveryDefinitionHasExecutor();
    match GetAbilityDefinition(id)
    case None => Err(NoDefinition(id))
    case Some(def) => Create(def)
  }

  /** `AbilityFactory.createMany`: `create` on each definition, in order, failing at the first definition without an executor. */
  function CreateMany(defs: seq<AbilityDefinition>): (r: Outcome<seq<Ability>>)
    ensures r.Ok? <==> forall i :: 0 <= i < |defs| ==> GetAbilityExecutor(defs[i].id).Some?
    ensures r.Ok? ==> |r.value| == |defs|
    ensures r.Ok? ==> forall i :: 0 <= i < |defs| ==> ToDefinition(r.value[i]) == defs[i] && IsReady(r.value[i])
    ensures r.Err? ==> exists i :: 0 <= i < |defs| && r.error == NoExecutor(defs[i].id)
                                   && GetAbilityExecutor(defs[i].id).None?
                                   && (forall j :: 0 <= j < i ==> GetAbilityExecutor(defs[j].id).Some?)
  {
    MapResult(Create, defs)
  }

  /** `AbilityFactory.createManyFromIds`: `createFromId` on each id, in order, failing at the first unknown id. */
  function CreateManyFromIds(ids: seq<string>): (r: Outcome<seq<Ability>>)
    ensures r.Ok? <==> forall i :: 0 <= i < |ids| ==> exists d :: d in Definitions && d.id == ids[i]
    ensures r.Ok? ==> |r.value| == |ids|
    ensures r.Ok? ==> forall i :: 0 <= i < |ids| ==>
                        r.value[i].id == ids[i] && IsReady(r.value[i]) && ToDefinition(r.value[i]) in Definitions
    ensures r.Err? ==> exists i :: 0 <= i < |ids| && r.error == NoDefinition(ids[i])
                                   && (forall d :: d in Definitions ==> d.id != ids[i])
                                   && (forall j :: 0 <= j < i ==> exists d :: d in Definitions && d.id == ids[j])
  {
    MapResult(CreateFromId, ids)
  }

  /**
   * Building every entry of the definition table by id gives back that entry:
   * the factory loses nothing of a definition.
   */
  lemma CreateFromIdRoundTrip(i: nat)
    requires i < |Definitions|
    ensures CreateFromId(Definitions[i].id).Ok?
    ensures ToDefinition(CreateFromId(Definitions[i].id).value) == Definitions[i]
  {
    LookupTableEntry(i);
    EveryDefinitionHasExecutor();
  }

  /** A built ability can be used at once, and using it yields the modifier its executor makes. */
  lemma CreatedAbilityIsUsable(i: nat, ctx: Context, stamp: string)
    requires i < |Definitions|
    ensures CreateFromId(Definitions[i].id).Ok?
    ensures var a := CreateFromId(Definitions[i].id).value;
            && Use(a, ctx, stamp).Ok?
            && Use(a, ctx, stamp).value.1 == Execute(a.execute, ctx, stamp)
            && ExecutorKey(a.execute) == Definitions[i].id
  {
    CreateFromIdRoundTrip(i);
  }
}
