/**
 * The burn step of `endRound` (src/lib/gameLogic/GameEngine.svelte.ts): after
 * the TURN_END pass, every burn modifier the character had at that moment deals
 * its stacks as damage, loses one stack, and leaves the list when none remain.
 *
 * The source iterates a snapshot of modifier objects and decrements each
 * object's `stacks` in place, so the entry that changes is the snapshot's own
 * object, wherever it now sits in the list. The model gives every list entry a
 * tag (its position when the snapshot was taken) and updates the entry carrying
 * the snapshot element's tag; `removeModifier` drops entries and their tags
 * together.
 */
module Burn {
  import opened Wrappers
  import opened Types
  import opened Modifiers
  import opened Characters
  import AbilityDefinitions

  /** A snapshot element: the tag of a list entry and the modifier it held. */
  type Snapshot = seq<(nat, Modifier)>

  /** The tags `0, 1, …, n - 1`. */
  function Tags(n: nat): (t: seq<nat>)
    ensures |t| == n && forall j :: 0 <= j < n ==> t[j] == j
  {
    seq(n, j => j)
  }

  /**
   * `modifiers.filter((m) => m.id.startsWith('burn_'))`, each element with its
   * position (counted from `from`): only burn entries, each the modifier found
   * at its position.
   */
  function BurnEntries(mods: seq<Modifier>, from: nat): (r: Snapshot)
    ensures forall k :: 0 <= k < |r| ==>
              from <= r[k].0 < from + |mods| && mods[r[k].0 - from] == r[k].1 && IsBurnId(r[k].1.id)
    decreases |mods|
  {
    if |mods| == 0 then []
    else
      var rest := BurnEntries(mods[1..], from + 1);
      if IsBurnId(mods[0].id) then [(from, mods[0])] + rest else rest
  }

  /** The filter misses no burn: every burn entry is in the snapshot, with its position. */
  lemma {:induction false} BurnEntriesComplete(mods: seq<Modifier>, from: nat, j: nat)
    requires j < |mods| && IsBurnId(mods[j].id)
    ensures (from + j, mods[j]) in BurnEntries(mods, from)
    decreases j
  {
    if j > 0 {
      BurnEntriesComplete(mods[1..], from + 1, j - 1);
      assert mods[1..][j - 1] == mods[j];
    }
  }

  /** `burnModifier.stacks--` on the entry carrying tag `t`. */
  function SetStacks(mods: seq<Modifier>, tags: seq<nat>, t: nat, s: int): (r: seq<Modifier>)
    requires |tags| == |mods|
    ensures |r| == |mods|
    ensures forall j :: 0 <= j < |mods| ==> r[j] == (if tags[j] == t then mods[j].(stacks := s) else mods[j])
  {
    seq(|mods|, j requires 0 <= j < |mods| => if tags[j] == t then mods[j].(stacks := s) else mods[j])
  }

  /** The tags of the entries `removeModifier(id)` keeps, in order. */
  function TagsWithout(mods: seq<Modifier>, tags: seq<nat>, id: string): (r: seq<nat>)
    requires |tags| == |mods|
    ensures |r| == |Without(mods, id)|
  {
    if |mods| == 0 then []
    else
      var rest := TagsWithout(mods[1..], tags[1..], id);
      if mods[0].id == id then rest else [tags[0]] + rest
  }

  /**
   * Each kept tag still sits beside the entry it was attached to before the
   * removal: the `i`-th kept entry and its tag come from position `j`.
   */
  lemma {:induction false} TagsWithoutSource(mods: seq<Modifier>, tags: seq<nat>, id: string, i: nat) returns (j: nat)
    requires |tags| == |mods| && i < |TagsWithout(mods, tags, id)|
    ensures j < |mods| && tags[j] == TagsWithout(mods, tags, id)[i] && mods[j] == Without(mods, id)[i]
    decreases |mods|, 1
  {
    if mods[0].id == id {
      j := SourceAfterDrop(mods, tags, id, i);
    } else if i == 0 {
      j := 0;
    } else {
      j := SourceAfterKeep(mods, tags, id, i);
    }
  }

  /** `TagsWithoutSource` when the first entry is removed: the kept entries all come from the tail. */
  lemma {:induction false} SourceAfterDrop(mods: seq<Modifier>, tags: seq<nat>, id: string, i: nat) returns (j: nat)
    requires |tags| == |mods| && |mods| > 0 && mods[0].id == id && i < |TagsWithout(mods, tags, id)|
    ensures j < |mods| && tags[j] == TagsWithout(mods, tags, id)[i] && mods[j] == Without(mods, id)[i]
    decreases |mods|, 0
  {
    assert TagsWithout(mods, tags, id) == TagsWithout(mods[1..], tags[1..], id);
    assert Without(mods, id) == Without(mods[1..], id);
    var k := TagsWithoutSource(mods[1..], tags[1..], id, i);
    assert tags[1..][k] == tags[k + 1] && mods[1..][k] == mods[k + 1];
    j := k + 1;
  }

  /** `TagsWithoutSource` past the first entry when it is kept: entry `i` comes from entry `i - 1` of the tail's result. */
  lemma {:induction false} SourceAfterKeep(mods: seq<Modifier>, tags: seq<nat>, id: string, i: nat) returns (j: nat)
    requires |tags| == |mods| && |mods| > 0 && mods[0].id != id && 0 < i < |TagsWithout(mods, tags, id)|
    ensures j < |mods| && tags[j] == TagsWithout(mods, tags, id)[i] && mods[j] == Without(mods, id)[i]
    decreases |mods|, 0
  {
    assert TagsWithout(mods, tags, id)[i] == TagsWithout(mods[1..], tags[1..], id)[i - 1];
    assert Without(mods, id)[i] == Without(mods[1..], id)[i - 1];
    var k := TagsWithoutSource(mods[1..], tags[1..], id, i - 1);
    assert tags[1..][k] == tags[k + 1] && mods[1..][k] == mods[k + 1];
    j := k + 1;
  }

  /**
   * Every snapshot element still pending is a burn modifier, and every list
   * entry carrying its tag has a burn id: an update through the tag touches
   * burn entries only.
   */
  predicate Tracks(mods: seq<Modifier>, tags: seq<nat>, snap: Snapshot) {
    && |tags| == |mods|
    && (forall k :: 0 <= k < |snap| ==> IsBurnId(snap[k].1.id))
    && (forall k, j :: 0 <= k < |snap| && 0 <= j < |mods| && tags[j] == snap[k].0 ==> IsBurnId(mods[j].id))
  }

  /**
   * The loop over the snapshot. A pending burn with positive stacks deals them
   * through `takeDamage(stacks, 'burn')`; then its entry loses a stack, or every
   * entry with its id is removed when no stack remains. A burn at zero stacks or
   * below does nothing.
   */
  function BurnLoop(ch: Character, tags: seq<nat>, snap: Snapshot): (r: Outcome<Character>)
    requires Tracks(ch.modifiers, tags, snap)
    ensures r.Ok? ==> r.value.id == ch.id && r.value.name == ch.name && r.value.abilities == ch.abilities
    ensures r.Ok? ==> forall m :: m in ch.modifiers && !IsBurnId(m.id) ==> m in r.value.modifiers
    ensures r.Ok? ==> forall m :: m in r.value.modifiers && !IsBurnId(m.id) ==> m in ch.modifiers
    ensures r.Ok? && |snap| == 0 ==> r.value == ch
    ensures Settled(ch.modifiers) ==> r.Ok? && Settled(r.value.modifiers)
    ensures r.Err? ==> r.error == CallStackExceeded
    decreases |snap|
  {
    if |snap| == 0 then Ok(ch)
    else
      var t := snap[0].0;
      var b := snap[0].1;
      if b.stacks > 0 then
        var hit := TakeDamage(ch, b.stacks, "burn");
        if hit.Err? then Err(CallStackExceeded)
        else
          var c := hit.value;
          if b.stacks - 1 <= 0 then
            RemovalTracks(c.modifiers, tags, snap, b.id);
            BurnLoop(RemoveModifier(c, b.id), TagsWithout(c.modifiers, tags, b.id), snap[1..])
          else
            LoweringTracks(c.modifiers, tags, snap, b.stacks - 1);
            BurnLoop(c.(modifiers := SetStacks(c.modifiers, tags, t, b.stacks - 1)), tags, snap[1..])
      else
        TracksTail(ch.modifiers, tags, snap);
        BurnLoop(ch, tags, snap[1..])
  }

  /** Dropping the first snapshot element keeps the tracking invariant. */
  lemma TracksTail(mods: seq<Modifier>, tags: seq<nat>, snap: Snapshot)
    requires |snap| > 0 && Tracks(mods, tags, snap)
    ensures Tracks(mods, tags, snap[1..])
  {
    forall k | 0 <= k < |snap[1..]| ensures snap[1..][k] == snap[k + 1] { }
  }

  /**
   * `removeModifier` of a burn's id, with the tags removed alongside, keeps the
   * invariant for the rest of the snapshot.
   */
  lemma RemovalTracks(mods: seq<Modifier>, tags: seq<nat>, snap: Snapshot, id: string)
    requires |snap| > 0 && Tracks(mods, tags, snap)
    ensures Tracks(Without(mods, id), TagsWithout(mods, tags, id), snap[1..])
  {
    var kept := Without(mods, id);
    var keptTags := TagsWithout(mods, tags, id);
    forall k, i | 0 <= k < |snap[1..]| && 0 <= i < |kept| && keptTags[i] == snap[1..][k].0
      ensures IsBurnId(kept[i].id)
    {
      var j := TagsWithoutSource(mods, tags, id, i);
      assert snap[1..][k] == snap[k + 1];
    }
    TracksTail(mods, tags, snap);
  }

  /**
   * Lowering the stacks of the entry tagged by the first snapshot element
   * touches a burn entry only: the non-burn modifiers are the same, the list
   * stays settled, and the invariant holds for the rest of the snapshot.
   */
  lemma LoweringTracks(mods: seq<Modifier>, tags: seq<nat>, snap: Snapshot, s: int)
    requires |snap| > 0 && Tracks(mods, tags, snap)
    ensures var lowered := SetStacks(mods, tags, snap[0].0, s);
            && Tracks(lowered, tags, snap[1..])
            && (forall m :: m in mods && !IsBurnId(m.id) ==> m in lowered)
            && (forall m :: m in lowered && !IsBurnId(m.id) ==> m in mods)
            && (Settled(mods) ==> Settled(lowered))
  {
    var lowered := SetStacks(mods, tags, snap[0].0, s);
    TracksTail(mods, tags, snap);
    forall m | m in mods && !IsBurnId(m.id) ensures m in lowered {
      var j :| 0 <= j < |mods| && mods[j] == m;
      assert lowered[j] == m;
    }
    forall m | m in lowered && !IsBurnId(m.id) ensures m in mods {
      var j :| 0 <= j < |lowered| && lowered[j] == m;
      assert mods[j] == m;
    }
    if Settled(mods) {
      forall m | m in lowered ensures !Reenters(m.effect) {
        var j :| 0 <= j < |lowered| && lowered[j] == m;
        assert m.effect == mods[j].effect;
      }
    }
  }

  /** The burn step of `endRound` for one character. */
  function BurnPass(ch: Character): (r: Outcome<Character>)
    ensures r.Ok? ==> r.value.id == ch.id && r.value.name == ch.name && r.value.abilities == ch.abilities
    ensures r.Ok? ==> forall m :: m in ch.modifiers && !IsBurnId(m.id) ==> m in r.value.modifiers
    ensures r.Ok? ==> forall m :: m in r.value.modifiers && !IsBurnId(m.id) ==> m in ch.modifiers
    ensures (forall m :: m in ch.modifiers ==> !IsBurnId(m.id)) ==> r == Ok(ch)
    ensures Settled(ch.modifiers) ==> r.Ok? && Settled(r.value.modifiers)
  {
    var tags := Tags(|ch.modifiers|);
    var snap := BurnEntries(ch.modifiers, 0);
    assert Tracks(ch.modifiers, tags, snap);
    assert (forall m :: m in ch.modifiers ==> !IsBurnId(m.id)) ==> |snap| == 0 by {
      if |snap| > 0 {
        assert ch.modifiers[snap[0].0] in ch.modifiers;
      }
    }
    BurnLoop(ch, tags, snap)
  }

  /** A burn modifier that does nothing when it fires, as the one `light_up` makes. */
  predicate PlainBurn(b: Modifier) {
    IsBurnId(b.id) && b.effect == NoEffect
  }

  /**
   * One burn step on a character whose only modifier is a plain burn of s > 0
   * stacks: it loses s health (floored at zero) and the burn keeps s - 1 stacks,
   * or is gone when s was 1.
   */
  lemma {:induction false} OneBurnStep(ch: Character)
    requires |ch.modifiers| == 1 && PlainBurn(ch.modifiers[0]) && ch.modifiers[0].stacks > 0
    ensures var b := ch.modifiers[0];
            BurnPass(ch) == Ok(ch.(stats := ch.stats.(health := Max(0, ch.stats.health - b.stacks)),
                                   modifiers := if b.stacks > 1 then [b.(stacks := b.stacks - 1)] else []))
  {
    var b := ch.modifiers[0];
    var tags := Tags(1);
    var snap := BurnEntries(ch.modifiers, 0);
    assert snap == [(0, b)] by {
      assert ch.modifiers[1..] == [];
      assert BurnEntries(ch.modifiers[1..], 1) == [];
    }
    var hit := TakeDamage(ch, b.stacks, "burn");
    assert hit == Ok(WithHealth(ch, Max(0, ch.stats.health - b.stacks))) by {
      var ctx := DamageCtx(ch.id, b.stacks, "burn");
      var once := RunModifiers(ch.modifiers, ch, ctx, CallDepth);
      assert once == Ok(Processed(ch, ctx)) by {
        assert ch.modifiers[1..] == [];
        if ShouldTrigger(b, ctx) {
          assert ApplyEffect(b.effect, ctx, ch, CallDepth) == Ok(Processed(ch, ctx));
        }
      }
    }
    var c := hit.value;
    if b.stacks > 1 {
      assert SetStacks(c.modifiers, tags, 0, b.stacks - 1) == [b.(stacks := b.stacks - 1)];
    } else {
      assert Without(c.modifiers, b.id) == [] by {
        assert c.modifiers[1..] == [];
      }
    }
    assert snap[1..] == [];
  }

  /** `n` consecutive burn steps, stopping at the first failure. */
  function BurnPasses(ch: Character, n: nat): Outcome<Character>
    decreases n
  {
    if n == 0 then Ok(ch)
    else
      var c :- BurnPass(ch);
      BurnPasses(c, n - 1)
  }

  /** The damage of `n` burn steps starting at `s` stacks: s + (s - 1) + … + (s - n + 1). */
  function BurnTotal(s: int, n: nat): int
    decreases n
  {
    if n == 0 then 0 else BurnTotal(s, n - 1) + (s - (n - 1))
  }

  /** Peeling off the first step: the rest is a burn that starts one stack lower. */
  lemma {:induction false} BurnTotalShift(s: int, n: nat)
    requires n >= 1
    ensures BurnTotal(s, n) == s + BurnTotal(s - 1, n - 1)
    decreases n
  {
    if n > 1 {
      BurnTotalShift(s, n - 1);
    }
  }

  /** The closed form: 2 * BurnTotal(s, n) == n * (2s - n + 1), so s stacks deal s(s + 1) / 2 in all. */
  lemma {:induction false} BurnTotalClosedForm(s: int, n: nat)
    ensures 2 * BurnTotal(s, n) == n * (2 * s - n + 1)
    decreases n
  {
    if n > 0 {
      BurnTotalClosedForm(s, n - 1);
    }
  }

  lemma {:induction false} BurnTotalNonNegative(s: int, n: nat)
    requires n <= s
    ensures BurnTotal(s, n) >= 0
    decreases n
  {
    if n > 0 {
      BurnTotalNonNegative(s, n - 1);
    }
  }

  lemma PassesAfterStep(ch: Character, c: Character, n: nat)
    requires n > 0 && BurnPass(ch) == Ok(c)
    ensures BurnPasses(ch, n) == BurnPasses(c, n - 1)
  {
  }

  /** A bare character with burn `b`, after `dealt` burn damage, holding `left` stacks (none when `left <= 0`). */
  function AfterBurn(ch: Character, b: Modifier, dealt: int, left: int): Character {
    ch.(stats := ch.stats.(health := Max(0, ch.stats.health - dealt)),
        modifiers := if left > 0 then [b.(stacks := left)] else [])
  }

  /** Two stretches of burning add up. */
  lemma AfterBurnTwice(ch: Character, b: Modifier, d1: int, l1: int, d2: int, l2: int)
    requires d1 >= 0 && d2 >= 0 && l1 > 0
    ensures AfterBurn(AfterBurn(ch, b, d1, l1), b.(stacks := l1), d2, l2) == AfterBurn(ch, b, d1 + d2, l2)
  {
  }

  /**
   * A plain burn of s stacks on an otherwise bare character: after 1 <= n <= s
   * steps the character has lost s + (s - 1) + … + (s - n + 1) health, floored
   * at zero, and the burn has s - n stacks left, or is gone once n == s.
   */
  lemma {:induction false} BurnDrains(ch: Character, n: nat)
    requires |ch.modifiers| == 1 && PlainBurn(ch.modifiers[0]) && 1 <= n <= ch.modifiers[0].stacks
    ensures var b := ch.modifiers[0];
            BurnPasses(ch, n) == Ok(AfterBurn(ch, b, BurnTotal(b.stacks, n), b.stacks - n))
    decreases n
  {
    var b := ch.modifiers[0];
    var s := b.stacks;
    OneBurnStep(ch);
    var c := AfterBurn(ch, b, s, s - 1);
    PassesAfterStep(ch, c, n);
    if n > 1 {
      assert c.modifiers == [b.(stacks := s - 1)];
      BurnDrains(c, n - 1);
      DrainArithmetic(ch, b, n, BurnPasses(c, n - 1));
    } else {
      assert BurnTotal(s, n) == s;
    }
  }

  /**
   * The inductive step of `BurnDrains` as plain arithmetic: the first step
   * followed by the remaining n - 1 adds up to n steps.
   */
  lemma DrainArithmetic(ch: Character, b: Modifier, n: nat, rest: Outcome<Character>)
    requires 2 <= n <= b.stacks
    requires rest == Ok(AfterBurn(AfterBurn(ch, b, b.stacks, b.stacks - 1), b.(stacks := b.stacks - 1),
                                  BurnTotal(b.stacks - 1, n - 1), b.stacks - 1 - (n - 1)))
    ensures rest == Ok(AfterBurn(ch, b, BurnTotal(b.stacks, n), b.stacks - n))
  {
    var s := b.stacks;
    BurnTotalShift(s, n);
    BurnTotalNonNegative(s - 1, n - 1);
    AfterBurnTwice(ch, b, s, s - 1, BurnTotal(s - 1, n - 1), s - n);
  }

  /**
   * The burn `light_up` leaves (5 stacks) on an otherwise bare character deals
   * 5 + 4 + 3 + 2 + 1 = 15 over five steps and is then gone.
   */
  lemma LightUpBurnsOut(ch: Character, ctx: Context, stamp: string)
    requires ch.modifiers == [AbilityDefinitions.Execute(AbilityDefinitions.LightUpExec, ctx, stamp)]
    ensures BurnPasses(ch, 5) == Ok(ch.(stats := ch.stats.(health := Max(0, ch.stats.health - 15)), modifiers := []))
  {
    BurnDrains(ch, 5);
    BurnTotalClosedForm(5, 5);
  }
}
