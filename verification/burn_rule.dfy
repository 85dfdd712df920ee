/**
 * The burn step of `endRound` (src/lib/gameLogic/GameEngine.svelte.ts) stated
 * entry by entry, for any modifier list whose burn ids are unique: every burn
 * entry with s > 0 stacks keeps s - 1 of them, or leaves the list at s = 1; a
 * burn entry at zero stacks or below and every other modifier stay as they are.
 * When no modifier fires on DAMAGE, the character loses the positive stacks of
 * all its burns, floored at zero.
 *
 * `BurnedList` is the reference definition, read off the list without any
 * snapshot or tags; `BurnPassFollowsRule` connects it with the loop of `Burn`.
 */
module BurnRule {
  import opened Wrappers
  import opened Types
  import opened Modifiers
  import opened Characters
  import opened Burn

  /** What the burn step makes of one entry. */
  function Burned(m: Modifier): (r: seq<Modifier>)
    ensures IsBurnId(m.id) && m.stacks > 1 ==> r == [m.(stacks := m.stacks - 1)]
    ensures IsBurnId(m.id) && m.stacks == 1 ==> r == []
    ensures !IsBurnId(m.id) || m.stacks <= 0 ==> r == [m]
  {
    if IsBurnId(m.id) && m.stacks > 0 then
      if m.stacks - 1 <= 0 then [] else [m.(stacks := m.stacks - 1)]
    else [m]
  }

  /** The list after the burn step, entry by entry in list order. */
  function BurnedList(mods: seq<Modifier>): seq<Modifier>
    decreases |mods|
  {
    if |mods| == 0 then [] else BurnedList(mods[..|mods| - 1]) + Burned(mods[|mods| - 1])
  }

  /** The positions in `mods` of the entries `BurnedList` keeps. */
  function BurnedTags(mods: seq<Modifier>): seq<nat>
    decreases |mods|
  {
    if |mods| == 0 then []
    else BurnedTags(mods[..|mods| - 1]) + (if Burned(mods[|mods| - 1]) == [] then [] else [|mods| - 1])
  }

  /** The damage the burn step deals: the positive stacks of every burn entry. */
  function BurnDamage(mods: seq<Modifier>): (d: int)
    ensures d >= 0
    decreases |mods|
  {
    if |mods| == 0 then 0
    else (if IsBurnId(mods[0].id) && mods[0].stacks > 0 then mods[0].stacks else 0) + BurnDamage(mods[1..])
  }

  /** No modifier of the list fires on a DAMAGE context. */
  predicate IgnoresDamage(mods: seq<Modifier>) {
    forall j :: 0 <= j < |mods| ==> !(mods[j].modifierType == OnTrigger && mods[j].trigger == OnContext(Damage))
  }

  /** Health after `d` burn damage dealt in positive hits: unchanged without any, else floored at zero. */
  function HealthAfter(h: int, d: int): int {
    if d == 0 then h else Max(0, h - d)
  }

  /**
   * Each kept entry comes from the position its tag names and differs from the
   * entry there at most in its stacks; tags are positions of the list.
   */
  lemma {:induction false} BurnedSource(mods: seq<Modifier>)
    ensures |BurnedTags(mods)| == |BurnedList(mods)|
    ensures forall k :: 0 <= k < |BurnedTags(mods)| ==>
              BurnedTags(mods)[k] < |mods|
              && BurnedList(mods)[k] == mods[BurnedTags(mods)[k]].(stacks := BurnedList(mods)[k].stacks)
    decreases |mods|
  {
    if |mods| > 0 {
      var n := |mods| - 1;
      var init := mods[..n];
      BurnedSource(init);
      forall k | 0 <= k < |BurnedTags(init)| ensures init[BurnedTags(init)[k]] == mods[BurnedTags(init)[k]] { }
    }
  }

  /** The list up to position p + 1 is the list up to p and the entry at p. */
  lemma BurnedSnoc(mods: seq<Modifier>, p: nat)
    requires p < |mods|
    ensures BurnedList(mods[..p + 1]) == BurnedList(mods[..p]) + Burned(mods[p])
    ensures BurnedTags(mods[..p + 1]) == BurnedTags(mods[..p]) + (if Burned(mods[p]) == [] then [] else [p])
  {
    assert mods[..p + 1][..p] == mods[..p];
  }

  /** The snapshot from position p: the entry at p if it is a burn, then the snapshot from p + 1. */
  lemma SnapStep(mods: seq<Modifier>, p: nat)
    requires p < |mods|
    ensures BurnEntries(mods[p..], p) ==
              (if IsBurnId(mods[p].id) then [(p, mods[p])] else []) + BurnEntries(mods[p + 1..], p + 1)
  {
    assert mods[p..][1..] == mods[p + 1..];
  }

  /** The tags of the list once the entries before p have been burned: kept positions, then p, p + 1, …. */
  function PartialTags(mods: seq<Modifier>, p: nat): (t: seq<nat>)
    requires p <= |mods|
  {
    BurnedTags(mods[..p]) + seq(|mods| - p, j => p + j)
  }

  /** The list once the entries before p have been burned. */
  function PartialList(mods: seq<Modifier>, p: nat): seq<Modifier>
    requires p <= |mods|
  {
    BurnedList(mods[..p]) + mods[p..]
  }

  /** The partial state meets the loop's tracking invariant for the snapshot from p. */
  lemma PartialTracks(mods: seq<Modifier>, p: nat)
    requires p <= |mods|
    ensures Tracks(PartialList(mods, p), PartialTags(mods, p), BurnEntries(mods[p..], p))
  {
    var done := mods[..p];
    BurnedSource(done);
    var list := PartialList(mods, p);
    var tags := PartialTags(mods, p);
    var snap := BurnEntries(mods[p..], p);
    var n := |BurnedList(done)|;
    forall k, j | 0 <= k < |snap| && 0 <= j < |list| && tags[j] == snap[k].0 ensures IsBurnId(list[j].id) {
      if j >= n {
        assert list[j] == mods[p..][j - n];
      }
    }
  }

  /** The tag filter of `removeModifier` distributes over concatenation, like the entry filter. */
  lemma {:induction false} TagsWithoutConcat(a: seq<Modifier>, ta: seq<nat>, b: seq<Modifier>, tb: seq<nat>, id: string)
    requires |ta| == |a| && |tb| == |b|
    ensures TagsWithout(a + b, ta + tb, id) == TagsWithout(a, ta, id) + TagsWithout(b, tb, id)
    decreases |a|
  {
    if |a| > 0 {
      assert (a + b)[1..] == a[1..] + b;
      assert (ta + tb)[1..] == ta[1..] + tb;
      TagsWithoutConcat(a[1..], ta[1..], b, tb, id);
    } else {
      assert a + b == b;
      assert ta + tb == tb;
    }
  }

  /** When no entry has the id, the tag filter keeps every tag. */
  lemma {:induction false} TagsWithoutAbsent(mods: seq<Modifier>, tags: seq<nat>, id: string)
    requires |tags| == |mods| && forall j :: 0 <= j < |mods| ==> mods[j].id != id
    ensures TagsWithout(mods, tags, id) == tags
    decreases |mods|
  {
    if |mods| > 0 {
      assert forall j :: 0 <= j < |mods[1..]| ==> mods[1..][j].id != id by {
        forall j | 0 <= j < |mods[1..]| ensures mods[1..][j].id != id {
          assert mods[1..][j] == mods[j + 1];
        }
      }
      TagsWithoutAbsent(mods[1..], tags[1..], id);
      assert tags == [tags[0]] + tags[1..];
    }
  }

  /** With unique burn ids, a burn's id belongs to its own entry only. */
  lemma BurnIdOnlyAt(mods: seq<Modifier>, p: nat)
    requires BurnIdsUnique(mods) && p < |mods| && IsBurnId(mods[p].id)
    ensures forall i :: 0 <= i < |mods| && i != p ==> mods[i].id != mods[p].id
  {
  }

  /** An entry that the burn step keeps unchanged moves from the pending part to the burned part. */
  lemma KeepStep(mods: seq<Modifier>, p: nat)
    requires p < |mods| && Burned(mods[p]) == [mods[p]]
    ensures PartialList(mods, p + 1) == PartialList(mods, p)
    ensures PartialTags(mods, p + 1) == PartialTags(mods, p)
  {
    BurnedSnoc(mods, p);
    assert mods[p..] == [mods[p]] + mods[p + 1..];
    var tail := seq(|mods| - p, j => p + j);
    assert tail == [p] + seq(|mods| - (p + 1), j => p + 1 + j);
  }

  /** Lowering the stacks of the entry tagged p by one is the burn step on position p. */
  lemma LowerStep(mods: seq<Modifier>, p: nat)
    requires p < |mods| && IsBurnId(mods[p].id) && mods[p].stacks > 1
    ensures |PartialTags(mods, p)| == |PartialList(mods, p)|
    ensures SetStacks(PartialList(mods, p), PartialTags(mods, p), p, mods[p].stacks - 1) == PartialList(mods, p + 1)
    ensures PartialTags(mods, p + 1) == PartialTags(mods, p)
  {
    BurnedSnoc(mods, p);
    BurnedSource(mods[..p]);
    var done := BurnedList(mods[..p]);
    var n := |done|;
    var list := PartialList(mods, p);
    var tags := PartialTags(mods, p);
    var next := PartialList(mods, p + 1);
    var lowered := SetStacks(list, tags, p, mods[p].stacks - 1);
    assert |next| == |list|;
    forall j | 0 <= j < |list| ensures lowered[j] == next[j] {
      if j < n {
        assert tags[j] == BurnedTags(mods[..p])[j] < p;
      } else if j == n {
        assert tags[j] == p;
      } else {
        assert tags[j] == p + (j - n);
        assert list[j] == mods[p..][j - n] == mods[p + 1..][j - n - 1];
      }
    }
    var tail := seq(|mods| - p, j => p + j);
    assert tail == [p] + seq(|mods| - (p + 1), j => p + 1 + j);
  }

  /** Removing an id found only in the middle entry leaves the entries around it. */
  lemma DropMiddle(done: seq<Modifier>, x: Modifier, rest: seq<Modifier>)
    requires forall j :: 0 <= j < |done| ==> done[j].id != x.id
    requires forall j :: 0 <= j < |rest| ==> rest[j].id != x.id
    ensures Without(done + ([x] + rest), x.id) == done + rest
  {
    WithoutConcat(done, [x] + rest, x.id);
    WithoutConcat([x], rest, x.id);
    WithoutMembers(done, x.id);
    WithoutMembers(rest, x.id);
    assert Without([x], x.id) == [];
  }

  /** The tags of `DropMiddle`: the middle tag goes with its entry. */
  lemma DropMiddleTags(done: seq<Modifier>, doneTags: seq<nat>, x: Modifier, t: nat, rest: seq<Modifier>, restTags: seq<nat>)
    requires |doneTags| == |done| && |restTags| == |rest|
    requires forall j :: 0 <= j < |done| ==> done[j].id != x.id
    requires forall j :: 0 <= j < |rest| ==> rest[j].id != x.id
    ensures TagsWithout(done + ([x] + rest), doneTags + ([t] + restTags), x.id) == doneTags + restTags
  {
    TagsWithoutConcat(done, doneTags, [x] + rest, [t] + restTags, x.id);
    TagsWithoutConcat([x], [t], rest, restTags, x.id);
    TagsWithoutAbsent(done, doneTags, x.id);
    TagsWithoutAbsent(rest, restTags, x.id);
    assert TagsWithout([x], [t], x.id) == [];
  }

  /** No entry around the burn at p has its id: the burned part carries ids from before p. */
  lemma AroundBurn(mods: seq<Modifier>, p: nat, rest: seq<Modifier>)
    requires BurnIdsUnique(mods) && p < |mods| && IsBurnId(mods[p].id) && rest == mods[p + 1..]
    ensures forall j :: 0 <= j < |BurnedList(mods[..p])| ==> BurnedList(mods[..p])[j].id != mods[p].id
    ensures forall j :: 0 <= j < |rest| ==> rest[j].id != mods[p].id
  {
    BurnIdOnlyAt(mods, p);
    BurnedSource(mods[..p]);
    var done := BurnedList(mods[..p]);
    forall j | 0 <= j < |done| ensures done[j].id != mods[p].id {
      var t := BurnedTags(mods[..p])[j];
      assert done[j].id == mods[..p][t].id == mods[t].id;
    }
    forall j | 0 <= j < |rest| ensures rest[j].id != mods[p].id {
      assert rest[j] == mods[p + 1 + j];
    }
  }

  /** The partial list and tags around position p: burned part, entry p and its tag, pending rest. */
  lemma PartialShape(mods: seq<Modifier>, p: nat)
    requires p < |mods|
    ensures PartialList(mods, p) == BurnedList(mods[..p]) + ([mods[p]] + mods[p + 1..])
    ensures PartialTags(mods, p) == BurnedTags(mods[..p]) + ([p] + seq(|mods| - (p + 1), j => p + 1 + j))
  {
    assert mods[p..] == [mods[p]] + mods[p + 1..];
    assert seq(|mods| - p, j => p + j) == [p] + seq(|mods| - (p + 1), j => p + 1 + j);
  }

  /** Removing the id of the burn at p, entries and tags together, is the burn step on position p. */
  lemma DropStep(mods: seq<Modifier>, p: nat)
    requires BurnIdsUnique(mods) && p < |mods| && IsBurnId(mods[p].id) && mods[p].stacks == 1
    ensures |PartialTags(mods, p)| == |PartialList(mods, p)|
    ensures Without(PartialList(mods, p), mods[p].id) == PartialList(mods, p + 1)
    ensures TagsWithout(PartialList(mods, p), PartialTags(mods, p), mods[p].id) == PartialTags(mods, p + 1)
  {
    BurnedSnoc(mods, p);
    BurnedSource(mods[..p]);
    AroundBurn(mods, p, mods[p + 1..]);
    PartialShape(mods, p);
    DropMiddle(BurnedList(mods[..p]), mods[p], mods[p + 1..]);
    DropMiddleTags(BurnedList(mods[..p]), BurnedTags(mods[..p]), mods[p], p, mods[p + 1..], seq(|mods| - (p + 1), j => p + 1 + j));
  }

  /** A list that ignores DAMAGE keeps doing so after some of its entries are burned. */
  lemma PartialIgnoresDamage(mods: seq<Modifier>, p: nat)
    requires p <= |mods| && IgnoresDamage(mods)
    ensures IgnoresDamage(PartialList(mods, p))
  {
    BurnedSource(mods[..p]);
    var done := BurnedList(mods[..p]);
    var list := PartialList(mods, p);
    forall j | 0 <= j < |list| ensures !(list[j].modifierType == OnTrigger && list[j].trigger == OnContext(Damage)) {
      if j < |done| {
        var t := BurnedTags(mods[..p])[j];
        assert list[j] == done[j] == mods[..p][t].(stacks := done[j].stacks);
        assert mods[..p][t] == mods[t];
      } else {
        assert list[j] == mods[p..][j - |done|] == mods[p + j - |done|];
      }
    }
  }

  /** Nothing in a list that ignores DAMAGE fires on a DAMAGE context. */
  lemma IgnoresDamageQuiet(mods: seq<Modifier>, target: string, amount: int, source: string)
    requires IgnoresDamage(mods)
    ensures Quiet(mods, DamageCtx(target, amount, source))
  {
    forall m | m in mods ensures !ShouldTrigger(m, DamageCtx(target, amount, source)) {
      var j :| 0 <= j < |mods| && mods[j] == m;
    }
  }

  /** One hit of s > 0 followed by the remaining damage d is the floor taken once over s + d. */
  lemma HealthStep(h: int, s: int, d: int)
    requires s > 0 && d >= 0
    ensures HealthAfter(Max(0, h - s), d) == HealthAfter(h, s + d)
  {
  }

  /** The snapshot and damage from p are the entry at p, then those from p + 1. */
  lemma PendingStep(mods: seq<Modifier>, p: nat)
    requires p < |mods|
    ensures BurnDamage(mods[p..]) ==
              (if IsBurnId(mods[p].id) && mods[p].stacks > 0 then mods[p].stacks else 0) + BurnDamage(mods[p + 1..])
    ensures IsBurnId(mods[p].id) ==> BurnEntries(mods[p..], p)[0] == (p, mods[p])
    ensures IsBurnId(mods[p].id) ==> BurnEntries(mods[p..], p)[1..] == BurnEntries(mods[p + 1..], p + 1)
    ensures !IsBurnId(mods[p].id) ==> BurnEntries(mods[p..], p) == BurnEntries(mods[p + 1..], p + 1)
  {
    SnapStep(mods, p);
    assert mods[p..][1..] == mods[p + 1..];
  }

  /** The loop over the snapshot from position p, run from the partial state there. */
  function LoopAt(mods: seq<Modifier>, p: nat, ch: Character): Outcome<Character>
    requires p <= |mods| && ch.modifiers == PartialList(mods, p)
  {
    PartialTracks(mods, p);
    BurnLoop(ch, PartialTags(mods, p), BurnEntries(mods[p..], p))
  }

  /** One loop step over a position whose entry the burn step keeps as it is. */
  lemma SkipUnfold(mods: seq<Modifier>, p: nat, ch: Character)
    requires p < |mods| && ch.modifiers == PartialList(mods, p) && (!IsBurnId(mods[p].id) || mods[p].stacks <= 0)
    ensures ch.modifiers == PartialList(mods, p + 1)
    ensures LoopAt(mods, p, ch) == LoopAt(mods, p + 1, ch)
  {
    PendingStep(mods, p);
    KeepStep(mods, p);
    PartialTracks(mods, p);
    PartialTracks(mods, p + 1);
  }

  /**
   * One loop step over a burn with positive stacks: the hit, then the entry is
   * burned, whichever way — the loop goes on from the partial list at p + 1.
   */
  lemma HitUnfold(mods: seq<Modifier>, p: nat, ch: Character)
    requires BurnIdsUnique(mods) && p < |mods| && ch.modifiers == PartialList(mods, p)
    requires IsBurnId(mods[p].id) && mods[p].stacks > 0
    ensures TakeDamage(ch, mods[p].stacks, "burn").Err? ==> LoopAt(mods, p, ch) == Err(CallStackExceeded)
    ensures TakeDamage(ch, mods[p].stacks, "burn").Ok? ==>
              LoopAt(mods, p, ch) == LoopAt(mods, p + 1, TakeDamage(ch, mods[p].stacks, "burn").value.(modifiers := PartialList(mods, p + 1)))
  {
    if mods[p].stacks == 1 {
      DropUnfold(mods, p, ch);
    } else {
      LowerUnfold(mods, p, ch);
    }
  }

  /** `HitUnfold` for a burn at one stack: its entry and tag are removed. */
  lemma DropUnfold(mods: seq<Modifier>, p: nat, ch: Character)
    requires BurnIdsUnique(mods) && p < |mods| && ch.modifiers == PartialList(mods, p)
    requires IsBurnId(mods[p].id) && mods[p].stacks == 1
    ensures TakeDamage(ch, mods[p].stacks, "burn").Err? ==> LoopAt(mods, p, ch) == Err(CallStackExceeded)
    ensures TakeDamage(ch, mods[p].stacks, "burn").Ok? ==>
              LoopAt(mods, p, ch) == LoopAt(mods, p + 1, TakeDamage(ch, mods[p].stacks, "burn").value.(modifiers := PartialList(mods, p + 1)))
  {
    PendingStep(mods, p);
    PartialTracks(mods, p);
    PartialTracks(mods, p + 1);
    DropStep(mods, p);
  }

  /** `HitUnfold` for a burn at more than one stack: its entry loses a stack. */
  lemma LowerUnfold(mods: seq<Modifier>, p: nat, ch: Character)
    requires p < |mods| && ch.modifiers == PartialList(mods, p)
    requires IsBurnId(mods[p].id) && mods[p].stacks > 1
    ensures TakeDamage(ch, mods[p].stacks, "burn").Err? ==> LoopAt(mods, p, ch) == Err(CallStackExceeded)
    ensures TakeDamage(ch, mods[p].stacks, "burn").Ok? ==>
              LoopAt(mods, p, ch) == LoopAt(mods, p + 1, TakeDamage(ch, mods[p].stacks, "burn").value.(modifiers := PartialList(mods, p + 1)))
  {
    PendingStep(mods, p);
    PartialTracks(mods, p);
    PartialTracks(mods, p + 1);
    LowerStep(mods, p);
  }

  /**
   * The loop again, read off the list instead of the snapshot: position by
   * position, a burn with positive stacks deals them and the partial list moves
   * on to p + 1.
   */
  function RefLoop(mods: seq<Modifier>, p: nat, ch: Character): Outcome<Character>
    requires p <= |mods|
    decreases |mods| - p
  {
    if p == |mods| then Ok(ch)
    else if !IsBurnId(mods[p].id) || mods[p].stacks <= 0 then
      RefLoop(mods, p + 1, ch.(modifiers := PartialList(mods, p + 1)))
    else
      var hit := TakeDamage(ch, mods[p].stacks, "burn");
      if hit.Err? then Err(CallStackExceeded)
      else RefLoop(mods, p + 1, hit.value.(modifiers := PartialList(mods, p + 1)))
  }

  /** The snapshot loop and the positional loop agree from every partial state. */
  lemma {:induction false} LoopIsRef(mods: seq<Modifier>, p: nat, ch: Character)
    requires p <= |mods| && BurnIdsUnique(mods) && ch.modifiers == PartialList(mods, p)
    ensures LoopAt(mods, p, ch) == RefLoop(mods, p, ch)
    decreases |mods| - p
  {
    if p == |mods| {
      assert BurnEntries(mods[p..], p) == [];
    } else if !IsBurnId(mods[p].id) || mods[p].stacks <= 0 {
      SkipUnfold(mods, p, ch);
      LoopIsRef(mods, p + 1, ch);
    } else {
      HitUnfold(mods, p, ch);
      var hit := TakeDamage(ch, mods[p].stacks, "burn");
      if hit.Ok? {
        LoopIsRef(mods, p + 1, hit.value.(modifiers := PartialList(mods, p + 1)));
      }
    }
  }

  /** The positional loop leaves the burned list. */
  lemma {:induction false} RefLoopModifiers(mods: seq<Modifier>, p: nat, ch: Character)
    requires p <= |mods| && ch.modifiers == PartialList(mods, p)
    ensures RefLoop(mods, p, ch).Ok? ==> RefLoop(mods, p, ch).value.modifiers == BurnedList(mods)
    decreases |mods| - p
  {
    if p == |mods| {
      assert mods[..p] == mods;
    } else if !IsBurnId(mods[p].id) || mods[p].stacks <= 0 {
      RefLoopModifiers(mods, p + 1, ch.(modifiers := PartialList(mods, p + 1)));
    } else {
      var hit := TakeDamage(ch, mods[p].stacks, "burn");
      if hit.Ok? {
        RefLoopModifiers(mods, p + 1, hit.value.(modifiers := PartialList(mods, p + 1)));
      }
    }
  }

  /** When nothing fires on DAMAGE, the positional loop changes only the health, by the pending burn damage. */
  lemma {:induction false} RefLoopQuiet(mods: seq<Modifier>, p: nat, ch: Character)
    requires p <= |mods| && ch.modifiers == PartialList(mods, p) && IgnoresDamage(mods)
    ensures RefLoop(mods, p, ch)
            == Ok(WithHealth(ch, HealthAfter(ch.stats.health, BurnDamage(mods[p..]))).(modifiers := BurnedList(mods)))
    decreases |mods| - p, 1
  {
    if p == |mods| {
      QuietEnd(mods, ch);
    } else if !IsBurnId(mods[p].id) || mods[p].stacks <= 0 {
      PendingStep(mods, p);
      KeepStep(mods, p);
      RefLoopQuiet(mods, p + 1, ch.(modifiers := PartialList(mods, p + 1)));
    } else {
      RefLoopQuietHit(mods, p, ch);
    }
  }

  /** `RefLoopQuiet` at a burn with positive stacks: the hit, then the rest of the loop. */
  lemma {:induction false} RefLoopQuietHit(mods: seq<Modifier>, p: nat, ch: Character)
    requires p < |mods| && ch.modifiers == PartialList(mods, p) && IgnoresDamage(mods)
    requires IsBurnId(mods[p].id) && mods[p].stacks > 0
    ensures RefLoop(mods, p, ch)
            == Ok(WithHealth(ch, HealthAfter(ch.stats.health, BurnDamage(mods[p..]))).(modifiers := BurnedList(mods)))
    decreases |mods| - p, 0
  {
    var s, d := mods[p].stacks, BurnDamage(mods[p + 1..]);
    var c := WithHealth(ch, Max(0, ch.stats.health - s)).(modifiers := PartialList(mods, p + 1));
    assert RefLoop(mods, p, ch) == RefLoop(mods, p + 1, c) by {
      PartialIgnoresDamage(mods, p);
      QuietHit(ch, s);
    }
    var rest := WithHealth(c, HealthAfter(c.stats.health, d)).(modifiers := BurnedList(mods));
    assert RefLoop(mods, p + 1, c) == Ok(rest) by { RefLoopQuiet(mods, p + 1, c); }
    assert rest == WithHealth(ch, HealthAfter(ch.stats.health, BurnDamage(mods[p..]))).(modifiers := BurnedList(mods)) by {
      PendingStep(mods, p);
      QuietResult(ch, c, s, d, BurnedList(mods));
    }
  }

  /** At the end of the list the character is the burned one, with no damage pending. */
  lemma QuietEnd(mods: seq<Modifier>, ch: Character)
    requires ch.modifiers == PartialList(mods, |mods|)
    ensures ch == WithHealth(ch, HealthAfter(ch.stats.health, BurnDamage(mods[|mods|..]))).(modifiers := BurnedList(mods))
  {
    assert mods[..|mods|] == mods;
    assert mods[|mods|..] == [];
    assert ch.modifiers == BurnedList(mods);
    assert ch.stats.(health := ch.stats.health) == ch.stats;
  }

  /** The character after the hit and the rest of the loop is the character with the whole damage taken at once. */
  lemma QuietResult(ch: Character, c: Character, s: int, d: int, mods: seq<Modifier>)
    requires s > 0 && d >= 0
    requires c == WithHealth(ch, Max(0, ch.stats.health - s)).(modifiers := c.modifiers)
    ensures WithHealth(c, HealthAfter(c.stats.health, d)).(modifiers := mods)
            == WithHealth(ch, HealthAfter(ch.stats.health, s + d)).(modifiers := mods)
  {
    HealthStep(ch.stats.health, s, d);
  }

  /** A burn hit on a character whose modifiers ignore DAMAGE only lowers the health, floored at zero. */
  lemma QuietHit(ch: Character, s: int)
    requires IgnoresDamage(ch.modifiers)
    ensures TakeDamage(ch, s, "burn") == Ok(WithHealth(ch, Max(0, ch.stats.health - s)))
  {
    IgnoresDamageQuiet(ch.modifiers, ch.id, s, "burn");
  }

  /** The loop from the start is `BurnPass`. */
  lemma PassIsLoopAt(ch: Character)
    ensures ch.modifiers == PartialList(ch.modifiers, 0)
    ensures BurnPass(ch) == LoopAt(ch.modifiers, 0, ch)
  {
    var mods := ch.modifiers;
    assert mods[..0] == [] && mods[0..] == mods;
    assert PartialTags(mods, 0) == Tags(|mods|);
    PartialTracks(mods, 0);
  }

  /**
   * The burn step of `endRound` follows the rule entry by entry: with unique
   * burn ids the modifier list it leaves is `BurnedList`, and when nothing fires
   * on DAMAGE the character loses exactly the positive stacks of its burns,
   * floored at zero, and nothing else changes.
   */
  lemma BurnPassFollowsRule(ch: Character)
    requires BurnIdsUnique(ch.modifiers)
    ensures BurnPass(ch).Ok? ==> BurnPass(ch).value.modifiers == BurnedList(ch.modifiers)
    ensures IgnoresDamage(ch.modifiers) ==>
              BurnPass(ch) == Ok(WithHealth(ch, HealthAfter(ch.stats.health, BurnDamage(ch.modifiers)))
                                   .(modifiers := BurnedList(ch.modifiers)))
  {
    var mods := ch.modifiers;
    PassIsLoopAt(ch);
    LoopIsRef(mods, 0, ch);
    RefLoopModifiers(mods, 0, ch);
    if IgnoresDamage(mods) {
      RefLoopQuiet(mods, 0, ch);
      assert mods[0..] == mods;
    }
  }

  /** Burning a concatenation burns each part. */
  lemma {:induction false} BurnedListConcat(a: seq<Modifier>, b: seq<Modifier>)
    ensures BurnedList(a + b) == BurnedList(a) + BurnedList(b)
    decreases |b|
  {
    if |b| > 0 {
      var n := |b| - 1;
      assert (a + b)[..|a + b| - 1] == a + b[..n];
      BurnedListConcat(a, b[..n]);
    } else {
      assert a + b == a;
    }
  }

  /** The tags `BurnedList` keeps are exactly the positions whose entry the step does not drop. */
  lemma {:induction false} BurnedTagsMembers(mods: seq<Modifier>)
    ensures forall t: nat :: t in BurnedTags(mods) <==> t < |mods| && Burned(mods[t]) != []
    decreases |mods|
  {
    if |mods| > 0 {
      var n := |mods| - 1;
      BurnedTagsMembers(mods[..n]);
      forall t: nat | t < n ensures mods[..n][t] == mods[t] { }
    }
  }

  /**
   * The rule for every entry, under unique burn ids: a burn at s > 1 stacks is
   * in the result with s - 1, a burn at one stack leaves no entry with its id, a
   * burn at zero stacks or below and every other modifier are kept as they are.
   */
  lemma BurnedListEntries(mods: seq<Modifier>, j: nat)
    requires BurnIdsUnique(mods) && j < |mods|
    ensures IsBurnId(mods[j].id) && mods[j].stacks > 1 ==> mods[j].(stacks := mods[j].stacks - 1) in BurnedList(mods)
    ensures IsBurnId(mods[j].id) && mods[j].stacks == 1 ==> forall m :: m in BurnedList(mods) ==> m.id != mods[j].id
    ensures !IsBurnId(mods[j].id) || mods[j].stacks <= 0 ==> mods[j] in BurnedList(mods)
  {
    if IsBurnId(mods[j].id) && mods[j].stacks == 1 {
      BurnGone(mods, j);
    } else {
      BurnedKept(mods, j);
    }
  }

  /** An entry the step keeps, changed or not, is in the result. */
  lemma BurnedKept(mods: seq<Modifier>, j: nat)
    requires j < |mods| && Burned(mods[j]) != []
    ensures Burned(mods[j])[0] in BurnedList(mods)
  {
    BurnedListAround(mods, j);
    var before := BurnedList(mods[..j]);
    assert BurnedList(mods)[|before|] == Burned(mods[j])[0];
  }

  /** The result around position j: the burned entries before it, what the step makes of it, the burned entries after. */
  lemma BurnedListAround(mods: seq<Modifier>, j: nat)
    requires j < |mods|
    ensures BurnedList(mods) == BurnedList(mods[..j]) + (Burned(mods[j]) + BurnedList(mods[j + 1..]))
  {
    SplitAt(mods, j);
    BurnedMiddle(mods, mods[..j], mods[j], mods[j + 1..]);
  }

  /** A list is its part before j, its entry at j and its part after j. */
  lemma SplitAt(mods: seq<Modifier>, j: nat)
    requires j < |mods|
    ensures mods == mods[..j] + ([mods[j]] + mods[j + 1..])
  {
  }

  /** `BurnedListConcat` around one entry. */
  lemma BurnedMiddle(mods: seq<Modifier>, a: seq<Modifier>, x: Modifier, b: seq<Modifier>)
    requires mods == a + ([x] + b)
    ensures BurnedList(mods) == BurnedList(a) + (Burned(x) + BurnedList(b))
  {
    BurnedListConcat(a, [x] + b);
    BurnedListConcat([x], b);
    BurnedSingle(x);
  }

  /** Burning a one-entry list. */
  lemma BurnedSingle(x: Modifier)
    ensures BurnedList([x]) == Burned(x)
  {
    assert [x][..0] == [];
  }

  /** With unique burn ids, a burn burned out at position j leaves no entry with its id. */
  lemma BurnGone(mods: seq<Modifier>, j: nat)
    requires BurnIdsUnique(mods) && j < |mods| && IsBurnId(mods[j].id) && mods[j].stacks == 1
    ensures forall m :: m in BurnedList(mods) ==> m.id != mods[j].id
  {
    BurnIdOnlyAt(mods, j);
    BurnedSource(mods);
    BurnedTagsMembers(mods);
    var r := BurnedList(mods);
    forall m | m in r ensures m.id != mods[j].id {
      var k :| 0 <= k < |r| && r[k] == m;
      var t := BurnedTags(mods)[k];
      assert m.id == mods[t].id;
      assert t in BurnedTags(mods);
    }
  }

  /**
   * Two burns at one and three stacks that nothing else reacts to: the first
   * burns out, the second keeps two stacks, and the character loses four health.
   */
  lemma TwoBurns(ch: Character, a: Modifier, b: Modifier)
    requires ch.modifiers == [a, b] && IsBurnId(a.id) && IsBurnId(b.id) && a.id != b.id
    requires a.stacks == 1 && b.stacks == 3 && IgnoresDamage(ch.modifiers)
    ensures BurnPass(ch) == Ok(WithHealth(ch, Max(0, ch.stats.health - 4)).(modifiers := [b.(stacks := 2)]))
  {
    BurnPassFollowsRule(ch);
    TwoBurnsSteps(a, b);
  }

  /** The list and the damage of `TwoBurns`. */
  lemma TwoBurnsSteps(a: Modifier, b: Modifier)
    requires IsBurnId(a.id) && IsBurnId(b.id) && a.stacks == 1 && b.stacks == 3
    ensures BurnedList([a, b]) == [b.(stacks := 2)]
    ensures BurnDamage([a, b]) == 4
  {
    assert [a, b] == [a] + [b];
    BurnedListConcat([a], [b]);
    BurnedSingle(a);
    BurnedSingle(b);
    assert [a, b][1..] == [b] && [b][1..] == [];
    assert BurnDamage([b]) == 3;
  }
}
