/**
 * Turning a stored character row into an engine character
 * (src/lib/gameLogic/createCharacterFromDb.ts): the numeric row id becomes the
 * decimal string id, the stats are taken as stored (hat bonuses are already in
 * them), and a hat the row wears becomes the character's one modifier.
 */
module CharacterFromDb {
  import opened Wrappers
  import opened Types
  import opened Modifiers
  import opened Characters
  import opened Hats

  datatype Side = HeroSide | EnemySide

  /** The joined `characterType` of a row. */
  datatype CharacterTypeRow = CharacterTypeRow(id: int, name: string, imageUrl: Option<string>, baseStats: Stats)

  /** `DbCharacter`; an absent and a null `hatId` are both `None`. */
  datatype DbCharacter = DbCharacter(
    id: int,
    side: Side,
    characterTypeId: int,
    level: Option<int>,
    hatId: Option<int>,
    stats: Stats,
    characterType: CharacterTypeRow)

  function DigitChar(d: int): (c: char)
    requires 0 <= d < 10
    ensures '0' <= c <= '9'
  {
    "0123456789"[d]
  }

  function DigitValue(c: char): int {
    c as int - '0' as int
  }

  /** The decimal digits of a natural number, most significant first, without leading zeros. */
  function NatToString(n: nat): (s: string)
    ensures |s| > 0 && '0' <= s[0] <= '9'
    ensures forall i :: 0 <= i < |s| ==> '0' <= s[i] <= '9'
    ensures n > 0 ==> s[0] != '0'
    ensures n == 0 ==> s == "0"
    decreases n
  {
    if n < 10 then [DigitChar(n)] else NatToString(n / 10) + [DigitChar(n % 10)]
  }

  /** `Number.prototype.toString()` on an integer: a minus sign for negatives, then the digits. */
  function IntToString(n: int): (s: string)
    ensures |s| > 0
    ensures (n < 0) <==> s[0] == '-'
    ensures n < 0 ==> |s| > 1 && s[1] != '0' && forall i :: 1 <= i < |s| ==> '0' <= s[i] <= '9'
    ensures n >= 0 ==> forall i :: 0 <= i < |s| ==> '0' <= s[i] <= '9'
    ensures n > 0 ==> s[0] != '0'
    ensures n == 0 ==> s == "0"
  {
    if n < 0 then "-" + NatToString(-n) else NatToString(n)
  }

  /** Reads decimal digits back, most significant first. */
  function ParseNat(s: string): int
    decreases |s|
  {
    if |s| == 0 then 0 else 10 * ParseNat(s[..|s| - 1]) + DigitValue(s[|s| - 1])
  }

  /** Reads an optional minus sign and decimal digits back. */
  function ParseInt(s: string): int {
    if |s| > 0 && s[0] == '-' then -ParseNat(s[1..]) else ParseNat(s)
  }

  lemma {:induction false} NatToStringRoundTrip(n: nat)
    ensures ParseNat(NatToString(n)) == n
    decreases n
  {
    if n >= 10 {
      var s := NatToString(n);
      var prefix := NatToString(n / 10);
      assert s[..|s| - 1] == prefix;
      NatToStringRoundTrip(n / 10);
      assert DigitValue(s[|s| - 1]) == n % 10 by {
        assert s[|s| - 1] == DigitChar(n % 10);
      }
    } else {
      var s := NatToString(n);
      assert s[..0] == [];
    }
  }

  /** Parsing the string id gives back the row id: no two rows share a character id. */
  lemma IntToStringRoundTrip(n: int)
    ensures ParseInt(IntToString(n)) == n
  {
    if n < 0 {
      NegativeRoundTrip(n);
    } else {
      NatToStringRoundTrip(n);
      ParseUnsigned(NatToString(n));
    }
  }

  lemma NegativeRoundTrip(n: int)
    requires n < 0
    ensures ParseInt(IntToString(n)) == n
  {
    NatToStringRoundTrip(-n);
    NegativeShape(n);
    ParseSigned(n, IntToString(n), NatToString(-n));
  }

  lemma NegativeShape(n: int)
    requires n < 0
    ensures IntToString(n) == "-" + NatToString(-n)
  {
  }

  lemma ParseSigned(n: int, s: string, digits: string)
    requires s == "-" + digits && ParseNat(digits) == -n
    ensures ParseInt(s) == n
  {
    assert s[0] == '-' && s[1..] == digits;
  }

  lemma ParseUnsigned(digits: string)
    requires |digits| > 0 && '0' <= digits[0] <= '9'
    ensures ParseInt(digits) == ParseNat(digits)
  {
    assert digits[0] != '-';
  }

  /** Distinct row ids give distinct character ids. */
  lemma IntToStringInjective(a: int, b: int)
    ensures IntToString(a) == IntToString(b) ==> a == b
  {
    IntToStringRoundTrip(a);
    IntToStringRoundTrip(b);
  }

  /** `if (dbCharacter.hatId)`: a hat is worn when the id is present and nonzero. */
  predicate WearsHat(db: DbCharacter) {
    db.hatId.Some? && db.hatId.value != 0
  }

  /**
   * `createCharacterFromDb`: a blank character named after its type, with the
   * stored stats, no abilities, and the hat's modifier when the row wears a hat
   * the registry knows (unknown hat ids are ignored).
   */
  function CreateCharacterFromDb(db: DbCharacter): (c: Character)
    ensures c.id == IntToString(db.id) && ParseInt(c.id) == db.id
    ensures c.name == db.characterType.name && c.stats == db.stats && c.abilities == []
    ensures WearsHat(db) && 1 <= db.hatId.value <= 16 ==>
              c.modifiers == [GetHatDefinition(db.hatId.value).value.modifier]
    ensures !(WearsHat(db) && 1 <= db.hatId.value <= 16) ==> c.modifiers == []
    ensures |c.modifiers| <= 1 && (forall m :: m in c.modifiers ==> IsHatId(m.id))
  {
    IntToStringRoundTrip(db.id);
    var blank := NewCharacter(IntToString(db.id), db.characterType.name, db.stats, []);
    if WearsHat(db) then
      match GetHatDefinition(db.hatId.value)
      case Some(hat) => AddModifier(blank, hat.modifier)
      case None => blank
    else blank
  }

  /**
   * A character built from a row enters the engine in the shape the round logic
   * relies on: no modifier re-enters the damage pipeline and burn ids are unique.
   */
  lemma FromDbIsSettled(db: DbCharacter)
    ensures Settled(CreateCharacterFromDb(db).modifiers)
    ensures BurnIdsUnique(CreateCharacterFromDb(db).modifiers)
  {
  }
}
