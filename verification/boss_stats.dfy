/**
 * Boss scaling by level (src/lib/server/db/bossStats.ts): attack 2, 6, 10 at
 * levels 1 to 3, then 5 more per level; health 50 per level, except a single
 * point at level 1; the boss starts at full health.
 */
module BossStats {
  import opened Types

  /** `getBossStats(level)`. */
  function GetBossStats(level: int): (s: Stats)
    ensures s.health == s.maxHealth
    ensures level == 1 ==> s == Stats(1, 1, 2)
    ensures level != 1 ==> s.health == 50 * level
    ensures level == 2 ==> s.attack == 6
    ensures level != 1 && level != 2 ==> s.attack == 5 * level - 5
  {
    var attack := if level == 1 then 2 else if level == 2 then 6 else if level == 3 then 10 else 10 + (level - 3) * 5;
    var health := if level == 1 then 1 else 50 * level;
    Stats(health, health, attack)
  }

  /** From level 1 on, each level raises the boss's attack (by 4 up to level 3, by 5 after). */
  lemma AttackGrowsWithLevel(level: int)
    requires level >= 1
    ensures GetBossStats(level + 1).attack - GetBossStats(level).attack == (if level <= 2 then 4 else 5)
  {
  }

  /** From level 1 on, each level raises the boss's health; from level 2 on by exactly 50. */
  lemma HealthGrowsWithLevel(level: int)
    requires level >= 1
    ensures GetBossStats(level + 1).health > GetBossStats(level).health
    ensures level >= 2 ==> GetBossStats(level + 1).health == GetBossStats(level).health + 50
  {
  }

  /** For levels a <= b from 1 on, the boss at level b is at least as strong in both stats. */
  lemma {:induction false} StatsMonotone(a: int, b: int)
    requires 1 <= a <= b
    ensures GetBossStats(a).attack <= GetBossStats(b).attack
    ensures GetBossStats(a).health <= GetBossStats(b).health
    decreases b - a
  {
    if a < b {
      AttackGrowsWithLevel(a);
      HealthGrowsWithLevel(a);
      StatsMonotone(a + 1, b);
    }
  }
}
