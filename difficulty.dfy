/** Difficulty scaling of src/components/GameEngine.tsx: the level derived
    from the score, its speed multiplier, the rocket speed at spawn time and
    the spawn interval chosen after each spawn. */
module Difficulty {
  import opened Geometry

  /** Score bands of the three levels (GameEngine.tsx 214-216). */
  function Level(score: int): (level: int)
    ensures 1 <= level <= 3
  {
    if score < 300 then 1 else if score < 600 then 2 else 3
  }

  /** The speed multiplier of a level (GameEngine.tsx 218). */
  function LevelMultiplier(level: int): (mul: real)
    ensures 1.0 <= mul <= 2.0
  {
    if level == 1 then 1.0 else if level == 2 then 1.5 else 2.0
  }

  /** The speed of a rocket spawned at this score (GameEngine.tsx 230). */
  function RocketSpeed(score: int): real
  {
    (0.0008 + (score as real / 15000.0) * 0.001) * LevelMultiplier(Level(score))
  }

  /** The interval until the next spawn, chosen right after a spawn at this
      score (GameEngine.tsx 234). */
  function SpawnIntervalAfter(score: int): real
  {
    Max(800.0, 2500.0 - (score as real / 1000.0) * 1000.0) / LevelMultiplier(Level(score))
  }

  /** The first spawn interval of a session (GameEngine.tsx 37, 60). It differs
      from what SpawnIntervalAfter gives at score 0. */
  const InitialSpawnInterval: real := 2000.0

  lemma LevelMonotone(s1: int, s2: int)
    requires s1 <= s2
    ensures Level(s1) <= Level(s2)
    ensures LevelMultiplier(Level(s1)) <= LevelMultiplier(Level(s2))
  {
  }

  /** For a non-negative score the post-spawn interval lies in [400, 2500]. */
  lemma SpawnIntervalBounds(score: int)
    requires 0 <= score
    ensures 400.0 <= SpawnIntervalAfter(score) <= 2500.0
  {
    var n := Max(800.0, 2500.0 - (score as real / 1000.0) * 1000.0);
    assert n == Max(800.0, 2500.0 - score as real);
    var mul := LevelMultiplier(Level(score));
    if score < 300 {
      assert mul == 1.0;
    } else if score < 600 {
      assert mul == 1.5 && n <= 2200.0;
    } else {
      assert mul == 2.0 && n <= 1900.0;
    }
  }

  /** A higher score never gives a longer post-spawn interval. */
  lemma SpawnIntervalNonIncreasing(s1: int, s2: int)
    requires s1 <= s2
    ensures SpawnIntervalAfter(s2) <= SpawnIntervalAfter(s1)
  {
    var n1 := Max(800.0, 2500.0 - (s1 as real / 1000.0) * 1000.0);
    var n2 := Max(800.0, 2500.0 - (s2 as real / 1000.0) * 1000.0);
    assert n1 == Max(800.0, 2500.0 - s1 as real);
    assert n2 == Max(800.0, 2500.0 - s2 as real);
    assert n2 <= n1;
    var m1, m2 := LevelMultiplier(Level(s1)), LevelMultiplier(Level(s2));
    LevelMonotone(s1, s2);
    assert 0.0 < n2;
    assert n2 / m2 <= n2 / m1 by {
      assert n2 / m2 * m2 == n2 == n2 / m1 * m1;
      assert n2 / m2 * m1 <= n2 / m2 * m2;
    }
    assert n2 / m1 <= n1 / m1;
  }

  /** A higher score never gives a slower rocket. */
  lemma RocketSpeedNonDecreasing(s1: int, s2: int)
    requires 0 <= s1 <= s2
    ensures 0.0 < RocketSpeed(s1) <= RocketSpeed(s2)
  {
    var b1 := 0.0008 + (s1 as real / 15000.0) * 0.001;
    var b2 := 0.0008 + (s2 as real / 15000.0) * 0.001;
    assert 0.0 < b1 <= b2;
    var m1, m2 := LevelMultiplier(Level(s1)), LevelMultiplier(Level(s2));
    LevelMonotone(s1, s2);
    assert b1 * m1 <= b2 * m1;
    assert b2 * m1 <= b2 * m2;
  }
}
