/**
 * The pure arithmetic of Castle Defender's round simulation
 * (DefenderGame.java): the damage-stage chain, the knight spawn chance,
 * tap scores, the end-of-tick state decision and the counting and search
 * over the attacker pool's alive flags.
 */
module DefenderRules {
  import opened Wrappers

  datatype GameState = PreGame | RoundStart | RoundPlay | RoundOver | GameOver

  /** The two attacker types; each owns one half of the pool. */
  datatype Kind = Normal | Knight

  const PoolSize: nat := 50
  const HalfSize: nat := PoolSize / 2
  const MaxHealth: int := 1000
  const RepairCost: int := 1000
  const MinStopX: real := 585.0
  const RushWaves: nat := 3
  const RushWaveSize: nat := 5
  const RushSize: nat := RushWaves * RushWaveSize
  const MonsterHouseReset: int := 10
  const RoundStartDelay: int := 15

  /** Fraction of the castle's health that is gone; negative after over-repair. */
  function PercentDamage(health: int): real
  {
    (MaxHealth - health) as real / MaxHealth as real
  }

  /** The stage the source computes: a first if/else between 0 and 1 at 0.5,
      then four tests that each override the previous result. */
  function StageChain(pd: real): (stage: int)
    ensures 0 <= stage <= 5
    ensures stage != 1
  {
    var s := if pd < 0.5 then 0 else 1;
    var s := if pd > 0.15 then 2 else s;
    var s := if pd > 0.35 then 3 else s;
    var s := if pd > 0.65 then 4 else s;
    if pd > 0.85 then 5 else s
  }

  /** The stage as a table over half-open intervals of the damage ratio. */
  function StageTable(pd: real): int
  {
    if pd <= 0.15 then 0
    else if pd <= 0.35 then 2
    else if pd <= 0.65 then 3
    else if pd <= 0.85 then 4
    else 5
  }

  lemma StageChainIsTable(pd: real)
    ensures StageChain(pd) == StageTable(pd)
  {
  }

  lemma StageMonotone(p: real, q: real)
    requires p <= q
    ensures StageChain(p) <= StageChain(q)
  {
    StageChainIsTable(p);
    StageChainIsTable(q);
  }

  /** A few health values and the stage the castle shows for them. */
  lemma StageExamples()
    ensures StageChain(PercentDamage(1100)) == 0
    ensures StageChain(PercentDamage(900)) == 0
    ensures StageChain(PercentDamage(600)) == 3
    ensures StageChain(PercentDamage(500)) == 3
    ensures StageChain(PercentDamage(140)) == 5
  {
  }

  /** mKnightSpawnChance after a round reset: +10% per round from 35%,
      capped at 65%. */
  function KnightChance(round: int): (c: real)
    ensures c <= 0.65
    ensures round >= 1 ==> 0.35 <= c
    ensures c == 0.65 || c == 0.35 + 0.1 * (round - 1) as real
    ensures round >= 4 ==> c == 0.65
  {
    var c := 0.35 + 0.1 * (round - 1) as real;
    if c > 0.65 then 0.65 else c
  }

  lemma KnightChanceMonotone(r1: int, r2: int)
    requires r1 <= r2
    ensures KnightChance(r1) <= KnightChance(r2)
  {
  }

  /** A draw above the knight chance picks a normal attacker. */
  function KindOf(draw: real, knightChance: real): (k: Kind)
    ensures k == Knight <==> draw <= knightChance
  {
    if draw > knightChance then Normal else Knight
  }

  /** A larger knight chance never turns a knight draw into a normal one. */
  lemma KindOfMonotone(draw: real, kc1: real, kc2: real)
    requires kc1 <= kc2 && KindOf(draw, kc1) == Knight
    ensures KindOf(draw, kc2) == Knight
  {
  }

  /** A draw that spawns a knight in one round spawns a knight in every
      later round; from round 4 on, exactly the draws up to 0.65 do. */
  lemma KnightDrawStaysKnight(draw: real, r1: int, r2: int)
    requires r1 <= r2 && KindOf(draw, KnightChance(r1)) == Knight
    ensures KindOf(draw, KnightChance(r2)) == Knight
    ensures r2 >= 4 ==> (KindOf(draw, KnightChance(r2)) == Knight <==> draw <= 0.65)
  {
    KnightChanceMonotone(r1, r2);
    KindOfMonotone(draw, KnightChance(r1), KnightChance(r2));
  }

  /** First slot of a kind's half of the pool. */
  function FirstSlot(k: Kind): (lo: nat)
    ensures lo < PoolSize
  {
    if k == Normal then 0 else HalfSize
  }

  /** One past the last slot of a kind's half of the pool. */
  function EndSlot(k: Kind): (hi: nat)
    ensures FirstSlot(k) + HalfSize == hi <= PoolSize
  {
    if k == Normal then HalfSize else PoolSize
  }

  /** Points for a tap kill: 100, and 150 more for a knight slot. */
  function KillScore(index: int): (points: int)
    ensures points == 100 || points == 250
    ensures points == 250 <==> index >= HalfSize
  {
    100 + (if index > HalfSize - 1 then 150 else 0)
  }

  /** The state after the end-of-tick checks: the game-over test runs first,
      the round-over test second, so a round that times out wins. */
  function EndOfTickState(s: GameState, health: int, elapsed: real, maxTime: real): (r: GameState)
    ensures elapsed > maxTime ==> r == RoundOver
    ensures elapsed <= maxTime && health <= 0 ==> r == GameOver
    ensures elapsed <= maxTime && health > 0 ==> r == s
  {
    var s := if health <= 0 then GameOver else s;
    if elapsed > maxTime then RoundOver else s
  }

  lemma RoundOverOverridesGameOver(s: GameState, health: int, elapsed: real, maxTime: real)
    requires health <= 0 && elapsed > maxTime
    ensures EndOfTickState(s, health, elapsed, maxTime) == RoundOver
  {
  }

  /** The states one frame of the game loop can lead to. */
  predicate Transition(from: GameState, to: GameState)
  {
    from == to ||
    match from
    case PreGame => to == RoundStart
    case RoundStart => to == RoundPlay
    case RoundPlay => to == RoundOver || to == GameOver
    case RoundOver => to == RoundStart
    case GameOver => to == RoundStart
  }

  /** Number of set flags. */
  function CountTrue(s: seq<bool>): (n: nat)
    ensures n <= |s|
  {
    if s == [] then 0 else CountTrue(s[..|s| - 1]) + (if s[|s| - 1] then 1 else 0)
  }

  lemma {:induction false} CountTrueUpdate(s: seq<bool>, i: nat, b: bool)
    requires i < |s|
    ensures CountTrue(s[i := b]) == CountTrue(s) - (if s[i] then 1 else 0) + (if b then 1 else 0)
  {
    var last := |s| - 1;
    if i < last {
      assert s[i := b][..last] == s[..last][i := b];
      CountTrueUpdate(s[..last], i, b);
    } else {
      assert s[i := b][..last] == s[..last];
    }
  }

  lemma {:induction false} CountTrueNone(s: seq<bool>)
    requires forall i :: 0 <= i < |s| ==> !s[i]
    ensures CountTrue(s) == 0
  {
    if s != [] {
      CountTrueNone(s[..|s| - 1]);
    }
  }

  /** The lowest index in [lo, hi) whose flag is clear, if any. */
  function FirstDead(alive: seq<bool>, lo: nat, hi: nat): (r: Option<nat>)
    requires hi <= |alive|
    ensures r.None? <==> forall j :: lo <= j < hi ==> alive[j]
    ensures r.Some? ==> lo <= r.value < hi && !alive[r.value] && forall j :: lo <= j < r.value ==> alive[j]
    decreases hi - lo
  {
    if lo >= hi then None
    else if !alive[lo] then Some(lo)
    else FirstDead(alive, lo + 1, hi)
  }

  /** Castle damage from one pass over the pool: the hit damage of every
      slot among the first n that reached the stop line. */
  function DamageDealt(arrived: seq<bool>, damage: seq<int>, n: nat): int
    requires n <= |arrived| && n <= |damage|
  {
    if n == 0 then 0
    else DamageDealt(arrived, damage, n - 1) + (if arrived[n - 1] then damage[n - 1] else 0)
  }

  lemma {:induction false} DamageDealtBounds(arrived: seq<bool>, damage: seq<int>, n: nat)
    requires n <= |arrived| && n <= |damage|
    requires forall i :: 0 <= i < n ==> damage[i] >= 0
    ensures DamageDealt(arrived, damage, n) >= 0
    ensures (forall i :: 0 <= i < n ==> !arrived[i]) ==> DamageDealt(arrived, damage, n) == 0
  {
    if n > 0 {
      DamageDealtBounds(arrived, damage, n - 1);
    }
  }

  /** The damage stage after the first n slots of one pass: redrawn from
      the castle's health at every arrival, otherwise left as it was. */
  function StageAfter(arrived: seq<bool>, damage: seq<int>, health: int, stage: int, n: nat): int
    requires n <= |arrived| && n <= |damage|
  {
    if n == 0 then stage
    else if arrived[n - 1] then StageChain(PercentDamage(health - DamageDealt(arrived, damage, n)))
    else StageAfter(arrived, damage, health, stage, n - 1)
  }

  /** If any of the first n slots arrived the stage matches the health
      left after them; otherwise both the stage and the health are
      untouched. */
  lemma {:induction false} StageAfterTracksHealth(arrived: seq<bool>, damage: seq<int>, health: int, stage: int, n: nat)
    requires n <= |arrived| && n <= |damage|
    ensures true in arrived[..n] ==>
      StageAfter(arrived, damage, health, stage, n) == StageChain(PercentDamage(health - DamageDealt(arrived, damage, n)))
    ensures true !in arrived[..n] ==>
      StageAfter(arrived, damage, health, stage, n) == stage && DamageDealt(arrived, damage, n) == 0
  {
    if n > 0 {
      assert arrived[..n] == arrived[..n - 1] + [arrived[n - 1]];
      StageAfterTracksHealth(arrived, damage, health, stage, n - 1);
    }
  }

  /** One whole pass: the castle never gains health; if some slot arrived
      the stage matches the health left, otherwise stage and health are
      untouched. */
  lemma PassEffect(arrived: seq<bool>, damage: seq<int>, health: int, stage: int)
    requires |arrived| == |damage| && forall i :: 0 <= i < |damage| ==> damage[i] >= 0
    ensures DamageDealt(arrived, damage, |arrived|) >= 0
    ensures true in arrived ==>
      StageAfter(arrived, damage, health, stage, |arrived|) ==
      StageChain(PercentDamage(health - DamageDealt(arrived, damage, |arrived|)))
    ensures true !in arrived ==>
      StageAfter(arrived, damage, health, stage, |arrived|) == stage && DamageDealt(arrived, damage, |arrived|) == 0
  {
    DamageDealtBounds(arrived, damage, |arrived|);
    StageAfterTracksHealth(arrived, damage, health, stage, |arrived|);
    assert arrived[..|arrived|] == arrived;
  }

  /** mSpawnTimeMin after a fresh game has reset for rounds 1..n: each reset
      lowers it by five times the round number, and nothing raises it. */
  function SpawnMinAfterRounds(n: nat): int
  {
    if n == 0 then 85 else SpawnMinAfterRounds(n - 1) - 5 * n
  }

  lemma {:induction false} SpawnMinClosedForm(n: nat)
    ensures 2 * SpawnMinAfterRounds(n) == 170 - 5 * n * (n + 1)
  {
    if n > 0 {
      SpawnMinClosedForm(n - 1);
    }
  }

  /** From round 7 on the whole reseed window [min, min + 35] lies below
      zero, so every reseed leaves the spawn timer negative and a revive is
      requested on every play tick. */
  lemma {:induction false} SpawnWindowNegativeFromRoundSeven(n: nat)
    requires n >= 7
    ensures SpawnMinAfterRounds(n) + 35 < 0
  {
    if n > 7 {
      SpawnWindowNegativeFromRoundSeven(n - 1);
    } else {
      SpawnMinClosedForm(7);
    }
  }
}
