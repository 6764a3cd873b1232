/**
 * Castle Defender's round simulation (DefenderGame.java): a pool of 50
 * pooled attackers (slots 0-24 normal, 25-49 knights), the spawn timers,
 * tap kills, arrival damage, the castle's damage stage and the five-state
 * game machine driven once per frame.
 */
module Defender {
  import opened Wrappers
  import opened GdxSprite
  import opened GdxAttacker
  import opened DefenderRules

  /** The seven hard-coded buttons, in the order of mButtons. */
  datatype Button = NewGameButton | LoadGameButton | PauseButton | ResumeButton
                  | RepairButton | NextRoundButton | SaveButton

  /** A pointer-down event already in world coordinates, with the buttons
      whose rectangles hold the point. */
  datatype Touch = Touch(x: real, y: real, hits: set<Button>)

  /** The frame's touch, if any, landed on the button's rectangle. */
  predicate OnButton(touch: Option<Touch>, b: Button)
  {
    touch.Some? && b in touch.value.hits
  }

  /** The three scalars the save slot holds. */
  datatype SaveData = SaveData(round: int, health: int, totalScore: int)

  const StandardWalk := Animation(0.055, 16)
  const KnightWalk := Animation(0.125, 8)
  const KnightAttack := Animation(0.25, 4)
  const MinSpeed: real := 150.0
  const MaxSpeedVariance: real := 120.0
  const MinSpawnY: real := 65.0
  const MaxSpawnYVariance: real := 30.0
  const OffScreenX: real := -100.0

  /** The animation names create() gives slot i: a walk, and for a
      knight also an attack. */
  function SlotNames(i: int): (names: seq<string>)
    ensures "walk" in names && ("attack" in names <==> i >= HalfSize)
  {
    if i < HalfSize then ["walk"] else ["walk", "attack"]
  }

  /** Attacker a is slot i as create() builds it from its speed and
      height draws: dead at x = -100, a normal attacker in the first half
      and a knight at three quarters of the drawn speed and with twice the
      damage in the second. */
  ghost predicate Built(a: Attacker, i: int, speedDraw: real, heightDraw: real)
    reads a`alive, a`x, a`y, a.sprite`boxX, a.sprite`boxY, a.sprite`names, a.sprite`anims,
      a.sprite`animating, a.sprite`current
  {
    a.Valid() && !a.alive && a.x == OffScreenX && a.startX == OffScreenX &&
    a.hitDamage == (if i < HalfSize then 1 else 2) &&
    a.walkSpeed == (if i < HalfSize then 1.0 else 0.75) * (speedDraw * MaxSpeedVariance + MinSpeed) &&
    a.y == heightDraw * MaxSpawnYVariance + MinSpawnY && a.sprite.names == SlotNames(i)
  }

  /** One turn of the attacker loop of create(): slot i with its speed
      and height draws. */
  method NewSlot(i: nat, speedDraw: real, heightDraw: real) returns (a: Attacker)
    ensures fresh(a) && fresh(a.sprite) && Built(a, i, speedDraw, heightDraw)
  {
    var walkSpeed := speedDraw * MaxSpeedVariance + MinSpeed;
    var spawnY := heightDraw * MaxSpawnYVariance + MinSpawnY;
    if i < HalfSize {
      a := new Attacker(1, walkSpeed, OffScreenX, spawnY, 64.0, 64.0, "normal");
      a.AddAnimation(StandardWalk, "walk");
    } else {
      a := new Attacker(2, walkSpeed * 0.75, OffScreenX, spawnY, 64.0, 128.0, "knight");
      a.AddAnimation(KnightWalk, "walk");
      a.AddAnimation(KnightAttack, "attack");
    }
  }

  /** The attacker loop of create(): slot i gets speed draw i and height
      draw i; the first half are normal attackers, the second knights at
      three quarters of their drawn speed and with twice the damage. */
  method NewPool(speedDraws: seq<real>, heightDraws: seq<real>)
    returns (attackers: seq<Attacker>, ghost frame: set<Attacker>, ghost spriteFrame: set<Sprite>)
    requires |speedDraws| == PoolSize && |heightDraws| == PoolSize
    ensures |attackers| == PoolSize && fresh(frame) && fresh(spriteFrame)
    ensures forall j :: 0 <= j < PoolSize ==> attackers[j] in frame && attackers[j].sprite in spriteFrame
    ensures forall j :: 0 <= j < PoolSize ==>
      fresh(attackers[j]) && fresh(attackers[j].sprite) && Built(attackers[j], j, speedDraws[j], heightDraws[j])
    ensures forall j, k :: 0 <= j < PoolSize && 0 <= k < PoolSize && j != k ==>
      attackers[j] != attackers[k] && attackers[j].sprite != attackers[k].sprite
  {
    attackers, frame, spriteFrame := [], {}, {};
    var i := 0;
    while i < PoolSize
      invariant 0 <= i <= PoolSize && |attackers| == i && fresh(frame) && fresh(spriteFrame)
      invariant forall j :: 0 <= j < i ==> attackers[j] in frame && attackers[j].sprite in spriteFrame
      invariant forall j :: 0 <= j < i ==>
        fresh(attackers[j]) && fresh(attackers[j].sprite) && Built(attackers[j], j, speedDraws[j], heightDraws[j])
      invariant forall j, k :: 0 <= j < i && 0 <= k < i && j != k ==>
        attackers[j] != attackers[k] && attackers[j].sprite != attackers[k].sprite
    {
      var a := NewSlot(i, speedDraws[i], heightDraws[i]);
      attackers := attackers + [a];
      frame, spriteFrame := frame + {a}, spriteFrame + {a.sprite};
      i := i + 1;
    }
  }

  /** The attacker's part of one step of the arrival loop: it updates, and
      if that took it past the stop line it plays its attack and is put back
      on the line. */
  method StepAttacker(a: Attacker, dt: real) returns (arrived: bool)
    requires a.Valid()
    modifies a`x, a`y, a.sprite`stateTime, a.sprite`x, a.sprite`y, a.sprite`boxX, a.sprite`boxY,
      a.sprite`current, a.sprite`animating, a.sprite`looping
    ensures a.Valid()
    ensures arrived == (old(a.AdvancedX(dt)) > MinStopX)
    ensures a.x == (if arrived then MinStopX else old(a.AdvancedX(dt))) && a.y == old(a.AdvancedY())
  {
    var _ := a.Update(dt);
    arrived := a.x > MinStopX;
    if arrived {
      a.Play("attack", true);
      a.SetPosition(MinStopX, a.y);
    }
  }

  class Game {
    const pool: seq<Attacker>
    var roundNumber: int
    var roundMaxAttackers: int
    var livingCount: int
    var damageStage: int
    var state: GameState
    var attackerDelay: int
    var roundTimeElapsed: real
    var castleHealth: int
    var roundScore: int
    var totalScore: int
    var knightChance: real
    var roundMaxTime: real
    var paused: bool
    var roundSaved: bool
    var monsterHouseSpawn: int
    var spawnTime: int
    var spawnTimeMin: int
    var spawnTimeMax: int
    var visible: set<Button>

    /** The pooled attackers and their sprites, as frames. */
    ghost const attackers: set<Attacker>
    ghost const sprites: set<Sprite>

    /** Fifty slots holding pairwise distinct attackers with pairwise
        distinct sprites, all inside the frame sets. */
    ghost predicate Pooled()
    {
      |pool| == PoolSize &&
      (forall i :: 0 <= i < |pool| ==> pool[i] in attackers && pool[i].sprite in sprites) &&
      forall i, j :: 0 <= i < |pool| && 0 <= j < |pool| && i != j ==>
        pool[i] != pool[j] && pool[i].sprite != pool[j].sprite
    }

    /** Slot i is a well-formed attacker on or behind the stop line, with a
        walk to play. */
    ghost predicate SlotOk(i: int)
      requires 0 <= i < |pool|
      reads {pool[i]}`alive, {pool[i]}`x, {pool[i]}`y, pool[i].sprite`boxX, pool[i].sprite`boxY,
        pool[i].sprite`names, pool[i].sprite`anims, pool[i].sprite`animating, pool[i].sprite`current
    {
      pool[i].Valid() && pool[i].x <= MinStopX && pool[i].startX <= MinStopX && pool[i].hitDamage >= 0 &&
      "walk" in pool[i].sprite.names
    }

    /** The pool has 50 distinct well-formed slots. */
    ghost predicate Valid()
      reads attackers`alive, attackers`x, attackers`y, sprites`boxX, sprites`boxY,
        sprites`names, sprites`anims, sprites`animating, sprites`current
    {
      Pooled() && forall i :: 0 <= i < PoolSize ==> SlotOk(i)
    }

    /** The living counter is at least the number of live slots, and the
        reseed window keeps its width of 35. */
    ghost predicate Counted()
      requires Pooled()
      reads this`livingCount, this`spawnTimeMin, this`spawnTimeMax, attackers`alive
    {
      CountTrue(AliveFlags()) <= livingCount && spawnTimeMax - spawnTimeMin == 35
    }

    /** Counted, and the live slots never outnumber the round's cap: a
        revive happens only below the cap and a round reset kills every
        slot, so a counter that has drifted above the cap cannot carry the
        pool past it. */
    ghost predicate Tally()
      requires Pooled()
      reads this`livingCount, this`roundMaxAttackers, this`spawnTimeMin, this`spawnTimeMax, attackers`alive
    {
      Counted() && CountTrue(AliveFlags()) <= Max(roundMaxAttackers, 0)
    }

    ghost function AliveFlags(): (s: seq<bool>)
      requires Pooled()
      reads attackers`alive
      ensures |s| == |pool| && forall i :: 0 <= i < |pool| ==> s[i] == pool[i].alive
    {
      AliveUpTo(|pool|)
    }

    /** The alive flags of slots 0 .. n-1. */
    ghost function AliveUpTo(n: nat): (s: seq<bool>)
      requires Pooled() && n <= |pool|
      reads attackers`alive
      ensures |s| == n && forall i :: 0 <= i < n ==> s[i] == pool[i].alive
    {
      if n == 0 then [] else AliveUpTo(n - 1) + [pool[n - 1].alive]
    }

    /** Which slots would pass the stop line on an update with this dt. */
    ghost function Arrivals(dt: real): (s: seq<bool>)
      requires Pooled()
      reads attackers`alive, attackers`x, sprites`animating, sprites`x
      ensures |s| == |pool| && forall i :: 0 <= i < |pool| ==> s[i] == (pool[i].AdvancedX(dt) > MinStopX)
    {
      ArrivalsUpTo(dt, |pool|)
    }

    /** The arrival flags of slots 0 .. n-1. */
    ghost function ArrivalsUpTo(dt: real, n: nat): (s: seq<bool>)
      requires Pooled() && n <= |pool|
      reads attackers`alive, attackers`x, sprites`animating, sprites`x
      ensures |s| == n && forall i :: 0 <= i < n ==> s[i] == (pool[i].AdvancedX(dt) > MinStopX)
    {
      if n == 0 then [] else ArrivalsUpTo(dt, n - 1) + [pool[n - 1].AdvancedX(dt) > MinStopX]
    }

    function HitDamages(): (s: seq<int>)
      ensures |s| == |pool| && forall i :: 0 <= i < |pool| ==> s[i] == pool[i].hitDamage
    {
      seq(|pool|, i requires 0 <= i < |pool| => pool[i].hitDamage)
    }

    /** Slot i is alive and its box holds the point. */
    predicate Tapped(i: int, px: real, py: real)
      requires 0 <= i < |pool|
      reads {pool[i]}`alive, {pool[i]}`x, {pool[i]}`y
    {
      pool[i].alive && Contains(Rect(pool[i].x, pool[i].y, pool[i].width, pool[i].height), px, py)
    }

    /** A button reacts when it is visible and the touch landed on it. */
    predicate Pressed(touch: Option<Touch>, b: Button)
      reads this`visible
    {
      b in visible && OnButton(touch, b)
    }

    /** The round values create() starts from: pre-game, round 1, a whole
        castle, a cap of 5, a knight chance of 0.35, a spawn timer of 100
        with the window [85, 120], and no button shown. */
    predicate Created()
      reads this
    {
      state == PreGame && roundNumber == 1 && castleHealth == MaxHealth && damageStage == 0 &&
      roundTimeElapsed == 0.0 && roundMaxTime == 25.0 && roundScore == 0 && totalScore == 0 &&
      attackerDelay == 0 && roundMaxAttackers == 5 && livingCount == 0 && knightChance == 0.35 &&
      !paused && !roundSaved && spawnTime == 100 && monsterHouseSpawn == MonsterHouseReset &&
      spawnTimeMin == 85 && spawnTimeMax == 120 && visible == {}
    }

    /** create(): fifty dead attackers at x = -100 with random speeds and
        heights, then the initial round values. */
    constructor (speedDraws: seq<real>, heightDraws: seq<real>)
      requires |speedDraws| == PoolSize && |heightDraws| == PoolSize
      ensures Valid() && Tally() && fresh(attackers) && fresh(sprites)
      ensures forall i :: 0 <= i < PoolSize ==> Built(pool[i], i, speedDraws[i], heightDraws[i])
      ensures Created()
    {
      var slots, frame, spriteFrame := NewPool(speedDraws, heightDraws);
      pool := slots;
      attackers := frame;
      sprites := spriteFrame;
      roundTimeElapsed := 0.0;
      roundMaxTime := 25.0;
      castleHealth := MaxHealth;
      damageStage := 0;
      roundScore := 0;
      totalScore := 0;
      roundNumber := 1;
      state := PreGame;
      attackerDelay := 0;
      roundMaxAttackers := 5;
      livingCount := 0;
      knightChance := 0.35;
      paused := false;
      roundSaved := false;
      spawnTime := 100;
      monsterHouseSpawn := MonsterHouseReset;
      spawnTimeMin := 85;
      spawnTimeMax := 120;
      visible := {};
      new;
      BuiltPoolValid(speedDraws, heightDraws);
    }

    /** A pool as create() builds it is well formed and nobody in it is
        alive. */
    lemma BuiltPoolValid(speedDraws: seq<real>, heightDraws: seq<real>)
      requires Pooled() && |speedDraws| == PoolSize && |heightDraws| == PoolSize
      requires forall i :: 0 <= i < PoolSize ==> Built(pool[i], i, speedDraws[i], heightDraws[i])
      ensures Valid() && CountTrue(AliveFlags()) == 0
    {
      CountTrueNone(AliveFlags());
    }

    /** Old live slots stay alive where they stood, and the living counter
        rose exactly as much as the number of live slots. */
    twostate predicate OnlyRevived()
      requires Pooled()
      reads this`livingCount, attackers`alive, attackers`x, attackers`y
    {
      livingCount - old(livingCount) == CountTrue(AliveFlags()) - old(CountTrue(AliveFlags())) &&
      forall j :: 0 <= j < |pool| && old(pool[j].alive) ==>
        pool[j].alive && pool[j].x == old(pool[j].x) && pool[j].y == old(pool[j].y)
    }

    /** Brings back one dead slot: it stands at its start x, a knight also
        plays its walk, and the living counter goes up by one. */
    method ReviveSlot(i: nat, kind: Kind)
      requires Valid() && Tally() && i < PoolSize && !pool[i].alive && livingCount < roundMaxAttackers
      modifies this`livingCount, {pool[i]}`alive, {pool[i]}`x, {pool[i].sprite}`boxX, {pool[i].sprite}`boxY,
        {pool[i].sprite}`current, {pool[i].sprite}`animating, {pool[i].sprite}`looping, {pool[i].sprite}`stateTime
      ensures Valid() && Tally() && OnlyRevived()
      ensures livingCount == old(livingCount) + 1
      ensures AliveFlags() == old(AliveFlags())[i := true]
      ensures pool[i].x == pool[i].startX && pool[i].y == old(pool[i].y)
      ensures kind == Knight ==> pool[i].sprite.animating && pool[i].sprite.current == "walk"
    {
      ghost var before := AliveFlags();
      assert SlotOk(i);
      var a := pool[i];
      a.Revive();
      if kind == Knight {
        a.Play("walk", true);
      }
      livingCount := livingCount + 1;
      assert AliveFlags() == before[i := true];
      CountTrueUpdate(before, i, true);
    }

    /** reviveAttacker(type): at the cap nothing happens; otherwise the
        lowest dead slot of the kind's half comes back (see ReviveSlot). */
    method ReviveAttacker(kind: Kind)
      requires Valid() && Tally()
      modifies this`livingCount, attackers`alive, attackers`x, sprites`boxX, sprites`boxY,
        sprites`current, sprites`animating, sprites`looping, sprites`stateTime
      ensures Valid() && Tally() && OnlyRevived()
      ensures var slot := old(FirstDead(AliveFlags(), FirstSlot(kind), EndSlot(kind)));
        if old(livingCount) >= roundMaxAttackers || slot.None? then
          livingCount == old(livingCount) && unchanged(attackers, sprites)
        else
          livingCount == old(livingCount) + 1 &&
          AliveFlags() == old(AliveFlags())[slot.value := true] &&
          pool[slot.value].x == pool[slot.value].startX && pool[slot.value].y == old(pool[slot.value].y) &&
          (kind == Knight ==>
             pool[slot.value].sprite.animating && pool[slot.value].sprite.current == "walk") &&
          forall j :: 0 <= j < PoolSize && j != slot.value ==> unchanged(pool[j], pool[j].sprite)
      ensures old(livingCount) <= livingCount <= Max(old(livingCount), roundMaxAttackers)
    {
      if livingCount >= roundMaxAttackers {
        return;
      }
      var lo, hi := FirstSlot(kind), EndSlot(kind);
      // The source returns from inside this scan; here the scan and the
      // revive are separated, with the same first-free-slot choice.
      var i := lo;
      while i < hi && pool[i].alive
        invariant lo <= i <= hi
        invariant forall j :: lo <= j < i ==> pool[j].alive
      {
        i := i + 1;
      }
      if i < hi {
        ReviveSlot(i, kind);
      }
    }

    /** reviveAttacker(): a random draw above the knight chance asks for a
        normal attacker, any other for a knight. */
    method ReviveRandomAttacker(draw: real)
      requires Valid() && Tally()
      modifies this`livingCount, attackers`alive, attackers`x, sprites`boxX, sprites`boxY,
        sprites`current, sprites`animating, sprites`looping, sprites`stateTime
      ensures Valid() && Tally() && OnlyRevived()
      ensures var kind := KindOf(draw, knightChance);
        var slot := old(FirstDead(AliveFlags(), FirstSlot(kind), EndSlot(kind)));
        if old(livingCount) >= roundMaxAttackers || slot.None? then
          livingCount == old(livingCount) && unchanged(attackers, sprites)
        else
          livingCount == old(livingCount) + 1 &&
          AliveFlags() == old(AliveFlags())[slot.value := true] &&
          pool[slot.value].x == pool[slot.value].startX && pool[slot.value].y == old(pool[slot.value].y) &&
          (kind == Knight ==>
             pool[slot.value].sprite.animating && pool[slot.value].sprite.current == "walk") &&
          forall j :: 0 <= j < PoolSize && j != slot.value ==> unchanged(pool[j], pool[j].sprite)
      ensures old(livingCount) <= livingCount <= Max(old(livingCount), roundMaxAttackers)
    {
      ReviveAttacker(KindOf(draw, knightChance));
    }

    /** getFirstAttackerAt: the lowest live slot whose box holds the point,
        or -1. */
    method FirstAttackerAt(px: real, py: real) returns (index: int)
      requires Valid()
      ensures -1 <= index < PoolSize
      ensures index == -1 <==> forall i :: 0 <= i < PoolSize ==> !Tapped(i, px, py)
      ensures 0 <= index ==> Tapped(index, px, py) && forall j :: 0 <= j < index ==> !Tapped(j, px, py)
    {
      index := -1;
      for i := 0 to PoolSize
        invariant forall j :: 0 <= j < i ==> !Tapped(j, px, py)
      {
        if pool[i].alive {
          var a := pool[i];
          var box := Rect(a.x, a.y, a.width, a.height);
          if Contains(box, px, py) {
            assert Tapped(i, px, py);
            index := i;
            return index;
          }
        }
      }
      return index;
    }

    /** Kills a tapped slot: it stays where it stood, the living and
        monster-house counters drop by one and the round score gains the
        slot's kill score. */
    method KillSlot(i: nat)
      requires Valid() && Tally() && i < PoolSize && pool[i].alive
      modifies this`livingCount, this`monsterHouseSpawn, this`roundScore, {pool[i]}`alive, {pool[i].sprite}`animating, {pool[i].sprite}`looping, {pool[i].sprite}`stateTime
      ensures Valid() && Tally()
      ensures !pool[i].alive && pool[i].x == old(pool[i].x) && pool[i].y == old(pool[i].y)
      ensures AliveFlags() == old(AliveFlags())[i := false]
      ensures livingCount == old(livingCount) - 1 && monsterHouseSpawn == old(monsterHouseSpawn) - 1
      ensures roundScore == old(roundScore) + KillScore(i)
    {
      ghost var before := AliveFlags();
      assert SlotOk(i);
      pool[i].Kill();
      livingCount := livingCount - 1;
      monsterHouseSpawn := monsterHouseSpawn - 1;
      roundScore := roundScore + 100;
      if i > HalfSize - 1 {
        roundScore := roundScore + 150;  // bonus for a knight
      }
      assert AliveFlags() == before[i := false];
      CountTrueUpdate(before, i, false);
    }

    /** The tap branch of a play tick: the first tapped attacker, if any, is
        killed (see KillSlot); nothing else in the pool changes. */
    method HandleTap(px: real, py: real) returns (index: int)
      requires Valid() && Tally()
      modifies this`livingCount, this`monsterHouseSpawn, this`roundScore, attackers`alive, sprites`animating, sprites`looping, sprites`stateTime
      ensures Valid() && Tally()
      ensures -1 <= index < PoolSize
      ensures index == -1 <==> forall i :: 0 <= i < PoolSize ==> !old(Tapped(i, px, py))
      ensures 0 <= index ==> old(Tapped(index, px, py)) && forall j :: 0 <= j < index ==> !old(Tapped(j, px, py))
      ensures index == -1 ==>
        livingCount == old(livingCount) && monsterHouseSpawn == old(monsterHouseSpawn) &&
        roundScore == old(roundScore) && unchanged(attackers, sprites)
      ensures 0 <= index ==>
        !pool[index].alive && pool[index].x == old(pool[index].x) && pool[index].y == old(pool[index].y) &&
        AliveFlags() == old(AliveFlags())[index := false] &&
        livingCount == old(livingCount) - 1 && monsterHouseSpawn == old(monsterHouseSpawn) - 1 &&
        roundScore == old(roundScore) + KillScore(index) &&
        forall j :: 0 <= j < PoolSize && j != index ==> unchanged(pool[j], pool[j].sprite)
    {
      index := FirstAttackerAt(px, py);
      assert forall i :: 0 <= i < PoolSize ==> (Tapped(i, px, py) <==> old(Tapped(i, px, py)));
      if index > -1 {
        KillSlot(index);
      }
    }

    /** The timed spawn of a play tick: once the timer is below zero one
        capped revive is attempted and the timer is reseeded from the window;
        otherwise nothing happens. */
    method TimedSpawn(draw: real, reseed: int)
      requires Valid() && Tally() && spawnTimeMin <= reseed <= spawnTimeMax
      modifies this`livingCount, this`spawnTime, attackers`alive, attackers`x, sprites`boxX, sprites`boxY,
        sprites`current, sprites`animating, sprites`looping, sprites`stateTime
      ensures Valid() && Tally() && OnlyRevived()
      ensures old(spawnTime) >= 0 ==>
        spawnTime == old(spawnTime) && livingCount == old(livingCount) && unchanged(attackers, sprites)
      ensures old(spawnTime) < 0 ==> spawnTime == reseed
      ensures old(spawnTime) < 0 ==>
        var slot := old(FirstDead(AliveFlags(), FirstSlot(KindOf(draw, knightChance)), EndSlot(KindOf(draw, knightChance))));
        if old(livingCount) >= roundMaxAttackers || slot.None? then
          livingCount == old(livingCount) && unchanged(attackers, sprites)
        else
          livingCount == old(livingCount) + 1 && AliveFlags() == old(AliveFlags())[slot.value := true]
      ensures old(livingCount) <= livingCount <= Max(old(livingCount), roundMaxAttackers)
    {
      if spawnTime < 0 {
        ReviveRandomAttacker(draw);
        spawnTime := reseed;
      }
    }

    /** The monster-house rush: once its counter is below zero, three waves
        of five capped revives, each with its own draw, then the counter is
        reset to 10. */
    method MonsterHouseRush(draws: seq<real>)
      requires Valid() && Tally() && |draws| == RushSize
      modifies this`livingCount, this`monsterHouseSpawn, attackers`alive, attackers`x, sprites`boxX, sprites`boxY,
        sprites`current, sprites`animating, sprites`looping, sprites`stateTime
      ensures Valid() && Tally() && OnlyRevived()
      ensures old(monsterHouseSpawn) >= 0 ==>
        monsterHouseSpawn == old(monsterHouseSpawn) && livingCount == old(livingCount) && unchanged(attackers, sprites)
      ensures old(monsterHouseSpawn) < 0 ==> monsterHouseSpawn == MonsterHouseReset
      ensures old(livingCount) <= livingCount <= Max(old(livingCount), roundMaxAttackers)
      ensures livingCount <= old(livingCount) + RushSize
    {
      if monsterHouseSpawn < 0 {
        var wave := RushWaves;
        while wave > 0
          invariant 0 <= wave <= RushWaves
          invariant Valid() && Tally() && OnlyRevived()
          invariant old(livingCount) <= livingCount <= Max(old(livingCount), roundMaxAttackers)
          invariant livingCount <= old(livingCount) + (RushWaves - wave) * RushWaveSize
        {
          for k := 0 to RushWaveSize
            invariant Valid() && Tally() && OnlyRevived()
            invariant old(livingCount) <= livingCount <= Max(old(livingCount), roundMaxAttackers)
            invariant livingCount <= old(livingCount) + (RushWaves - wave) * RushWaveSize + k
          {
            ReviveRandomAttacker(draws[(RushWaves - wave) * RushWaveSize + k]);
          }
          wave := wave - 1;
        }
        monsterHouseSpawn := MonsterHouseReset;
      }
    }

    /** One step of the arrival loop: the slot updates; if it passed the
        stop line it plays its attack, is put back on the line, and the
        castle loses the slot's hit damage and redraws its damage stage. */
    method AdvanceSlot(i: nat, dt: real)
      requires Valid() && i < PoolSize
      modifies this`castleHealth, this`damageStage, {pool[i]}`x, {pool[i]}`y, {pool[i].sprite}`stateTime, {pool[i].sprite}`x, {pool[i].sprite}`y,
        {pool[i].sprite}`boxX, {pool[i].sprite}`boxY, {pool[i].sprite}`current, {pool[i].sprite}`animating, {pool[i].sprite}`looping
      ensures Valid()
      ensures pool[i].alive == old(pool[i].alive)
      ensures pool[i].x == (if old(pool[i].AdvancedX(dt)) > MinStopX then MinStopX else old(pool[i].AdvancedX(dt)))
      ensures pool[i].y == old(pool[i].AdvancedY())
      ensures old(pool[i].AdvancedX(dt)) > MinStopX ==>
        castleHealth == old(castleHealth) - pool[i].hitDamage && damageStage == StageChain(PercentDamage(castleHealth))
      ensures old(pool[i].AdvancedX(dt)) <= MinStopX ==>
        castleHealth == old(castleHealth) && damageStage == old(damageStage)
      ensures AliveFlags() == old(AliveFlags())
      ensures forall j :: 0 <= j < PoolSize && j != i ==> unchanged(pool[j], pool[j].sprite)
    {
      ghost var before := AliveFlags();
      assert SlotOk(i);
      var arrived := StepAttacker(pool[i], dt);
      if arrived {
        castleHealth := castleHealth - pool[i].hitDamage;
        damageStage := StageChain(PercentDamage(castleHealth));
      }
      assert AliveFlags() == before;
    }

    /** A dead slot keeps its place on or behind the stop line, so only
        live slots can arrive; and no slot's hit damage is negative. */
    lemma ArrivalFacts(dt: real)
      requires Valid()
      ensures forall i :: 0 <= i < PoolSize && Arrivals(dt)[i] ==> pool[i].alive
      ensures forall i :: 0 <= i < PoolSize ==> HitDamages()[i] >= 0
    {
      forall i | 0 <= i < PoolSize
        ensures Arrivals(dt)[i] ==> pool[i].alive
        ensures HitDamages()[i] >= 0
      {
        assert SlotOk(i);
      }
    }

    /** The arrival loop over all fifty slots: every slot is updated, each
        slot past the stop line is clamped to it and deals its hit damage
        once, and the damage stage follows the castle's health whenever
        some slot arrived. Dead slots never arrive. */
    method AdvanceAttackers(dt: real)
      requires Valid()
      modifies this`castleHealth, this`damageStage, attackers`x, attackers`y, sprites`stateTime, sprites`x, sprites`y,
        sprites`boxX, sprites`boxY, sprites`current, sprites`animating, sprites`looping
      ensures Valid()
      ensures AliveFlags() == old(AliveFlags())
      ensures forall i :: 0 <= i < PoolSize && old(Arrivals(dt))[i] ==> old(pool[i].alive)
      ensures forall i :: 0 <= i < PoolSize ==>
        pool[i].x == Min(old(pool[i].AdvancedX(dt)), MinStopX) && pool[i].y == old(pool[i].AdvancedY())
      ensures castleHealth == old(castleHealth) - DamageDealt(old(Arrivals(dt)), HitDamages(), |pool|)
      ensures castleHealth <= old(castleHealth)
      ensures true in old(Arrivals(dt)) ==> damageStage == StageChain(PercentDamage(castleHealth))
      ensures true !in old(Arrivals(dt)) ==> damageStage == old(damageStage) && castleHealth == old(castleHealth)
    {
      ArrivalFacts(dt);
      ghost var xs := seq(PoolSize, j requires 0 <= j < PoolSize reads attackers, sprites => pool[j].AdvancedX(dt));
      ghost var ys := seq(PoolSize, j requires 0 <= j < PoolSize reads attackers, sprites => pool[j].AdvancedY());
      ghost var arrived := Arrivals(dt);
      ghost var damage := HitDamages();
      ghost var health, stage := castleHealth, damageStage;
      PassEffect(arrived, damage, health, stage);
      AdvanceEach(dt, xs, ys, arrived);
    }

    /** The loop of AdvanceAttackers, specified against snapshots of where
        each slot's update will put it and whether it arrives. */
    method AdvanceEach(dt: real, ghost xs: seq<real>, ghost ys: seq<real>, ghost arrived: seq<bool>)
      requires Valid() && |xs| == PoolSize && |ys| == PoolSize && arrived == Arrivals(dt)
      requires forall j :: 0 <= j < PoolSize ==> pool[j].AdvancedX(dt) == xs[j] && pool[j].AdvancedY() == ys[j]
      modifies this`castleHealth, this`damageStage, attackers`x, attackers`y, sprites`stateTime, sprites`x, sprites`y,
        sprites`boxX, sprites`boxY, sprites`current, sprites`animating, sprites`looping
      ensures Valid()
      ensures AliveFlags() == old(AliveFlags())
      ensures forall j :: 0 <= j < PoolSize ==> pool[j].x == Min(xs[j], MinStopX) && pool[j].y == ys[j]
      ensures castleHealth == old(castleHealth) - DamageDealt(arrived, HitDamages(), |arrived|)
      ensures damageStage == StageAfter(arrived, HitDamages(), old(castleHealth), old(damageStage), |arrived|)
    {
      for i := 0 to PoolSize
        invariant Valid()
        invariant AliveFlags() == old(AliveFlags())
        invariant forall j :: 0 <= j < i ==> pool[j].x == Min(xs[j], MinStopX) && pool[j].y == ys[j]
        invariant forall j :: i <= j < PoolSize ==> pool[j].AdvancedX(dt) == xs[j] && pool[j].AdvancedY() == ys[j]
        invariant castleHealth == old(castleHealth) - DamageDealt(arrived, HitDamages(), i)
        invariant damageStage == StageAfter(arrived, HitDamages(), old(castleHealth), old(damageStage), i)
      {
        AdvanceSlot(i, dt);
      }
    }

    /** The end-of-tick checks: a castle at or below zero health is clamped
        to 0 and the game is over; a round past its time is over, banks its
        score and counts up the round, whatever the first check did. */
    method EndTick()
      modifies this`castleHealth, this`state, this`totalScore, this`roundNumber, this`visible
      ensures castleHealth == if old(castleHealth) <= 0 then 0 else old(castleHealth)
      ensures state == EndOfTickState(old(state), old(castleHealth), roundTimeElapsed, roundMaxTime)
      ensures roundTimeElapsed > roundMaxTime ==>
        totalScore == old(totalScore) + roundScore && roundNumber == old(roundNumber) + 1
      ensures roundTimeElapsed <= roundMaxTime ==>
        totalScore == old(totalScore) && roundNumber == old(roundNumber)
      ensures visible == if old(castleHealth) <= 0 || roundTimeElapsed > roundMaxTime then {} else old(visible)
    {
      if castleHealth <= 0 {
        castleHealth := 0;
        state := GameOver;
        visible := {};
      }
      if roundTimeElapsed > roundMaxTime {
        state := RoundOver;
        totalScore := totalScore + roundScore;
        roundNumber := roundNumber + 1;
        visible := {};
      }
    }

    /** handleStandardGameplay: one play tick. The spawn timer counts down,
        the round clock advances, a touch kills the first attacker under it,
        the timed spawn and the monster-house rush revive through the capped
        path, the attackers advance and the end-of-tick checks run. */
    method HandleStandardGameplay(dt: real, touch: Option<Touch>, spawnDraw: real, rushDraws: seq<real>, reseed: int)
      returns (killed: int)
      requires Valid() && Tally() && |rushDraws| == RushSize && spawnTimeMin <= reseed <= spawnTimeMax
      modifies this`spawnTime, this`roundTimeElapsed, this`livingCount, this`monsterHouseSpawn, this`roundScore,
        this`castleHealth, this`damageStage, this`state, this`totalScore, this`roundNumber, this`visible,
        attackers`alive, attackers`x, attackers`y, sprites`x, sprites`y, sprites`boxX,
        sprites`boxY, sprites`current, sprites`animating, sprites`looping, sprites`stateTime
      ensures Valid() && Tally()
      ensures roundTimeElapsed == old(roundTimeElapsed) + dt
      ensures spawnTime == if old(spawnTime) - 1 < 0 then reseed else old(spawnTime) - 1
      ensures -1 <= killed < PoolSize && (touch.None? ==> killed == -1)
      ensures touch.Some? ==>
        (killed == -1 <==> forall i :: 0 <= i < PoolSize ==> !old(Tapped(i, touch.value.x, touch.value.y)))
      ensures 0 <= killed ==>
        touch.Some? && old(Tapped(killed, touch.value.x, touch.value.y)) &&
        forall j :: 0 <= j < killed ==> !old(Tapped(j, touch.value.x, touch.value.y))
      ensures roundScore == old(roundScore) + (if 0 <= killed then KillScore(killed) else 0)
      ensures livingCount <= Max(old(livingCount), roundMaxAttackers)
      ensures castleHealth >= 0 && state == EndOfTickState(old(state), castleHealth, roundTimeElapsed, roundMaxTime)
      ensures castleHealth <= Max(old(castleHealth), 0)
      ensures old(castleHealth) <= 0 ==> castleHealth == 0
      ensures visible == if castleHealth == 0 || roundTimeElapsed > roundMaxTime then {} else old(visible)
      ensures roundTimeElapsed > roundMaxTime ==>
        totalScore == old(totalScore) + roundScore && roundNumber == old(roundNumber) + 1
      ensures roundTimeElapsed <= roundMaxTime ==> totalScore == old(totalScore) && roundNumber == old(roundNumber)
    {
      killed := TickStart(dt, touch);
      TickRest(dt, spawnDraw, rushDraws, reseed);
    }

    /** The rest of a play tick: spawns, arrivals and the end-of-tick
        checks. */
    method TickRest(dt: real, spawnDraw: real, rushDraws: seq<real>, reseed: int)
      requires Valid() && Tally() && |rushDraws| == RushSize && spawnTimeMin <= reseed <= spawnTimeMax
      modifies this`spawnTime, this`livingCount, this`monsterHouseSpawn,
        this`castleHealth, this`damageStage, this`state, this`totalScore, this`roundNumber, this`visible,
        attackers`alive, attackers`x, attackers`y, sprites`x, sprites`y, sprites`boxX,
        sprites`boxY, sprites`current, sprites`animating, sprites`looping, sprites`stateTime
      ensures Valid() && Tally()
      ensures spawnTime == if old(spawnTime) < 0 then reseed else old(spawnTime)
      ensures livingCount <= Max(old(livingCount), roundMaxAttackers)
      ensures castleHealth >= 0 && state == EndOfTickState(old(state), castleHealth, roundTimeElapsed, roundMaxTime)
      ensures castleHealth <= Max(old(castleHealth), 0)
      ensures old(castleHealth) <= 0 ==> castleHealth == 0
      ensures visible == if castleHealth == 0 || roundTimeElapsed > roundMaxTime then {} else old(visible)
      ensures roundTimeElapsed > roundMaxTime ==>
        totalScore == old(totalScore) + roundScore && roundNumber == old(roundNumber) + 1
      ensures roundTimeElapsed <= roundMaxTime ==> totalScore == old(totalScore) && roundNumber == old(roundNumber)
    {
      SpawnPhase(spawnDraw, rushDraws, reseed);
      ArrivalPhase(dt);
    }

    /** The start of a play tick: the spawn timer counts down, the round
        clock advances and a touch, if any, kills the first attacker under
        it. */
    method TickStart(dt: real, touch: Option<Touch>) returns (killed: int)
      requires Valid() && Tally()
      modifies this`spawnTime, this`roundTimeElapsed, this`livingCount, this`monsterHouseSpawn, this`roundScore,
        attackers`alive, sprites`animating, sprites`looping, sprites`stateTime
      ensures Valid() && Tally()
      ensures roundTimeElapsed == old(roundTimeElapsed) + dt && spawnTime == old(spawnTime) - 1
      ensures -1 <= killed < PoolSize && (touch.None? ==> killed == -1)
      ensures touch.Some? ==>
        (killed == -1 <==> forall i :: 0 <= i < PoolSize ==> !old(Tapped(i, touch.value.x, touch.value.y)))
      ensures 0 <= killed ==>
        touch.Some? && old(Tapped(killed, touch.value.x, touch.value.y)) &&
        forall j :: 0 <= j < killed ==> !old(Tapped(j, touch.value.x, touch.value.y))
      ensures roundScore == old(roundScore) + (if 0 <= killed then KillScore(killed) else 0)
      ensures 0 <= killed ==>
        !pool[killed].alive && AliveFlags() == old(AliveFlags())[killed := false] &&
        livingCount == old(livingCount) - 1 && monsterHouseSpawn == old(monsterHouseSpawn) - 1
      ensures killed == -1 ==>
        livingCount == old(livingCount) && monsterHouseSpawn == old(monsterHouseSpawn) &&
        AliveFlags() == old(AliveFlags())
    {
      spawnTime := spawnTime - 1;
      roundTimeElapsed := roundTimeElapsed + dt;
      killed := -1;
      if touch.Some? {
        assert forall i :: 0 <= i < PoolSize ==>
          (Tapped(i, touch.value.x, touch.value.y) <==> old(Tapped(i, touch.value.x, touch.value.y)));
        killed := HandleTap(touch.value.x, touch.value.y);
      }
    }

    /** The two spawn paths of a play tick, the timed spawn then the rush;
        neither takes the living counter past the round's cap. */
    method SpawnPhase(spawnDraw: real, rushDraws: seq<real>, reseed: int)
      requires Valid() && Tally() && |rushDraws| == RushSize && spawnTimeMin <= reseed <= spawnTimeMax
      modifies this`livingCount, this`spawnTime, this`monsterHouseSpawn, attackers`alive, attackers`x,
        sprites`boxX, sprites`boxY, sprites`current, sprites`animating, sprites`looping, sprites`stateTime
      ensures Valid() && Tally()
      ensures spawnTime == if old(spawnTime) < 0 then reseed else old(spawnTime)
      ensures monsterHouseSpawn == if old(monsterHouseSpawn) < 0 then MonsterHouseReset else old(monsterHouseSpawn)
      ensures livingCount <= Max(old(livingCount), roundMaxAttackers)
    {
      TimedSpawn(spawnDraw, reseed);
      MonsterHouseRush(rushDraws);
    }

    /** The arrivals and the end-of-tick checks of a play tick. */
    method ArrivalPhase(dt: real)
      requires Valid()
      modifies this`castleHealth, this`damageStage, this`state, this`totalScore, this`roundNumber, this`visible,
        attackers`x, attackers`y, sprites`stateTime, sprites`x, sprites`y,
        sprites`boxX, sprites`boxY, sprites`current, sprites`animating, sprites`looping
      ensures Valid() && AliveFlags() == old(AliveFlags())
      ensures castleHealth == Max(old(castleHealth) - DamageDealt(old(Arrivals(dt)), HitDamages(), |pool|), 0)
      ensures castleHealth <= Max(old(castleHealth), 0)
      ensures castleHealth >= 0 && state == EndOfTickState(old(state), castleHealth, roundTimeElapsed, roundMaxTime)
      ensures old(castleHealth) <= 0 ==> castleHealth == 0
      ensures visible == if castleHealth == 0 || roundTimeElapsed > roundMaxTime then {} else old(visible)
      ensures roundTimeElapsed > roundMaxTime ==>
        totalScore == old(totalScore) + roundScore && roundNumber == old(roundNumber) + 1
      ensures roundTimeElapsed <= roundMaxTime ==> totalScore == old(totalScore) && roundNumber == old(roundNumber)
    {
      AdvanceAttackers(dt);
      EndTick();
    }

    /** handleRoundStart: the attackers wait; the sixteenth call after a
        round reset (delay above 15) starts play and hides every button. */
    method HandleRoundStart()
      modifies this`attackerDelay, this`state, this`visible
      ensures attackerDelay == old(attackerDelay) + 1
      ensures attackerDelay > RoundStartDelay ==> state == RoundPlay && visible == {}
      ensures attackerDelay <= RoundStartDelay ==> state == old(state) && visible == old(visible)
    {
      attackerDelay := attackerDelay + 1;
      if attackerDelay > RoundStartDelay {
        state := RoundPlay;
        visible := {};
      }
    }

    /** Kills slot i where it stands without touching the living counter,
        as the round reset does. */
    method SilenceSlot(i: nat)
      requires Valid() && Counted() && i < PoolSize
      modifies {pool[i]}`alive, {pool[i].sprite}`animating, {pool[i].sprite}`looping, {pool[i].sprite}`stateTime
      ensures Valid() && Counted()
      ensures !pool[i].alive && pool[i].x == old(pool[i].x) && pool[i].y == old(pool[i].y)
      ensures AliveFlags() == old(AliveFlags())[i := false]
      ensures forall j :: 0 <= j < PoolSize && j != i ==> unchanged(pool[j], pool[j].sprite)
    {
      ghost var before := AliveFlags();
      assert SlotOk(i);
      pool[i].Kill();
      assert AliveFlags() == before[i := false];
      CountTrueUpdate(before, i, false);
    }

    /** resetRoundVars: the per-round difficulty for the current round
        number, a spawn window lowered by five times the round number, and
        every slot killed; the living counter is left as it was. */
    method ResetRoundVars()
      requires Valid() && Tally()
      modifies this`attackerDelay, this`roundTimeElapsed, this`roundScore, this`knightChance,
        this`roundMaxAttackers, this`roundMaxTime, this`roundSaved, this`spawnTimeMin, this`spawnTimeMax,
        attackers`alive, sprites`animating, sprites`looping, sprites`stateTime
      ensures Valid() && Tally()
      ensures attackerDelay == 0 && roundTimeElapsed == 0.0 && roundScore == 0 && !roundSaved
      ensures knightChance == KnightChance(roundNumber)
      ensures roundMaxAttackers == 5 + roundNumber * 2 && roundMaxTime == 50.0 + roundNumber as real * 1.5
      ensures spawnTimeMin == old(spawnTimeMin) - roundNumber * 5 && spawnTimeMax == old(spawnTimeMax) - roundNumber * 5
      ensures forall i :: 0 <= i < PoolSize ==>
        !pool[i].alive && pool[i].x == old(pool[i].x) && pool[i].y == old(pool[i].y)
      ensures CountTrue(AliveFlags()) == 0
    {
      ResetRoundScalars();
      SilenceAll();
    }

    /** The scalar part of resetRoundVars, in the source's order. */
    method ResetRoundScalars()
      modifies this`attackerDelay, this`roundTimeElapsed, this`roundScore, this`knightChance,
        this`roundMaxAttackers, this`roundMaxTime, this`roundSaved, this`spawnTimeMin, this`spawnTimeMax
      ensures attackerDelay == 0 && roundTimeElapsed == 0.0 && roundScore == 0 && !roundSaved
      ensures knightChance == KnightChance(roundNumber)
      ensures roundMaxAttackers == 5 + roundNumber * 2 && roundMaxTime == 50.0 + roundNumber as real * 1.5
      ensures spawnTimeMin == old(spawnTimeMin) - roundNumber * 5 && spawnTimeMax == old(spawnTimeMax) - roundNumber * 5
    {
      attackerDelay := 0;
      roundTimeElapsed := 0.0;
      roundScore := 0;
      knightChance := 0.35 + 0.1 * (roundNumber - 1) as real;
      if knightChance > 0.65 {
        knightChance := 0.65;
      }
      roundMaxAttackers := 5 + roundNumber * 2;
      roundMaxTime := 50.0 + roundNumber as real * 1.5;
      roundSaved := false;
      spawnTimeMin := spawnTimeMin - roundNumber * 5;
      spawnTimeMax := spawnTimeMax - roundNumber * 5;
    }

    /** The kill loop of resetRoundVars: every slot dies where it stands. */
    method SilenceAll()
      requires Valid() && Counted()
      modifies attackers`alive, sprites`animating, sprites`looping, sprites`stateTime
      ensures Valid() && Tally()
      ensures forall i :: 0 <= i < PoolSize ==>
        !pool[i].alive && pool[i].x == old(pool[i].x) && pool[i].y == old(pool[i].y)
      ensures CountTrue(AliveFlags()) == 0
    {
      for i := 0 to PoolSize
        invariant Valid() && Counted()
        invariant forall j :: 0 <= j < i ==>
          !pool[j].alive && pool[j].x == old(pool[j].x) && pool[j].y == old(pool[j].y)
        invariant forall j :: i <= j < PoolSize ==> unchanged(pool[j], pool[j].sprite)
      {
        SilenceSlot(i);
      }
      CountTrueNone(AliveFlags());
    }

    /** The new-game button: round 1 and a round reset; castle health,
        total score and the living counter carry over from before. */
    method NewGame()
      requires Valid() && Tally()
      modifies this`roundNumber, this`state, this`visible, this`attackerDelay, this`roundTimeElapsed, this`roundScore,
        this`knightChance, this`roundMaxAttackers, this`roundMaxTime, this`roundSaved, this`spawnTimeMin,
        this`spawnTimeMax, attackers`alive, sprites`animating, sprites`looping, sprites`stateTime
      ensures Valid() && Tally()
      ensures roundNumber == 1 && state == RoundStart && visible == {}
      ensures knightChance == 0.35 && roundMaxAttackers == 7 && roundMaxTime == 51.5
      ensures spawnTimeMin == old(spawnTimeMin) - 5 && spawnTimeMax == old(spawnTimeMax) - 5
      ensures CountTrue(AliveFlags()) == 0
      ensures castleHealth == old(castleHealth) && totalScore == old(totalScore) && livingCount == old(livingCount)
    {
      roundNumber := 1;
      NextRound();
    }

    /** The common tail of the new-game, load and next-round buttons: the
        round-start state with every button hidden. */
    method EnterRoundStart()
      modifies this`state, this`visible
      ensures state == RoundStart && visible == {}
    {
      state := RoundStart;
      visible := {};
    }

    /** The load button: round, health and total score from the save slot
        (1, 1000 and 0 when nothing was saved), then a round reset. */
    method LoadGame(stored: Option<SaveData>)
      requires Valid() && Tally()
      modifies this`roundNumber, this`castleHealth, this`totalScore, this`state, this`visible, this`attackerDelay,
        this`roundTimeElapsed, this`roundScore, this`knightChance, this`roundMaxAttackers, this`roundMaxTime,
        this`roundSaved, this`spawnTimeMin, this`spawnTimeMax, attackers`alive, sprites`animating, sprites`looping, sprites`stateTime
      ensures Valid() && Tally()
      ensures var data := if stored.Some? then stored.value else SaveData(1, MaxHealth, 0);
        roundNumber == data.round && castleHealth == data.health && totalScore == data.totalScore
      ensures state == RoundStart && visible == {}
      ensures knightChance == KnightChance(roundNumber) && roundMaxAttackers == 5 + roundNumber * 2
      ensures spawnTimeMin == old(spawnTimeMin) - roundNumber * 5
      ensures CountTrue(AliveFlags()) == 0 && livingCount == old(livingCount)
    {
      var data := if stored.Some? then stored.value else SaveData(1, MaxHealth, 0);
      Restore(data);
      NextRound();
    }

    /** The three saved scalars put back. */
    method Restore(data: SaveData)
      modifies this`roundNumber, this`castleHealth, this`totalScore
      ensures roundNumber == data.round && castleHealth == data.health && totalScore == data.totalScore
    {
      roundNumber := data.round;
      castleHealth := data.health;
      totalScore := data.totalScore;
    }

    /** The repair button: with more than 1000 banked points, 1000 are
        spent for 100 health (no upper bound) and the damage stage is
        redrawn; otherwise nothing happens. */
    method Repair()
      modifies this`totalScore, this`castleHealth, this`damageStage
      ensures old(totalScore) > RepairCost ==>
        totalScore == old(totalScore) - RepairCost && castleHealth == old(castleHealth) + 100 &&
        damageStage == StageChain(PercentDamage(castleHealth))
      ensures old(totalScore) <= RepairCost ==>
        totalScore == old(totalScore) && castleHealth == old(castleHealth) && damageStage == old(damageStage)
    {
      if totalScore > RepairCost {
        totalScore := totalScore - RepairCost;
        castleHealth := castleHealth + 100;
        damageStage := StageChain(PercentDamage(castleHealth));
      }
    }

    /** The next-round button: the round number was already counted up at
        round over, so only a round reset and the start state. */
    method NextRound()
      requires Valid() && Tally()
      modifies this`state, this`visible, this`attackerDelay, this`roundTimeElapsed, this`roundScore,
        this`knightChance, this`roundMaxAttackers, this`roundMaxTime, this`roundSaved, this`spawnTimeMin,
        this`spawnTimeMax, attackers`alive, sprites`animating, sprites`looping, sprites`stateTime
      ensures Valid() && Tally()
      ensures state == RoundStart && visible == {}
      ensures attackerDelay == 0 && roundTimeElapsed == 0.0 && roundScore == 0 && !roundSaved
      ensures knightChance == KnightChance(roundNumber) && roundMaxAttackers == 5 + roundNumber * 2
      ensures roundMaxTime == 50.0 + roundNumber as real * 1.5
      ensures spawnTimeMin == old(spawnTimeMin) - roundNumber * 5 && spawnTimeMax == old(spawnTimeMax) - roundNumber * 5
      ensures CountTrue(AliveFlags()) == 0
    {
      ResetRoundVars();
      EnterRoundStart();
    }

    /** The save button: the record written to the save slot. */
    method Save() returns (data: SaveData)
      modifies this`roundSaved
      ensures data == SaveData(roundNumber, castleHealth, totalScore) && roundSaved
    {
      data := SaveData(roundNumber, castleHealth, totalScore);
      roundSaved := true;
    }

    method Pause()
      modifies this`paused
      ensures paused
    {
      paused := true;
    }

    method Resume()
      modifies this`paused
      ensures !paused
    {
      paused := false;
    }

    /** hideAllButtons. */
    method HideAllButtons()
      modifies this`visible
      ensures visible == {}
    {
      visible := {};
    }

    /** update() before the first game: the new-game and load buttons are
        shown and checked in that order; a new game hides the load button
        before it is checked. */
    method PreGameTick(touch: Option<Touch>, stored: Option<SaveData>)
      requires Valid() && Tally()
      modifies this`roundNumber, this`castleHealth, this`totalScore, this`state, this`visible,
        this`attackerDelay, this`roundTimeElapsed, this`roundScore, this`knightChance, this`roundMaxAttackers,
        this`roundMaxTime, this`roundSaved, this`spawnTimeMin, this`spawnTimeMax,
        attackers`alive, sprites`animating, sprites`looping, sprites`stateTime
      ensures Valid() && Tally()
      ensures OnButton(touch, NewGameButton) ==>
        state == RoundStart && roundNumber == 1 && castleHealth == old(castleHealth) && totalScore == old(totalScore)
      ensures !OnButton(touch, NewGameButton) && OnButton(touch, LoadGameButton) ==>
        var data := if stored.Some? then stored.value else SaveData(1, MaxHealth, 0);
        state == RoundStart && roundNumber == data.round && castleHealth == data.health && totalScore == data.totalScore
      ensures !OnButton(touch, NewGameButton) && !OnButton(touch, LoadGameButton) ==>
        state == old(state) && visible == old(visible) + {NewGameButton, LoadGameButton}
    {
      visible := visible + {NewGameButton, LoadGameButton};
      if Pressed(touch, NewGameButton) {
        NewGame();
      }
      if Pressed(touch, LoadGameButton) {
        LoadGame(stored);
      }
    }

    /** update() in the round-start state: the pause button is shown, the
        start delay counts, then the pause button is checked. Pausing here
        does not hold the delay back. */
    method RoundStartTick(touch: Option<Touch>)
      modifies this`visible, this`attackerDelay, this`state, this`paused
      ensures attackerDelay == old(attackerDelay) + 1
      ensures state == if attackerDelay > RoundStartDelay then RoundPlay else old(state)
      ensures paused == (old(paused) || (attackerDelay <= RoundStartDelay && OnButton(touch, PauseButton)))
    {
      visible := visible + {PauseButton};
      HandleRoundStart();
      if Pressed(touch, PauseButton) {
        Pause();
        HideAllButtons();
      }
    }

    /** update() during play: unpaused, one play tick and then the pause
        button; paused, only the resume button, and nothing else moves. */
    method RoundPlayTick(dt: real, touch: Option<Touch>, spawnDraw: real, rushDraws: seq<real>, reseed: int)
      returns (killed: int)
      requires Valid() && Tally() && |rushDraws| == RushSize && spawnTimeMin <= reseed <= spawnTimeMax
      modifies this`spawnTime, this`roundTimeElapsed, this`livingCount, this`monsterHouseSpawn, this`roundScore,
        this`castleHealth, this`damageStage, this`state, this`totalScore, this`roundNumber, this`visible, this`paused,
        attackers`alive, attackers`x, attackers`y, sprites`x, sprites`y, sprites`boxX,
        sprites`boxY, sprites`current, sprites`animating, sprites`looping, sprites`stateTime
      ensures Valid() && Tally()
      ensures old(paused) ==>
        killed == -1 && unchanged(attackers, sprites) && roundTimeElapsed == old(roundTimeElapsed) &&
        state == old(state) && castleHealth == old(castleHealth) && paused == !OnButton(touch, ResumeButton)
      ensures !old(paused) ==>
        roundTimeElapsed == old(roundTimeElapsed) + dt &&
        state == EndOfTickState(old(state), castleHealth, roundTimeElapsed, roundMaxTime) &&
        (paused <==> castleHealth != 0 && roundTimeElapsed <= roundMaxTime && OnButton(touch, PauseButton))
    {
      visible := visible + {PauseButton};
      if !paused {
        killed := PlayTick(dt, touch, spawnDraw, rushDraws, reseed);
      } else {
        killed := -1;
        ResumeCheck(touch);
      }
    }

    /** An unpaused frame of play: one play tick, then the pause button. */
    method PlayTick(dt: real, touch: Option<Touch>, spawnDraw: real, rushDraws: seq<real>, reseed: int)
      returns (killed: int)
      requires Valid() && Tally() && |rushDraws| == RushSize && spawnTimeMin <= reseed <= spawnTimeMax
      requires !paused && PauseButton in visible
      modifies this`spawnTime, this`roundTimeElapsed, this`livingCount, this`monsterHouseSpawn, this`roundScore,
        this`castleHealth, this`damageStage, this`state, this`totalScore, this`roundNumber, this`visible, this`paused,
        attackers`alive, attackers`x, attackers`y, sprites`x, sprites`y, sprites`boxX,
        sprites`boxY, sprites`current, sprites`animating, sprites`looping, sprites`stateTime
      ensures Valid() && Tally()
      ensures roundTimeElapsed == old(roundTimeElapsed) + dt
      ensures state == EndOfTickState(old(state), castleHealth, roundTimeElapsed, roundMaxTime)
      ensures paused <==> castleHealth != 0 && roundTimeElapsed <= roundMaxTime && OnButton(touch, PauseButton)
    {
      killed := HandleStandardGameplay(dt, touch, spawnDraw, rushDraws, reseed);
      PauseCheck(touch);
    }

    /** The pause button, checked after a play tick. */
    method PauseCheck(touch: Option<Touch>)
      modifies this`paused, this`visible
      ensures paused == (old(paused) || (PauseButton in old(visible) && OnButton(touch, PauseButton)))
    {
      if Pressed(touch, PauseButton) {
        Pause();
        HideAllButtons();
      }
    }

    /** While paused, the resume button is shown and checked. */
    method ResumeCheck(touch: Option<Touch>)
      modifies this`paused, this`visible
      ensures paused == (old(paused) && !OnButton(touch, ResumeButton))
    {
      visible := visible + {ResumeButton};
      if Pressed(touch, ResumeButton) {
        Resume();
        HideAllButtons();
      }
    }

    /** update() after a round: the repair, next-round and save buttons are
        shown and checked in the order repair, save, next round; the saved
        record, if any, is returned. */
    method RoundOverTick(touch: Option<Touch>) returns (saved: Option<SaveData>)
      requires Valid() && Tally()
      modifies this`visible, this`totalScore, this`castleHealth, this`damageStage, this`state,
        this`attackerDelay, this`roundTimeElapsed, this`roundScore, this`knightChance, this`roundMaxAttackers,
        this`roundMaxTime, this`roundSaved, this`spawnTimeMin, this`spawnTimeMax,
        attackers`alive, sprites`animating, sprites`looping, sprites`stateTime
      ensures Valid() && Tally()
      ensures var repaired := OnButton(touch, RepairButton) && old(totalScore) > RepairCost;
        totalScore == (if repaired then old(totalScore) - RepairCost else old(totalScore)) &&
        castleHealth == (if repaired then old(castleHealth) + 100 else old(castleHealth))
      ensures saved.Some? <==> OnButton(touch, SaveButton)
      ensures saved.Some? ==> saved.value == SaveData(roundNumber, castleHealth, totalScore)
      ensures state == if OnButton(touch, NextRoundButton) then RoundStart else old(state)
    {
      saved := RoundOverButtons(touch);
      if Pressed(touch, NextRoundButton) {
        NextRound();
      }
    }

    /** The round-over buttons are shown, then repair and save are checked. */
    method RoundOverButtons(touch: Option<Touch>) returns (saved: Option<SaveData>)
      modifies this`visible, this`totalScore, this`castleHealth, this`damageStage, this`roundSaved
      ensures NextRoundButton in visible
      ensures var repaired := OnButton(touch, RepairButton) && old(totalScore) > RepairCost;
        totalScore == (if repaired then old(totalScore) - RepairCost else old(totalScore)) &&
        castleHealth == (if repaired then old(castleHealth) + 100 else old(castleHealth))
      ensures saved.Some? <==> OnButton(touch, SaveButton)
      ensures saved.Some? ==> saved.value == SaveData(roundNumber, castleHealth, totalScore)
    {
      visible := visible + {RepairButton, NextRoundButton, SaveButton};
      if Pressed(touch, RepairButton) {
        Repair();
      }
      saved := None;
      if Pressed(touch, SaveButton) {
        var data := Save();
        saved := Some(data);
      }
    }

    /** update() after a lost game: only the new-game button, which keeps
        the castle's health and the total score as they are. */
    method GameOverTick(touch: Option<Touch>)
      requires Valid() && Tally()
      modifies this`roundNumber, this`state, this`visible,
        this`attackerDelay, this`roundTimeElapsed, this`roundScore, this`knightChance, this`roundMaxAttackers,
        this`roundMaxTime, this`roundSaved, this`spawnTimeMin, this`spawnTimeMax,
        attackers`alive, sprites`animating, sprites`looping, sprites`stateTime
      ensures Valid() && Tally()
      ensures OnButton(touch, NewGameButton) ==>
        state == RoundStart && roundNumber == 1 && castleHealth == old(castleHealth) && totalScore == old(totalScore)
      ensures !OnButton(touch, NewGameButton) ==> state == old(state)
    {
      visible := visible + {NewGameButton};
      if Pressed(touch, NewGameButton) {
        NewGame();
      }
    }

    /** update(): one frame of the game loop, by state. The save slot's
        contents come in as a parameter and a save goes out as the result. */
    method Update(dt: real, touch: Option<Touch>, spawnDraw: real, rushDraws: seq<real>, reseed: int,
                  stored: Option<SaveData>) returns (saved: Option<SaveData>)
      requires Valid() && Tally() && |rushDraws| == RushSize && spawnTimeMin <= reseed <= spawnTimeMax
      modifies this`spawnTime, this`roundTimeElapsed, this`livingCount, this`monsterHouseSpawn, this`roundScore,
        this`castleHealth, this`damageStage, this`state, this`totalScore, this`roundNumber, this`visible, this`paused,
        this`attackerDelay, this`knightChance, this`roundMaxAttackers, this`roundMaxTime, this`roundSaved,
        this`spawnTimeMin, this`spawnTimeMax,
        attackers`alive, attackers`x, attackers`y, sprites`x, sprites`y, sprites`boxX,
        sprites`boxY, sprites`current, sprites`animating, sprites`looping, sprites`stateTime
      ensures Valid() && Tally()
      ensures Transition(old(state), state)
      ensures saved.Some? ==> old(state) == RoundOver && saved.value == SaveData(roundNumber, castleHealth, totalScore)
      ensures old(state) == RoundPlay && old(paused) ==>
        unchanged(attackers, sprites) && roundTimeElapsed == old(roundTimeElapsed) && state == RoundPlay
    {
      saved := None;
      match state
      case PreGame =>
        PreGameTick(touch, stored);
      case RoundStart =>
        RoundStartTick(touch);
      case RoundPlay =>
        var _ := RoundPlayTick(dt, touch, spawnDraw, rushDraws, reseed);
      case RoundOver =>
        saved := RoundOverTick(touch);
      case GameOver =>
        GameOverTick(touch);
    }
  }
}
