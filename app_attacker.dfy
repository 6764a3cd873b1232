/**
 * The attacker of the Android prototype (app Attacker.java): an integer
 * walker that steps toward its end zone by its speed each frame and starts
 * attacking once it stands at or past the end zone.
 */
module AppAttacker {
  import AppSprite

  /** One frame of walking: short of the end zone the attacker steps on by
      its speed; at or past it the attacker stays where it is. */
  function Step(x: int, speed: int, endZone: int): (r: int)
    ensures x < endZone ==> r - x == speed && r < endZone + speed
    ensures x >= endZone ==> r == x
  {
    if x < endZone then x + speed else x
  }

  /** Where n frames of walking leave a living attacker. */
  function Walk(x: int, speed: int, endZone: int, n: nat): int
  {
    if n == 0 then x else Step(Walk(x, speed, endZone, n - 1), speed, endZone)
  }

  /** With a positive speed the attacker reaches its end zone: once n steps
      of its speed cover the distance, it stands at or past the end zone. */
  lemma {:induction false} WalkArrives(x: int, speed: int, endZone: int, n: nat)
    requires speed > 0 && x + n * speed >= endZone
    ensures Walk(x, speed, endZone, n) >= endZone
  {
    if n > 0 {
      var w := Walk(x, speed, endZone, n - 1);
      if w < endZone {
        WalkBelow(x, speed, endZone, n - 1);
      }
    }
  }

  /** While it has not arrived, the attacker has walked every frame. */
  lemma {:induction false} WalkBelow(x: int, speed: int, endZone: int, n: nat)
    requires Walk(x, speed, endZone, n) < endZone && speed > 0
    ensures Walk(x, speed, endZone, n) == x + n * speed
  {
    if n > 0 {
      var w := Walk(x, speed, endZone, n - 1);
      assert w < endZone;
      WalkBelow(x, speed, endZone, n - 1);
    }
  }

  /** An attacker that starts short of its end zone never ends up a full
      step past it. */
  lemma {:induction false} WalkOvershoot(x: int, speed: int, endZone: int, n: nat)
    requires x < endZone && speed >= 0
    ensures Walk(x, speed, endZone, n) < endZone + speed
  {
    if n > 0 {
      WalkOvershoot(x, speed, endZone, n - 1);
    }
  }

  /** Once at or past its end zone, an attacker stays put for good. */
  lemma {:induction false} WalkHolds(x: int, speed: int, endZone: int, n: nat)
    requires x >= endZone
    ensures Walk(x, speed, endZone, n) == x
  {
    if n > 0 {
      WalkHolds(x, speed, endZone, n - 1);
    }
  }

  class Attacker {
    var x: int
    const y: int
    const speed: int
    const damage: int
    const endZone: int
    var attacking: bool
    var alive: bool
    const anim: AppSprite.Sprite

    /** A new attacker is dead, not attacking, and deals 1 damage. */
    constructor (s: int, x0: int, y0: int, zone: int, sprite: AppSprite.Sprite)
      ensures speed == s && x == x0 && y == y0 && endZone == zone && anim == sprite
      ensures damage == 1 && !alive && !attacking
    {
      speed := s;
      x := x0;
      y := y0;
      endZone := zone;
      anim := sprite;
      damage := 1;
      alive := false;
      attacking := false;
    }

    /** update: a dead attacker does nothing; a living one walks one Step,
        drags its sprite along while walking, and is attacking exactly when
        it started the frame at or past its end zone. */
    method Update()
      modifies this`x, this`attacking, anim`x, anim`y
      ensures !old(alive) ==> unchanged(this) && unchanged(anim)
      ensures old(alive) ==> x == Step(old(x), speed, endZone) && attacking == (old(x) >= endZone)
      ensures old(alive) && old(x) < endZone ==> anim.x == x && anim.y == y
      ensures old(alive) && old(x) >= endZone ==> unchanged(anim)
    {
      if !alive {
        return;
      }
      if x < endZone {
        x := x + speed;
        anim.SetX(x);
        anim.SetY(y);
        attacking := false;
      } else {
        attacking := true;
      }
    }

    /** die: dead and moved off to x = -100; the sprite is not moved. */
    method Die()
      modifies this`alive, this`x
      ensures !alive && x == -100
    {
      alive := false;
      x := -100;
    }

    /** revive: alive again where it stands. */
    method Revive()
      modifies this`alive
      ensures alive && x == old(x)
    {
      alive := true;
    }
  }
}
