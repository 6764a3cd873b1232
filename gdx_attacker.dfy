/**
 * One pooled enemy of Castle Defender (core Attacker.java): constructed
 * dead, revived at its start x, walked by its sprite while alive and
 * killed without being moved.
 */
module GdxAttacker {
  import opened Wrappers
  import opened GdxSprite

  /** A libGDX Rectangle: corner, width and height. */
  datatype Rect = Rect(x: real, y: real, width: real, height: real)

  /** libGDX Rectangle.contains(x, y): the closed box, edges included. */
  predicate Contains(r: Rect, px: real, py: real)
  {
    r.x <= px <= r.x + r.width && r.y <= py <= r.y + r.height
  }

  class Attacker {
    const hitDamage: int
    const walkSpeed: real
    const startX: real
    const width: real
    const height: real
    const kind: string
    var x: real
    var y: real
    var alive: bool
    const sprite: Sprite

    /** While alive, the attacker's position is its sprite's box corner.
        The attacker only ever adds and plays animations, so its sprite
        stays playable and the sprite's update never throws. */
    ghost predicate Valid()
      reads this`alive, this`x, this`y, sprite`boxX, sprite`boxY, sprite`names, sprite`anims,
        sprite`animating, sprite`current
    {
      sprite.Valid() && sprite.Playable() && (alive ==> sprite.boxX == x && sprite.boxY == y)
    }

    /** Where the next update puts x: the sprite's truncated anchor after a
        step of walkSpeed * dt, if the attacker is alive and animating. */
    ghost function AdvancedX(dt: real): real
      reads this`alive, this`x, sprite`animating, sprite`x
    {
      if alive && sprite.animating then Displace(sprite.x, walkSpeed, dt) as real else x
    }

    ghost function AdvancedY(): real
      reads this`alive, this`y, sprite`animating, sprite`y
    {
      if alive && sprite.animating then sprite.y as real else y
    }

    constructor (damage: int, speed: real, x0: real, y0: real, w: real, h: real, kindName: string)
      ensures Valid() && fresh(sprite)
      ensures !alive && x == x0 && startX == x0 && y == y0
      ensures hitDamage == damage && walkSpeed == speed && width == w && height == h && kind == kindName
      ensures sprite.names == [] && !sprite.animating
      ensures sprite.x == Trunc(x0) && sprite.y == Trunc(y0) && sprite.width == w && sprite.height == h
    {
      hitDamage := damage;
      walkSpeed := speed;
      x := x0;
      startX := x0;
      y := y0;
      width := w;
      height := h;
      alive := false;
      kind := kindName;
      sprite := new Sprite(Trunc(x0), Trunc(y0), w, h);
    }

    /** A dead attacker answers null and stays put; a live one steps its
        sprite and takes the sprite's box corner as its position. */
    method Update(dt: real) returns (box: Option<Rect>)
      requires Valid()
      modifies this`x, this`y, sprite`stateTime, sprite`x, sprite`y, sprite`boxX, sprite`boxY
      ensures Valid()
      ensures !old(alive) ==> box == None && unchanged(this, sprite)
      ensures old(alive) ==> box == Some(Rect(x, y, width, height))
      ensures x == old(AdvancedX(dt)) && y == old(AdvancedY())
      ensures old(alive && sprite.animating) ==> sprite.x == Displace(old(sprite.x), walkSpeed, dt)
    {
      if !alive {
        return None;
      }
      StandStill(sprite.y, dt);
      var thrown := sprite.Update(dt, walkSpeed, 0.0);
      assert !thrown;
      x := sprite.boxX;
      y := sprite.boxY;
      box := Some(Rect(sprite.boxX, sprite.boxY, width, height));
    }

    /** Brings the attacker back at its start x; y is kept. The source's
        sprite.restart() is not part of this model. */
    method Revive()
      requires Valid()
      modifies this`alive, this`x, sprite`boxX, sprite`boxY
      ensures Valid()
      ensures alive && x == startX && y == old(y)
      ensures sprite.boxX == startX && sprite.boxY == y
    {
      alive := true;
      x := startX;
      sprite.SetPosition(x, y);
    }

    /** Stops the animation and marks the attacker dead, where it stands. */
    method Kill()
      requires Valid()
      modifies this`alive, sprite`animating, sprite`looping, sprite`stateTime
      ensures Valid()
      ensures !alive && x == old(x) && y == old(y)
      ensures !sprite.animating && !sprite.looping && sprite.stateTime == 0.0
    {
      sprite.Stop();
      alive := false;
    }

    method AddAnimation(anim: Animation, name: string)
      requires Valid()
      modifies sprite`names, sprite`anims
      ensures Valid()
      ensures old(name in sprite.names) ==> unchanged(sprite)
      ensures old(name !in sprite.names) ==>
        sprite.names == old(sprite.names) + [name] && sprite.anims == old(sprite.anims) + [anim]
    {
      sprite.AddAnimation(anim, name);
    }

    method Play(name: string, loop: bool)
      requires Valid()
      modifies sprite`current, sprite`animating, sprite`looping, sprite`stateTime
      ensures Valid()
      ensures name !in sprite.names ==> unchanged(sprite)
      ensures name in sprite.names ==>
        sprite.current == name && sprite.animating && sprite.looping == loop && sprite.stateTime == 0.0
    {
      sprite.Play(name, loop);
    }

    /** Moves attacker and box together, dead or alive. */
    method SetPosition(px: real, py: real)
      requires Valid()
      modifies this`x, this`y, sprite`boxX, sprite`boxY
      ensures Valid()
      ensures x == px && y == py && sprite.boxX == px && sprite.boxY == py
    {
      x := px;
      y := py;
      sprite.SetPosition(px, py);
    }
  }
}
