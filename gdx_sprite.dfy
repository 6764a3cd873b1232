/**
 * The libGDX Sprite of Castle Defender (core Sprite.java): an integer anchor
 * (mX, mY), a bounding box, a small play/stop animation state and a
 * hand-rolled name -> animation map kept in two parallel lists.
 */
module GdxSprite {
  import opened Wrappers

  /** A libGDX Animation, identified by the parameters it was built from. */
  datatype Animation = Animation(frameDuration: real, frameCount: nat)

  /** Outcome of a map lookup: the animation, Java's null, or the
      IndexOutOfBoundsException ArrayList.get/remove throws. */
  datatype Lookup = Hit(anim: Animation) | Null | OutOfBounds

  /** Java's narrowing conversion from float to int: truncation toward zero. */
  function Trunc(v: real): (r: int)
    ensures 0.0 <= v ==> r as real <= v < r as real + 1.0
    ensures v < 0.0 ==> r as real - 1.0 < v <= r as real
  {
    if v >= 0.0 then v.Floor else -((-v).Floor)
  }

  /** The anchor after `mX += velocity * dt` on an int field. */
  function Displace(anchor: int, velocity: real, dt: real): int
  {
    Trunc(anchor as real + velocity * dt)
  }

  lemma TruncOfInt(n: int)
    ensures Trunc(n as real) == n
  {
  }

  lemma StandStill(n: int, dt: real)
    ensures Displace(n, 0.0, dt) == n
  {
    assert n as real + 0.0 * dt == n as real;
    TruncOfInt(n);
  }

  predicate NoDuplicates(names: seq<string>)
  {
    forall i, j :: 0 <= i < j < |names| ==> names[i] != names[j]
  }

  /** ArrayList.indexOf: the first position holding k. */
  function IndexOf(names: seq<string>, k: string): (i: nat)
    requires k in names
    ensures i < |names| && names[i] == k
    ensures forall j :: 0 <= j < i ==> names[j] != k
  {
    if names[0] == k then 0 else 1 + IndexOf(names[1..], k)
  }

  /** The anonymous Map's get: null for an absent key, otherwise the
      animation stored at the key's position in the names list. */
  function LookupIn(names: seq<string>, anims: seq<Animation>, k: string): (r: Lookup)
    ensures r == Null <==> k !in names
    ensures r.Hit? ==> IndexOf(names, k) < |anims| && r.anim == anims[IndexOf(names, k)]
    ensures r == OutOfBounds ==> k in names && |anims| <= IndexOf(names, k)
  {
    if k !in names then Null
    else if IndexOf(names, k) < |anims| then Hit(anims[IndexOf(names, k)])
    else OutOfBounds
  }

  lemma {:induction false} IndexOfAppend(names: seq<string>, k: string, x: string)
    requires k in names
    ensures IndexOf(names + [x], k) == IndexOf(names, k)
  {
    if names[0] != k {
      assert (names + [x])[1..] == names[1..] + [x];
      IndexOfAppend(names[1..], k, x);
    }
  }

  lemma {:induction false} IndexOfFresh(names: seq<string>, k: string)
    requires k !in names
    ensures IndexOf(names + [k], k) == |names|
  {
    if names != [] {
      assert (names + [k])[1..] == names[1..] + [k];
      IndexOfFresh(names[1..], k);
    }
  }

  /** Round trip of put and get on aligned lists: the new key finds the new
      animation and every other key finds what it found before. */
  lemma LookupAfterPut(names: seq<string>, anims: seq<Animation>, k: string, v: Animation, other: string)
    requires |names| == |anims| && k !in names && other != k
    ensures LookupIn(names + [k], anims + [v], k) == Hit(v)
    ensures LookupIn(names + [k], anims + [v], other) == LookupIn(names, anims, other)
  {
    IndexOfFresh(names, k);
    if other in names {
      IndexOfAppend(names, other, k);
    }
  }

  /** The lossy remove: on aligned lists, removing key k at position i keeps
      k in the names list, and k then finds the animation that followed
      its own (or runs past the end of the shortened list). */
  lemma RemoveShiftsLookup(names: seq<string>, anims: seq<Animation>, k: string)
    requires |names| == |anims| && k in names
    ensures var i := IndexOf(names, k);
      var rest := anims[..i] + anims[i + 1..];
      k in names &&
      LookupIn(names, rest, k) == (if i + 1 < |anims| then Hit(anims[i + 1]) else OutOfBounds)
  {
  }

  /** After a remove has shortened the animation list, a fresh key put on
      both lists lands past the end of the animation list: get throws. */
  lemma PutAfterRemoveIsLost(names: seq<string>, anims: seq<Animation>, k: string, v: Animation)
    requires |anims| < |names| && k !in names
    ensures LookupIn(names + [k], anims + [v], k) == OutOfBounds
  {
    IndexOfFresh(names, k);
  }

  class Sprite {
    var x: int
    var y: int
    const width: real
    const height: real
    var boxX: real
    var boxY: real
    var animating: bool
    var looping: bool
    var stateTime: real
    var current: string
    var names: seq<string>
    var anims: seq<Animation>

    /** Names never repeat (put refuses duplicates) and the animation list is
        never longer than the names list (remove only shortens it). */
    ghost predicate Valid()
      reads this`names, this`anims
    {
      |anims| <= |names| && NoDuplicates(names)
    }

    constructor (x0: int, y0: int, w: real, h: real)
      ensures Valid()
      ensures x == x0 && y == y0 && width == w && height == h
      ensures boxX == x0 as real && boxY == y0 as real
      ensures !animating && !looping && stateTime == 0.0 && current == ""
      ensures names == [] && anims == []
    {
      x, y := x0, y0;
      width, height := w, h;
      boxX, boxY := x0 as real, y0 as real;
      stateTime := 0.0;
      animating := false;
      current := "";
      looping := false;
      names, anims := [], [];
    }

    /** The current animation resolves through get, so an update cannot
        throw: the lists are aligned and a playing name is a key. */
    ghost predicate Playable()
      reads this`names, this`anims, this`animating, this`current
      ensures Playable() && animating ==> Get(current).Hit?
    {
      |anims| == |names| && (animating ==> current in names)
    }

    /** Advances the animation clock, then looks up the current animation
        for its key frame and moves the anchor by the truncated displacement.
        A sprite that is not animating stays as it is. When the lookup
        answers null or runs past the animation list, the key-frame call
        throws (`thrown`) after the clock has advanced and before anything
        moves. */
    method Update(dt: real, dx: real, dy: real) returns (thrown: bool)
      modifies this`stateTime, this`x, this`y, this`boxX, this`boxY
      ensures !old(animating) ==> !thrown && unchanged(this)
      ensures thrown <==> old(animating) && !Get(current).Hit?
      ensures old(animating) ==> stateTime == old(stateTime) + dt
      ensures old(animating) && !thrown ==>
        x == Displace(old(x), dx, dt) && y == Displace(old(y), dy, dt) &&
        boxX == x as real && boxY == y as real
      ensures thrown ==> x == old(x) && y == old(y) && boxX == old(boxX) && boxY == old(boxY)
    {
      thrown := false;
      if !animating {
        return;
      }
      stateTime := stateTime + dt;
      if !Get(current).Hit? {
        thrown := true;
        return;
      }
      x := Displace(x, dx, dt);
      y := Displace(y, dy, dt);
      SetPosition(x as real, y as real);
    }

    /** The one-argument overload: animate in place, with the same throw. */
    method UpdateInPlace(dt: real) returns (thrown: bool)
      modifies this`stateTime, this`x, this`y, this`boxX, this`boxY
      ensures !old(animating) ==> !thrown && unchanged(this)
      ensures thrown <==> old(animating) && !Get(current).Hit?
      ensures old(animating) ==> stateTime == old(stateTime) + dt
      ensures x == old(x) && y == old(y)
      ensures old(animating) && !thrown ==> boxX == x as real && boxY == y as real
    {
      StandStill(x, dt);
      StandStill(y, dt);
      thrown := Update(dt, 0.0, 0.0);
    }

    method Play(name: string, loop: bool)
      modifies this`current, this`animating, this`looping, this`stateTime
      ensures name !in names ==> unchanged(this)
      ensures name in names ==> current == name && animating && looping == loop && stateTime == 0.0
    {
      if !ContainsKey(name) {
        return;
      }
      current := name;
      animating := true;
      looping := loop;
      stateTime := 0.0;
    }

    /** play() without arguments: the first added name, looping. */
    method PlayFirst()
      requires Valid()
      modifies this`current, this`animating, this`looping, this`stateTime
      ensures anims == [] ==> unchanged(this)
      ensures anims != [] ==> current == names[0] && animating && looping && stateTime == 0.0
    {
      if IsEmpty() {
        return;
      }
      Play(names[0], true);
    }

    method Stop()
      modifies this`animating, this`looping, this`stateTime
      ensures !animating && !looping && stateTime == 0.0
    {
      animating := false;
      looping := false;
      stateTime := 0.0;
    }

    method AddAnimation(anim: Animation, name: string)
      requires Valid()
      modifies this`names, this`anims
      ensures Valid()
      ensures old(name in names) ==> unchanged(this)
      ensures old(name !in names) ==> names == old(names) + [name] && anims == old(anims) + [anim]
    {
      if !ContainsKey(name) {
        var _ := Put(name, anim);
      }
    }

    /** Moves only the bounding box; the anchor (mX, mY) is left behind. */
    method SetPosition(px: real, py: real)
      modifies this`boxX, this`boxY
      ensures boxX == px && boxY == py
      ensures x == old(x) && y == old(y)
    {
      boxX, boxY := px, py;
    }

    // The members of the anonymous Map built in defineMap.

    /** size(): the length of the animation list, which never exceeds the
        number of keys. */
    function Size(): (n: nat)
      reads this`names, this`anims
      ensures Valid() ==> n <= |names|
    {
      |anims|
    }

    /** isEmpty asks the animation list only: after removes have emptied it,
        the keys are still present and every get on them throws. */
    predicate IsEmpty()
      reads this`names, this`anims
      ensures IsEmpty() <==> Size() == 0
      ensures IsEmpty() ==> forall k :: k in names ==> Get(k) == OutOfBounds
    {
      |anims| == 0
    }

    /** containsKey asks the names list, so a key is present exactly when
        get does not answer null. */
    predicate ContainsKey(k: string)
      reads this`names, this`anims
      ensures ContainsKey(k) <==> Get(k) != Null
    {
      k in names
    }

    predicate ContainsValue(v: Animation)
      reads this`anims
    {
      v in anims
    }

    /** get: null exactly for an absent key; what it finds is a stored value. */
    function Get(k: string): (r: Lookup)
      reads this`names, this`anims
      ensures r == Null <==> k !in names
      ensures r.Hit? ==> ContainsValue(r.anim)
    {
      LookupIn(names, anims, k)
    }

    /** Every stored animation is reachable through get under the key at its
        own position, and get finds nothing else. */
    lemma ValuesReachable(v: Animation)
      requires Valid()
      ensures ContainsValue(v) <==> exists k :: k in names && Get(k) == Hit(v)
    {
      if ContainsValue(v) {
        var i :| 0 <= i < |anims| && anims[i] == v;
        var k := names[i];
        assert IndexOf(names, k) == i;
      }
    }

    /** Appends to both lists unless the name is already present. */
    method Put(k: string, v: Animation) returns (r: Option<Animation>)
      requires Valid()
      modifies this`names, this`anims
      ensures Valid()
      ensures r == (if old(k in names) then None else Some(v))
      ensures old(k in names) ==> unchanged(this)
      ensures old(k !in names) ==> names == old(names) + [k] && anims == old(anims) + [v]
    {
      if k !in names {
        anims := anims + [v];
        names := names + [k];
        r := Some(v);
      } else {
        r := None;
      }
    }

    /** Removes from the animation list only; the name stays behind. */
    method Remove(k: string) returns (r: Lookup)
      requires Valid()
      modifies this`anims
      ensures Valid() && names == old(names)
      ensures r == old(Get(k))
      ensures r.Hit? ==> var i := IndexOf(names, k); anims == old(anims[..i] + anims[i + 1..])
      ensures !r.Hit? ==> anims == old(anims)
    {
      if k in names {
        var i := IndexOf(names, k);
        if i < |anims| {
          r := Hit(anims[i]);
          anims := anims[..i] + anims[i + 1..];
        } else {
          r := OutOfBounds;
        }
      } else {
        r := Null;
      }
    }

    method Clear()
      modifies this`names, this`anims
      ensures Valid() && names == [] && anims == []
    {
      names := [];
      anims := [];
    }
  }
}
