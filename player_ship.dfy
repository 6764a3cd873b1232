/**
 * The player's ship of Tappy Defender (PlayerShip.java): integer speed that
 * boosting raises and coasting lowers, clamped to [MinSpeed, MaxSpeed]; a
 * vertical position moved by speed against gravity and clamped to the
 * screen; a hit box refreshed after each move; and a shield counter.
 */
module Tappy {
  const Gravity: int := -12
  const MinSpeed: int := 1
  const MaxSpeed: int := 20
  const BoostStep: int := 2
  const BrakeStep: int := 5

  /** android.graphics.Rect(left, top, right, bottom). */
  datatype Rect = Rect(left: int, top: int, right: int, bottom: int)

  /** The two ifs on speed: cap at the top, then floor at the bottom. */
  function ClampSpeed(s: int): (r: int)
    ensures MinSpeed <= r <= MaxSpeed
    ensures MinSpeed <= s <= MaxSpeed ==> r == s
    ensures s > MaxSpeed ==> r == MaxSpeed
    ensures s < MinSpeed ==> r == MinSpeed
  {
    var capped := if s > MaxSpeed then MaxSpeed else s;
    if capped < MinSpeed then MinSpeed else capped
  }

  /** The speed after one update: +2 while boosting, -5 otherwise, clamped. */
  function NextSpeed(speed: int, boosting: bool): int
  {
    ClampSpeed(speed + if boosting then BoostStep else -BrakeStep)
  }

  /** The two ifs on y: floor at minY, then cap at maxY. When the screen is
      shorter than the ship (maxY < minY) the cap wins and y is maxY. */
  function ClampY(y: int, minY: int, maxY: int): (r: int)
    ensures minY <= maxY ==> minY <= r <= maxY
    ensures minY <= y <= maxY ==> r == y
    ensures maxY < minY ==> r == maxY
    ensures y < minY && minY <= maxY ==> r == minY
    ensures y > maxY ==> r == maxY
  {
    var floored := if y < minY then minY else y;
    if floored > maxY then maxY else floored
  }

  /** The y after one update at the new speed: `y -= speed + GRAVITY`. */
  function NextY(y: int, speed: int, minY: int, maxY: int): int
  {
    ClampY(y - (speed + Gravity), minY, maxY)
  }

  /** Clamping twice changes nothing more. */
  lemma ClampsIdempotent(s: int, y: int, minY: int, maxY: int)
    ensures ClampSpeed(ClampSpeed(s)) == ClampSpeed(s)
    ensures minY <= maxY ==> ClampY(ClampY(y, minY, maxY), minY, maxY) == ClampY(y, minY, maxY)
  {
  }

  /** Boosting never slows the ship, coasting never speeds it up, and the
      ship never comes to a stop. */
  lemma SpeedResponds(s: int)
    requires MinSpeed <= s <= MaxSpeed
    ensures s <= NextSpeed(s, true) && NextSpeed(s, false) <= s
    ensures NextSpeed(s, false) >= MinSpeed
  {
  }

  /** n updates at a fixed boosting setting. */
  function SpeedAfter(s: int, boosting: bool, n: nat): int
  {
    if n == 0 then s else NextSpeed(SpeedAfter(s, boosting, n - 1), boosting)
  }

  /** Ten frames of boosting reach top speed from any speed the ship can
      have, and four frames of coasting bring it down to the minimum. */
  lemma {:induction false} SpeedSettles(s: int, n: nat)
    requires MinSpeed <= s <= MaxSpeed
    ensures n >= 10 ==> SpeedAfter(s, true, n) == MaxSpeed
    ensures n >= 4 ==> SpeedAfter(s, false, n) == MinSpeed
    ensures MinSpeed <= SpeedAfter(s, true, n) <= MaxSpeed
    ensures MinSpeed <= SpeedAfter(s, false, n) <= MaxSpeed
    ensures SpeedAfter(s, true, n) >= s + BoostStep * n || SpeedAfter(s, true, n) == MaxSpeed
    ensures SpeedAfter(s, false, n) <= s - BrakeStep * n || SpeedAfter(s, false, n) == MinSpeed
  {
    if n > 0 {
      SpeedSettles(s, n - 1);
    }
  }

  /** On an open screen, below speed 12 the ship sinks (y grows), above it
      the ship climbs, and at exactly 12 it holds its height. */
  lemma GravityBalance(y: int, speed: int, minY: int, maxY: int)
    requires minY <= y <= maxY
    ensures speed < -Gravity ==> NextY(y, speed, minY, maxY) >= y
    ensures speed > -Gravity ==> NextY(y, speed, minY, maxY) <= y
    ensures speed == -Gravity ==> NextY(y, speed, minY, maxY) == y
  {
  }

  class PlayerShip {
    var x: int
    var y: int
    var speed: int
    var boosting: bool
    const minY: int
    const maxY: int
    const bitmapWidth: int
    const bitmapHeight: int
    var hitBox: Rect
    var shieldStrength: int

    /** The constructor parks the ship at (-500, -500) at rest with shield 2.
        The bitmap comes in as its width and height; its box is made from
        (x, y) and the raw width and height, not x + width and y + height,
        until the first update refreshes it. */
    constructor (screenY: int, width: int, height: int)
      ensures x == -500 && y == -500 && speed == 0 && !boosting
      ensures minY == 0 && maxY == screenY - height
      ensures bitmapWidth == width && bitmapHeight == height
      ensures hitBox == Rect(-500, -500, width, height)
      ensures shieldStrength == 2
    {
      x := -500;
      y := -500;
      speed := 0;
      bitmapWidth := width;
      bitmapHeight := height;
      boosting := false;
      maxY := screenY - height;
      minY := 0;
      hitBox := Rect(x, y, width, height);
      shieldStrength := 2;
    }

    /** The box a refreshed hit box has: the bitmap's size at (x, y). */
    function BoxAt(): Rect
      reads this`x, this`y
    {
      Rect(x, y, x + bitmapWidth, y + bitmapHeight)
    }

    /** update: speed, then height, then the hit box, each step as the
        source takes it. */
    method Update()
      modifies this`speed, this`y, this`hitBox
      ensures speed == NextSpeed(old(speed), boosting)
      ensures y == NextY(old(y), speed, minY, maxY)
      ensures x == old(x) && hitBox == BoxAt()
    {
      if boosting {
        speed := speed + BoostStep;
      } else {
        speed := speed - BrakeStep;
      }
      if speed > MaxSpeed {
        speed := MaxSpeed;
      }
      if speed < MinSpeed {
        speed := MinSpeed;
      }
      y := y - (speed + Gravity);
      if y < minY {
        y := minY;
      }
      if y > maxY {
        y := maxY;
      }
      hitBox := hitBox.(left := x, top := y, right := x + bitmapWidth, bottom := y + bitmapHeight);
    }

    method SetBoosting()
      modifies this`boosting
      ensures boosting
    {
      boosting := true;
    }

    method StopBoosting()
      modifies this`boosting
      ensures !boosting
    {
      boosting := false;
    }

    /** Takes exactly one point off the shield, with no floor at zero. */
    method ReduceShieldStrength()
      modifies this`shieldStrength
      ensures shieldStrength == old(shieldStrength) - 1
    {
      shieldStrength := shieldStrength - 1;
    }
  }
}
