/**
 * The sprite-sheet Sprite of the Android prototype (app Sprite.java): an
 * integer position, a (row, column) frame counter that walks the sheet with
 * wrap-around, the on-screen test that gates drawing, and the source and
 * destination rectangles handed to Canvas.drawBitmap.
 */
module AppSprite {
  import opened Wrappers

  /** android.graphics.Rect(left, top, right, bottom). */
  datatype Rect = Rect(left: int, top: int, right: int, bottom: int)

  /** The frame counter: mFrameRow and mFrameCol. */
  datatype Frame = Frame(row: int, col: int)

  /** The bounds the counter keeps. Both are inclusive: a sheet declared
      with `rows` rows and `cols` columns is walked over rows + 1 rows and
      cols + 1 columns. */
  predicate InSheet(f: Frame, rows: int, cols: int)
  {
    0 <= f.row <= rows && 0 <= f.col <= cols
  }

  /** Position of a frame along the walk: row by row, column by column. */
  function Index(f: Frame, cols: int): int
  {
    f.row * (cols + 1) + f.col
  }

  /** Number of frames in one full walk of the sheet. */
  function Period(rows: nat, cols: nat): (n: nat)
    ensures n > 0
  {
    (rows + 1) * (cols + 1)
  }

  /** updateAnim: the column advances; past the last column it returns to 0
      and the row advances; past the last row the row returns to 0. */
  function Advance(f: Frame, rows: int, cols: int): (r: Frame)
    ensures rows >= 0 && cols >= 0 && InSheet(f, rows, cols) ==>
      InSheet(r, rows, cols) && Index(r, cols) == (Index(f, cols) + 1) % Period(rows, cols)
  {
    var col := f.col + 1;
    var next := if col > cols then Frame(f.row + 1, 0) else Frame(f.row, col);
    var r := if next.row > rows then Frame(0, next.col) else next;
    if rows >= 0 && cols >= 0 && InSheet(f, rows, cols) then
      AdvanceStep(f, rows, cols);
      r
    else
      r
  }

  /** The arithmetic behind Advance's contract, case by case: the next
      frame's index is one more, except that the last frame wraps to 0. */
  lemma AdvanceStep(f: Frame, rows: nat, cols: nat)
    requires InSheet(f, rows, cols)
    ensures var col := f.col + 1;
      var next := if col > cols then Frame(f.row + 1, 0) else Frame(f.row, col);
      var r := if next.row > rows then Frame(0, next.col) else next;
      InSheet(r, rows, cols) && Index(r, cols) == (Index(f, cols) + 1) % Period(rows, cols)
  {
    var p := Period(rows, cols);
    if f.col < cols {
      var r := Frame(f.row, f.col + 1);
      IndexBelowPeriod(r, rows, cols);
      ModUnique(Index(f, cols) + 1, p, 0, Index(r, cols));
    } else if f.row < rows {
      var r := Frame(f.row + 1, 0);
      MulSucc(f.row, cols + 1);
      IndexBelowPeriod(r, rows, cols);
      ModUnique(Index(f, cols) + 1, p, 0, Index(r, cols));
    } else {
      MulSucc(rows, cols + 1);
      ModUnique(Index(f, cols) + 1, p, 1, 0);
    }
  }

  /** Instances of multiplication facts that the frame-index proofs below
      hand to the solver, which does not find nonlinear steps by itself. */
  lemma MulSucc(a: int, c: int)
    ensures (a + 1) * c == a * c + c
  {
  }

  lemma MulMonotone(a: int, b: int, c: nat)
    requires a <= b
    ensures a * c <= b * c
  {
  }

  /** Euclidean division is unique: a remainder in [0, p) is the remainder. */
  lemma ModUnique(a: int, p: int, q: int, m: int)
    requires p > 0 && 0 <= m < p && a == q * p + m
    ensures a % p == m
  {
    var k := q - a / p;
    assert k * p == a % p - m by {
      assert a == (a / p) * p + a % p;
      assert k * p == q * p - (a / p) * p;
    }
    if k > 0 {
      MulMonotone(1, k, p);
    } else if k < 0 {
      MulMonotone(k, -1, p);
    }
  }

  /** Adding one after reducing is the same as reducing after adding one. */
  lemma ModSucc(a: int, p: int)
    requires p > 0
    ensures (a % p + 1) % p == (a + 1) % p
  {
    var q := a / p;
    var m := a % p;
    assert a == q * p + m;
    if m + 1 < p {
      ModUnique(m + 1, p, 0, m + 1);
      ModUnique(a + 1, p, q, m + 1);
    } else {
      ModUnique(m + 1, p, 1, 0);
      MulSucc(q, p);
      ModUnique(a + 1, p, q + 1, 0);
    }
  }

  /** One more step of a walk taken modulo p. */
  lemma ModChain(current: int, next: int, a: int, p: int)
    requires p > 0 && current == a % p && next == (current + 1) % p
    ensures next == (a + 1) % p
  {
    ModSucc(a, p);
  }

  /** A frame inside the sheet has an index inside one period. */
  lemma IndexBelowPeriod(f: Frame, rows: nat, cols: nat)
    requires InSheet(f, rows, cols)
    ensures 0 <= Index(f, cols) < Period(rows, cols)
  {
    var c := cols + 1;
    MulMonotone(0, f.row, c);
    MulMonotone(f.row, rows, c);
    MulSucc(rows, c);
  }

  /** Two frames inside the sheet with the same index are the same frame. */
  lemma IndexInjective(f: Frame, g: Frame, rows: nat, cols: nat)
    requires InSheet(f, rows, cols) && InSheet(g, rows, cols)
    requires Index(f, cols) == Index(g, cols)
    ensures f == g
  {
    var c := cols + 1;
    if f.row < g.row {
      MulMonotone(f.row + 1, g.row, c);
      MulSucc(f.row, c);
    } else if g.row < f.row {
      MulMonotone(g.row + 1, f.row, c);
      MulSucc(g.row, c);
    }
  }

  /** n frame advances in a row. */
  function AdvanceTimes(f: Frame, rows: int, cols: int, n: nat): Frame
  {
    if n == 0 then f else Advance(AdvanceTimes(f, rows, cols, n - 1), rows, cols)
  }

  /** After n advances the index has moved on by n, modulo the period. */
  lemma {:induction false} AdvanceTimesIndex(f: Frame, rows: nat, cols: nat, n: nat)
    requires InSheet(f, rows, cols)
    ensures InSheet(AdvanceTimes(f, rows, cols, n), rows, cols)
    ensures Index(AdvanceTimes(f, rows, cols, n), cols) == (Index(f, cols) + n) % Period(rows, cols)
  {
    var p := Period(rows, cols);
    if n == 0 {
      IndexBelowPeriod(f, rows, cols);
      ModUnique(Index(f, cols), p, 0, Index(f, cols));
    } else {
      var g := AdvanceTimes(f, rows, cols, n - 1);
      AdvanceTimesIndex(f, rows, cols, n - 1);
      ModChain(Index(g, cols), Index(Advance(g, rows, cols), cols), Index(f, cols) + n - 1, p);
    }
  }

  /** The animation cycles: after one full period of advances every frame
      of the sheet comes back to itself. */
  lemma AnimationCycles(f: Frame, rows: nat, cols: nat)
    requires InSheet(f, rows, cols)
    ensures AdvanceTimes(f, rows, cols, Period(rows, cols)) == f
  {
    var g := AdvanceTimes(f, rows, cols, Period(rows, cols));
    FullTurnIndex(f, rows, cols, g);
    IndexInjective(g, f, rows, cols);
  }

  lemma FullTurnIndex(f: Frame, rows: nat, cols: nat, g: Frame)
    requires InSheet(f, rows, cols) && g == AdvanceTimes(f, rows, cols, Period(rows, cols))
    ensures InSheet(g, rows, cols) && Index(g, cols) == Index(f, cols)
  {
    var p := Period(rows, cols);
    var i := Index(f, cols);
    AdvanceTimesIndex(f, rows, cols, p);
    IndexBelowPeriod(f, rows, cols);
    ModUnique(i + p, p, 1, i);
  }

  /** The test in draw: strictly inside the screen widened by one sprite
      size on every side. */
  predicate OnScreen(x: int, y: int, w: int, h: int, screenW: int, screenH: int)
  {
    x > -w && x < screenW + w && y > -h && y < screenH + h
  }

  /** The source rectangle of a frame within the sprite sheet: one w by h
      cell of the sheet's grid. */
  function SourceRect(f: Frame, w: int, h: int): (r: Rect)
    ensures r.right - r.left == w && r.bottom - r.top == h
  {
    Rect(f.col * w, f.row * h, f.col * w + w, f.row * h + h)
  }

  /** The source rectangle of a frame inside the sheet lies inside the
      sheet's bitmap. */
  lemma SourceInsideSheet(f: Frame, rows: nat, cols: nat, w: nat, h: nat)
    requires InSheet(f, rows, cols)
    ensures var r := SourceRect(f, w, h);
      0 <= r.left && r.right <= (cols + 1) * w && 0 <= r.top && r.bottom <= (rows + 1) * h
  {
    MulMonotone(f.col + 1, cols + 1, w);
    MulMonotone(f.row + 1, rows + 1, h);
  }

  /** Different frames of a sheet with positive cell sizes are cut from
      different places. */
  lemma SourceRectsDiffer(f: Frame, g: Frame, w: int, h: int)
    requires w > 0 && h > 0 && f != g
    ensures SourceRect(f, w, h) != SourceRect(g, w, h)
  {
    if f.col != g.col {
      if f.col < g.col {
        MulMonotone(f.col + 1, g.col, w);
      } else {
        MulMonotone(g.col + 1, f.col, w);
      }
    } else {
      if f.row < g.row {
        MulMonotone(f.row + 1, g.row, h);
      } else {
        MulMonotone(g.row + 1, f.row, h);
      }
    }
  }

  /** The destination rectangle: the sprite's own size at its position. */
  function DestRect(x: int, y: int, w: int, h: int): (r: Rect)
    ensures r.left == x && r.top == y
    ensures r.right - r.left == w && r.bottom - r.top == h
  {
    Rect(x, y, x + w, y + h)
  }

  class Sprite {
    var x: int
    var y: int
    var frameRow: int
    var frameCol: int
    const width: int
    const height: int
    const rows: int
    const cols: int
    const noDrawLeft: int
    const noDrawTop: int
    const screenWidth: int
    const screenHeight: int

    function CurrentFrame(): Frame
      reads this`frameRow, this`frameCol
    {
      Frame(frameRow, frameCol)
    }

    /** Whether draw would draw the sprite (and advance its animation). */
    predicate Visible()
      reads this`x, this`y
    {
      x > noDrawLeft && x < screenWidth + width && y > noDrawTop && y < screenHeight + height
    }

    /** The constructor parks the sprite at (-2w, -2h), one sprite size
        beyond the no-draw edge, on frame (0, 0). The bitmap is not part of
        this model; the parent view's size comes in as two numbers. */
    constructor (numRows: int, numCols: int, w: int, h: int, parentWidth: int, parentHeight: int)
      ensures rows == numRows && cols == numCols && width == w && height == h
      ensures x == -2 * w && y == -2 * h && CurrentFrame() == Frame(0, 0)
      ensures screenWidth == parentWidth && screenHeight == parentHeight
      ensures Visible() <==> OnScreen(x, y, w, h, parentWidth, parentHeight)
      ensures w >= 0 || h >= 0 ==> !Visible()
      ensures numRows >= 0 && numCols >= 0 ==> InSheet(CurrentFrame(), rows, cols)
    {
      rows := numRows;
      cols := numCols;
      width := w;
      height := h;
      x := -2 * w;
      y := -2 * h;
      noDrawLeft := -1 * w;
      noDrawTop := -1 * h;
      screenWidth := parentWidth;
      screenHeight := parentHeight;
      frameRow := 0;
      frameCol := 0;
    }

    /** updateAnim, step by step as the source does it. */
    method UpdateAnim()
      modifies this`frameRow, this`frameCol
      ensures CurrentFrame() == Advance(old(CurrentFrame()), rows, cols)
      ensures rows >= 0 && cols >= 0 && old(InSheet(CurrentFrame(), rows, cols)) ==>
        InSheet(CurrentFrame(), rows, cols) &&
        Index(CurrentFrame(), cols) == (Index(old(CurrentFrame()), cols) + 1) % Period(rows, cols)
    {
      frameCol := frameCol + 1;
      if frameCol > cols {
        frameRow := frameRow + 1;
        frameCol := 0;
      }
      if frameRow > rows {
        frameRow := 0;
      }
    }

    /** draw: nothing happens on an invalid surface or off screen; otherwise
        the source and destination rectangles go to the canvas and the
        animation advances one frame. The canvas is the result. */
    method Draw(surfaceValid: bool) returns (drawn: Option<(Rect, Rect)>)
      modifies this`frameRow, this`frameCol
      ensures drawn.Some? <==> surfaceValid && Visible()
      ensures drawn.Some? ==>
        drawn.value == (SourceRect(old(CurrentFrame()), width, height), DestRect(x, y, width, height)) &&
        CurrentFrame() == Advance(old(CurrentFrame()), rows, cols)
      ensures drawn.None? ==> CurrentFrame() == old(CurrentFrame())
    {
      drawn := None;
      if surfaceValid && Visible() {
        var src := SourceRect(CurrentFrame(), width, height);
        var dst := DestRect(x, y, width, height);
        drawn := Some((src, dst));
        UpdateAnim();
      }
    }

    method SetX(nx: int)
      modifies this`x
      ensures x == nx
    {
      x := nx;
    }

    method SetY(ny: int)
      modifies this`y
      ensures y == ny
    {
      y := ny;
    }
  }
}
