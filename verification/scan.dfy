/**
 * The cursor of viz.js `drawVectorField`, which draws the field one 50 by 50
 * chunk per frame, left to right and then row by row, and stops for good
 * once it has passed the bottom of the screen.
 */
module Scan {

  /** `chunkSize`. */
  const Chunk: int := 50
  /** `spacing` between arrows within a chunk. */
  const Spacing: int := 5

  /** `xStart`, `yStart` and `vectorDone`. */
  datatype Cursor = Cursor(x: int, y: int, done: bool)

  /** The cursor the module starts with. */
  const Start := Cursor(0, 0, false)

  /**
   * The chunk a call draws: a finished cursor draws nothing; at the end of a
   * row the cursor moves to the start of the next row first.
   */
  function ChunkOrigin(c: Cursor, width: int): (int, int) {
    if c.x >= width then (0, c.y + Chunk) else (c.x, c.y)
  }

  /** The cursor after one call of `drawVectorField()` on a `width` by `height` screen. */
  function Step(c: Cursor, width: int, height: int): Cursor {
    if c.done then c
    else if c.x >= width then Cursor(0 + Chunk, c.y + Chunk, false)
    else if c.y >= height then Cursor(c.x + Chunk, c.y, true)
    else Cursor(c.x + Chunk, c.y, false)
  }

  /** `n` calls in a row on a screen of a fixed size. */
  function Steps(c: Cursor, width: int, height: int, n: nat): Cursor
    decreases n
  {
    if n == 0 then c else Steps(Step(c, width, height), width, height, n - 1)
  }

  /** The first `m` arrow positions of the column at `x`, downwards from `y0`, 5 apart. */
  function Column(x: int, y0: int, m: nat): seq<(int, int)> {
    seq(m, j => (x, y0 + Spacing * j))
  }

  /** The first `n` columns of a chunk, left to right. */
  function Columns(x0: int, y0: int, n: nat): seq<(int, int)>
    decreases n
  {
    if n == 0 then [] else Columns(x0, y0, n - 1) + Column(x0 + Spacing * (n - 1), y0, 10)
  }

  /** One more column follows the first `i`. */
  lemma ColumnsNext(x0: int, y0: int, i: nat)
    ensures Columns(x0, y0, i + 1) == Columns(x0, y0, i) + Column(x0 + Spacing * i, y0, 10)
  {
  }

  /** The arrow positions of a chunk, column by column: 10 by 10 of them. */
  function ChunkPoints(x0: int, y0: int): seq<(int, int)> {
    Columns(x0, y0, 10)
  }

  /** Once finished, a call changes nothing. */
  lemma DoneStays(c: Cursor, width: int, height: int)
    requires c.done
    ensures Step(c, width, height) == c
  {
  }

  /**
   * A call that is not short-circuited moves `xStart` 50 past the chunk it
   * draws, resetting to the next row first when `xStart` has reached the
   * width.
   */
  lemma StepAdvances(c: Cursor, width: int, height: int)
    requires !c.done
    ensures var (x0, y0) := ChunkOrigin(c, width);
      Step(c, width, height).x == x0 + Chunk && Step(c, width, height).y == y0
    ensures c.x >= width ==> Step(c, width, height).y == c.y + Chunk
  {
  }

  /**
   * `vectorDone` becomes true exactly on a call entered with `xStart` below
   * the width and `yStart` at or below the bottom.
   */
  lemma DoneWhen(c: Cursor, width: int, height: int)
    requires !c.done
    ensures Step(c, width, height).done <==> c.x < width && c.y >= height
  {
  }

  /** The work left before the scan finishes on a screen wider than one chunk. */
  function Remaining(c: Cursor, width: int, height: int): nat
    requires width > Chunk
  {
    var rows: nat := if c.y >= height then 0 else height - c.y;
    var cols: nat := if c.x >= width then 0 else width - c.x;
    var wrap: nat := if c.x >= width && c.y >= height then width + 1 else 0;
    rows * (width + 100) + cols + wrap
  }

  /**
   * On a screen wider than one chunk every call that does not finish the
   * scan reduces the work left, so the scan always finishes.
   */
  lemma StepProgress(c: Cursor, width: int, height: int)
    requires width > Chunk && !c.done
    ensures Step(c, width, height).done || Remaining(Step(c, width, height), width, height) < Remaining(c, width, height)
  {
    var d := Step(c, width, height);
    if c.x >= width && c.y < height {
      var rows := height - c.y;
      var rows' := if d.y >= height then 0 else height - d.y;
      assert rows' <= rows - 1;
      assert Remaining(d, width, height) == rows' * (width + 100) + (width - Chunk);
      assert rows' * (width + 100) <= (rows - 1) * (width + 100);
    }
  }

  /**
   * On a screen wider than one chunk the scan from any cursor is finished
   * after `Remaining` calls at most.
   */
  lemma {:induction false} ScanFinishes(c: Cursor, width: int, height: int)
    requires width > Chunk
    ensures Steps(c, width, height, Remaining(c, width, height) + 1).done
    decreases Remaining(c, width, height)
  {
    var n := Remaining(c, width, height);
    if c.done {
      StaysDone(c, width, height, n + 1);
    } else {
      var d := Step(c, width, height);
      StepProgress(c, width, height);
      if d.done {
        StaysDone(d, width, height, n);
      } else {
        var m := Remaining(d, width, height);
        ScanFinishes(d, width, height);
        StaysDone(Steps(d, width, height, m + 1), width, height, n - m - 1);
        StepsAdd(d, width, height, m + 1, n - m - 1);
      }
    }
  }

  /** A finished scan stays finished. */
  lemma {:induction false} StaysDone(c: Cursor, width: int, height: int, n: nat)
    requires c.done
    ensures Steps(c, width, height, n) == c
    decreases n
  {
    if n > 0 {
      StaysDone(c, width, height, n - 1);
    }
  }

  /** `a` calls and then `b` more are `a + b` calls. */
  lemma {:induction false} StepsAdd(c: Cursor, width: int, height: int, a: nat, b: nat)
    ensures Steps(Steps(c, width, height, a), width, height, b) == Steps(c, width, height, a + b)
    decreases a
  {
    if a > 0 {
      StepsAdd(Step(c, width, height), width, height, a - 1, b);
    }
  }

  /**
   * On a screen at most one chunk wide the scan never finishes: after the
   * first call `xStart` is always 50, so every call takes the row reset.
   */
  lemma {:induction false} NarrowNeverDone(width: int, height: int, n: nat)
    requires 0 < width <= Chunk && height > 0
    ensures !Steps(Start, width, height, n).done
  {
    if n > 0 {
      assert Step(Start, width, height) == Cursor(Chunk, 0, false);
      NarrowRow(Cursor(Chunk, 0, false), width, height, n - 1);
    }
  }

  /** From `xStart == 50` on a narrow screen every call resets the row and keeps going. */
  lemma {:induction false} NarrowRow(c: Cursor, width: int, height: int, n: nat)
    requires 0 < width <= Chunk && c.x == Chunk && !c.done
    ensures Steps(c, width, height, n).x == Chunk && !Steps(c, width, height, n).done
    decreases n
  {
    if n > 0 {
      NarrowRow(Step(c, width, height), width, height, n - 1);
    }
  }

  /** The first `n` columns hold 10 points each. */
  lemma {:induction false} ColumnsLength(x0: int, y0: int, n: nat)
    ensures |Columns(x0, y0, n)| == 10 * n
    decreases n
  {
    if n > 0 {
      ColumnsLength(x0, y0, n - 1);
    }
  }

  /** The first `n` columns lie in the rectangle of width `5 * n` and height 50 at the origin. */
  lemma {:induction false} ColumnsInside(x0: int, y0: int, n: nat)
    ensures forall p :: p in Columns(x0, y0, n) ==>
      x0 <= p.0 < x0 + Spacing * n && y0 <= p.1 < y0 + Chunk
    decreases n
  {
    if n > 0 {
      ColumnsInside(x0, y0, n - 1);
      var col := Column(x0 + Spacing * (n - 1), y0, 10);
      assert forall p :: p in col ==> p.0 == x0 + Spacing * (n - 1) && y0 <= p.1 < y0 + Chunk;
    }
  }

  /** The j-th point of the i-th column is `(x0 + 5 * i, y0 + 5 * j)`. */
  lemma {:induction false} ColumnsGrid(x0: int, y0: int, n: nat, i: nat, j: nat)
    requires i < n && j < 10
    ensures 10 * i + j < |Columns(x0, y0, n)|
    ensures Columns(x0, y0, n)[10 * i + j] == (x0 + Spacing * i, y0 + Spacing * j)
    decreases n
  {
    ColumnsLength(x0, y0, n - 1);
    var prev := Columns(x0, y0, n - 1);
    var col := Column(x0 + Spacing * (n - 1), y0, 10);
    if i < n - 1 {
      ColumnsGrid(x0, y0, n - 1, i, j);
      assert (prev + col)[10 * i + j] == prev[10 * i + j];
    } else {
      assert (prev + col)[10 * i + j] == col[j];
    }
  }

  /**
   * A chunk's arrows are 100 points inside the 50 by 50 square at its
   * origin, and every point of the 5-apart grid of that square is among them.
   */
  lemma ChunkPointsCover(x0: int, y0: int)
    ensures |ChunkPoints(x0, y0)| == 100
    ensures forall k :: 0 <= k < 100 ==>
      x0 <= ChunkPoints(x0, y0)[k].0 < x0 + Chunk && y0 <= ChunkPoints(x0, y0)[k].1 < y0 + Chunk
    ensures forall i, j :: 0 <= i < 10 && 0 <= j < 10 ==>
      ChunkPoints(x0, y0)[10 * i + j] == (x0 + Spacing * i, y0 + Spacing * j)
  {
    ChunkPointsInside(x0, y0);
    ChunkPointsGrid(x0, y0);
  }

  /** A chunk's 100 arrows lie in the 50 by 50 square at its origin. */
  lemma ChunkPointsInside(x0: int, y0: int)
    ensures |ChunkPoints(x0, y0)| == 100
    ensures forall k :: 0 <= k < 100 ==>
      x0 <= ChunkPoints(x0, y0)[k].0 < x0 + Chunk && y0 <= ChunkPoints(x0, y0)[k].1 < y0 + Chunk
  {
    var ps := ChunkPoints(x0, y0);
    ColumnsLength(x0, y0, 10);
    ColumnsInside(x0, y0, 10);
    assert forall k :: 0 <= k < 100 ==> ps[k] in ps;
  }

  /** The arrow `10 * i + j` of a chunk is the grid point `(x0 + 5 * i, y0 + 5 * j)`. */
  lemma ChunkPointsGrid(x0: int, y0: int)
    ensures |ChunkPoints(x0, y0)| == 100
    ensures forall i, j :: 0 <= i < 10 && 0 <= j < 10 ==>
      ChunkPoints(x0, y0)[10 * i + j] == (x0 + Spacing * i, y0 + Spacing * j)
  {
    ColumnsLength(x0, y0, 10);
    forall i, j | 0 <= i < 10 && 0 <= j < 10
      ensures ChunkPoints(x0, y0)[10 * i + j] == (x0 + Spacing * i, y0 + Spacing * j)
    {
      ColumnsGrid(x0, y0, 10, i, j);
    }
  }

  /** The inner loop of `drawVectorField`: the points of one column of a chunk. */
  method DrawColumn(x: int, y0: int, hasField: bool) returns (arrows: seq<(int, int)>)
    ensures arrows == if hasField then Column(x, y0, 10) else []
  {
    arrows := [];
    var y := y0;
    ghost var j: nat := 0;
    while y < y0 + Chunk
      invariant j <= 10 && y == y0 + Spacing * j
      invariant arrows == if hasField then Column(x, y0, j) else []
    {
      if hasField {
        assert Column(x, y0, j + 1) == Column(x, y0, j) + [(x, y)];
        arrows := arrows + [(x, y)];
      }
      y := y + Spacing;
      j := j + 1;
    }
  }

  /** The two loops of `drawVectorField`: the points of the chunk at `(x0, y0)`, column by column. */
  method DrawChunk(x0: int, y0: int, hasField: bool) returns (arrows: seq<(int, int)>)
    ensures arrows == if hasField then ChunkPoints(x0, y0) else []
  {
    arrows := [];
    var x := x0;
    ghost var i: nat := 0;
    while x < x0 + Chunk
      invariant i <= 10 && x == x0 + Spacing * i
      invariant arrows == if hasField then Columns(x0, y0, i) else []
    {
      var column := DrawColumn(x, y0, hasField);
      ColumnsNext(x0, y0, i);
      arrows := arrows + column;
      x := x + Spacing;
      i := i + 1;
    }
  }

  /** The drawing state of viz.js. */
  class Scanner {
    var xStart: int
    var yStart: int
    var vectorDone: bool

    constructor ()
      ensures Cursor(xStart, yStart, vectorDone) == Start
    {
      xStart, yStart, vectorDone := 0, 0, false;
    }

    /**
     * `drawVectorField()`: returns at once when the scan is finished;
     * otherwise moves to the next row at the end of one, marks the scan
     * finished once past the bottom, visits the chunk's points (drawing an
     * arrow at each when there is a field) and advances `xStart`.  The
     * result is the points arrows are drawn at.
     */
    method DrawVectorField(width: int, height: int, hasField: bool) returns (arrows: seq<(int, int)>)
      modifies this
      ensures Cursor(xStart, yStart, vectorDone) == Step(old(Cursor(xStart, yStart, vectorDone)), width, height)
      ensures old(vectorDone) || !hasField ==> arrows == []
      ensures !old(vectorDone) && hasField ==>
        var (x0, y0) := ChunkOrigin(old(Cursor(xStart, yStart, vectorDone)), width);
        arrows == ChunkPoints(x0, y0)
    {
      arrows := [];
      if vectorDone {
        return;
      }
      if xStart >= width {
        xStart := 0;
        yStart := yStart + Chunk;
      } else if yStart >= height {
        vectorDone := true;
      }
      assert (xStart, yStart) == ChunkOrigin(old(Cursor(xStart, yStart, vectorDone)), width);
      arrows := DrawChunk(xStart, yStart, hasField);
      xStart := xStart + Chunk;
    }
  }
}
