/**
 * The background grid: one vertical line per multiple of the cell size
 * across the map, then one horizontal line per multiple down it, each
 * spanning the whole map.
 */
module Grid {
  import World

  /** A line segment from (x1, y1) to (x2, y2), in world coordinates. */
  datatype Line = Line(x1: int, y1: int, x2: int, y2: int)

  /** Lines per direction: indices 0 to MapWidth / GridSize inclusive (91). */
  const LinesPerAxis: nat := World.MapWidth / World.GridSize + 1

  /** The k-th line added to the grid layer: vertical lines first, then horizontal ones. */
  function GridLine(k: nat): Line
    requires k < 2 * LinesPerAxis
  {
    if k < LinesPerAxis then
      Line(k * World.GridSize, 0, k * World.GridSize, World.MapHeight)
    else
      var j := k - LinesPerAxis;
      Line(0, j * World.GridSize, World.MapWidth, j * World.GridSize)
  }

  /** The two counting loops that fill the grid layer. */
  method BuildGrid() returns (lines: seq<Line>)
    ensures |lines| == 2 * LinesPerAxis == 182
    ensures forall k :: 0 <= k < |lines| ==> lines[k] == GridLine(k)
    ensures lines[0].x1 == 0 && lines[LinesPerAxis - 1].x1 == World.MapWidth
    ensures lines[LinesPerAxis].y1 == 0 && lines[|lines| - 1].y1 == World.MapHeight
    ensures forall i :: 0 <= i < LinesPerAxis ==>
              lines[i] == Line(i * World.GridSize, 0, i * World.GridSize, World.MapHeight)
    ensures forall k :: LinesPerAxis <= k < |lines| ==>
              lines[k] == Line(0, (k - LinesPerAxis) * World.GridSize,
                               World.MapWidth, (k - LinesPerAxis) * World.GridSize)
  {
    lines := [];
    var i := 0;
    while i <= World.MapWidth / World.GridSize
      invariant 0 <= i <= LinesPerAxis
      invariant |lines| == i
      invariant forall k :: 0 <= k < i ==> lines[k] == GridLine(k)
    {
      lines := lines + [Line(i * World.GridSize, 0, i * World.GridSize, World.MapHeight)];
      i := i + 1;
    }
    var j := 0;
    while j <= World.MapHeight / World.GridSize
      invariant 0 <= j <= LinesPerAxis
      invariant |lines| == LinesPerAxis + j
      invariant forall k :: 0 <= k < |lines| ==> lines[k] == GridLine(k)
    {
      lines := lines + [Line(0, j * World.GridSize, World.MapWidth, j * World.GridSize)];
      j := j + 1;
    }
  }

  /** Every grid line lies on the map and spans it from edge to edge. */
  lemma GridLineSpansMap(k: nat)
    requires k < 2 * LinesPerAxis
    ensures var l := GridLine(k);
            0 <= l.x1 <= World.MapWidth && 0 <= l.x2 <= World.MapWidth &&
            0 <= l.y1 <= World.MapHeight && 0 <= l.y2 <= World.MapHeight
    ensures var l := GridLine(k);
            (l.x1 == l.x2 && l.y1 == 0 && l.y2 == World.MapHeight) ||
            (l.y1 == l.y2 && l.x1 == 0 && l.x2 == World.MapWidth)
  {
  }

  /** No line is added twice. */
  lemma GridLinesDistinct(k1: nat, k2: nat)
    requires k1 < 2 * LinesPerAxis && k2 < 2 * LinesPerAxis
    requires k1 != k2
    ensures GridLine(k1) != GridLine(k2)
  {
  }
}
