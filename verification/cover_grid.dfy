/**
 * The composite playlist cover: up to four cover images drawn as 128-pixel
 * quadrants of a 256-pixel square canvas, left to right and top to bottom.
 * Image loading and drawing are not modelled; only where each image goes.
 */
module CoverGrid {

  const CanvasSize := 256
  const QuadrantSize := 128
  const MaxQuadrants := 4

  datatype Tile = Tile(source: string, x: int, y: int, size: int)

  /** The square a tile covers contains the pixel `(px, py)`. */
  predicate Covers(t: Tile, px: int, py: int) {
    t.x <= px < t.x + t.size && t.y <= py < t.y + t.size
  }

  /** The top-left corner of quadrant `i`: column `i % 2`, row `floor(i / 2)`. */
  function Corner(i: nat): (int, int) {
    ((i % 2) * QuadrantSize, (i / 2) * QuadrantSize)
  }

  /** The draw calls of `createCompositeImage`: the first `min(4, n)` urls, one per quadrant. */
  function Layout(urls: seq<string>): (tiles: seq<Tile>)
    ensures |tiles| == if |urls| < MaxQuadrants then |urls| else MaxQuadrants
    ensures forall i :: 0 <= i < |tiles| ==>
      tiles[i].source == urls[i] && tiles[i].size == QuadrantSize
      && (tiles[i].x, tiles[i].y) == Corner(i)
      && 0 <= tiles[i].x && tiles[i].x + tiles[i].size <= CanvasSize
      && 0 <= tiles[i].y && tiles[i].y + tiles[i].size <= CanvasSize
  {
    var count := if |urls| < MaxQuadrants then |urls| else MaxQuadrants;
    seq(count, i requires 0 <= i < count => Tile(urls[i], (i % 2) * QuadrantSize, (i / 2) * QuadrantSize, QuadrantSize))
  }

  /** No two images are drawn over each other. */
  lemma LayoutTilesDisjoint(urls: seq<string>, i: nat, j: nat, px: int, py: int)
    requires i < j < |Layout(urls)|
    ensures !(Covers(Layout(urls)[i], px, py) && Covers(Layout(urls)[j], px, py))
  {
    var tiles := Layout(urls);
    assert (tiles[i].x, tiles[i].y) != (tiles[j].x, tiles[j].y) by {
      assert i % 2 != j % 2 || i / 2 != j / 2;
    }
  }

  /** With four or more urls, every canvas pixel is covered by exactly one image. */
  lemma FullLayoutCoversCanvas(urls: seq<string>, px: int, py: int)
    requires |urls| >= MaxQuadrants
    requires 0 <= px < CanvasSize && 0 <= py < CanvasSize
    ensures exists i :: 0 <= i < |Layout(urls)| && Covers(Layout(urls)[i], px, py)
  {
    var tiles := Layout(urls);
    var i := (if px < QuadrantSize then 0 else 1) + (if py < QuadrantSize then 0 else 2);
    assert Covers(tiles[i], px, py);
  }
}
