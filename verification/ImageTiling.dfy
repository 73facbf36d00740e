/** Cutting an image into tiles (`tile_bounds` in scripts/tile_gray_yolo26_xml.py). */
module ImageTiling {
  import opened Counting

  datatype Tile = Tile(row: nat, col: nat, left: nat, top: nat, right: nat, bottom: nat)

  predicate Covers(t: Tile, x: nat, y: nat) {
    t.left <= x < t.right && t.top <= y < t.bottom
  }

  /** The least step with which `parts` steps reach `n`. */
  function CeilDiv(n: nat, parts: nat): (r: nat)
    requires parts >= 1
    ensures r * parts >= n && (r > 0 ==> (r - 1) * parts < n)
  {
    var r := (n + parts - 1) / parts;
    assert r * parts <= n + parts - 1 < r * parts + parts;
    assert r > 0 ==> (r - 1) * parts == r * parts - parts;
    r
  }

  function Min(a: nat, b: nat): nat {
    if a <= b then a else b
  }

  /** Where the `i`-th step ends. */
  function EndOf(i: nat, step: nat, n: nat): nat {
    Min((i + 1) * step, n)
  }

  /** The place `x` lies in step `i`. */
  predicate InStep(x: nat, i: nat, step: nat, n: nat) {
    i * step <= x < EndOf(i, step, n)
  }

  lemma StepOf(x: nat, n: nat, parts: nat) returns (i: nat)
    requires parts >= 1 && x < n
    ensures i < parts && InStep(x, i, CeilDiv(n, parts), n)
  {
    var step := CeilDiv(n, parts);
    if step == 0 {
      assert false;
    }
    i := x / step;
    assert i * step <= x < i * step + step;
    assert (i + 1) * step == i * step + step;
    if i >= parts {
      Times(parts, i, step);
      assert false;
    }
  }

  lemma OneStep(x: nat, i: nat, j: nat, step: nat, n: nat)
    requires InStep(x, i, step, n) && InStep(x, j, step, n)
    ensures i == j
  {
    if i < j {
      Times(i + 1, j, step);
    } else if j < i {
      Times(j + 1, i, step);
    }
  }

  /** The tile in one row and column of the grid, which may be empty. */
  function TileAt(row: nat, col: nat, width: nat, height: nat, rows: nat, cols: nat): Tile
    requires rows >= 1 && cols >= 1
  {
    var w, h := CeilDiv(width, cols), CeilDiv(height, rows);
    Tile(row, col, col * w, row * h, EndOf(col, w, width), EndOf(row, h, height))
  }

  predicate NonEmpty(t: Tile) {
    t.left < t.right && t.top < t.bottom
  }

  predicate Before(s: Tile, t: Tile) {
    s.row < t.row || (s.row == t.row && s.col < t.col)
  }

  /** Grid cells row by row, none twice. */
  ghost predicate InOrder(tiles: seq<Tile>) {
    forall k, l :: 0 <= k < l < |tiles| ==> Before(tiles[k], tiles[l])
  }

  ghost predicate OnGrid(tiles: seq<Tile>, width: nat, height: nat, rows: nat, cols: nat)
    requires rows >= 1 && cols >= 1
  {
    forall t :: t in tiles ==>
      NonEmpty(t) && t.row < rows && t.col < cols && t == TileAt(t.row, t.col, width, height, rows, cols)
  }

  ghost predicate AllUpTo(tiles: seq<Tile>, row: nat, col: nat, width: nat, height: nat, rows: nat, cols: nat)
    requires rows >= 1 && cols >= 1
  {
    forall r: nat, c: nat {:trigger TileAt(r, c, width, height, rows, cols)} ::
      (r < row && c < cols) || (r == row && c < col) ==>
        var t := TileAt(r, c, width, height, rows, cols);
        NonEmpty(t) ==> t in tiles
  }

  ghost predicate Covered(tiles: seq<Tile>, x: nat, y: nat) {
    exists t :: t in tiles && Covers(t, x, y)
  }

  /** The tiles cover every pixel of the image exactly once, and nothing outside it. */
  ghost predicate ExactTiling(tiles: seq<Tile>, width: nat, height: nat) {
    && (forall k :: 0 <= k < |tiles| ==>
          NonEmpty(tiles[k]) && tiles[k].right <= width && tiles[k].bottom <= height)
    && (forall x: nat, y: nat :: x < width && y < height ==> Covered(tiles, x, y))
    && (forall k, l, x: nat, y: nat :: 0 <= k < l < |tiles| ==> !(Covers(tiles[k], x, y) && Covers(tiles[l], x, y)))
  }

  lemma EveryPixelCovered(tiles: seq<Tile>, x: nat, y: nat, width: nat, height: nat, rows: nat, cols: nat)
    requires rows >= 1 && cols >= 1 && AllUpTo(tiles, rows, 0, width, height, rows, cols)
    requires x < width && y < height
    ensures Covered(tiles, x, y)
  {
    var c := StepOf(x, width, cols);
    var r := StepOf(y, height, rows);
    assert Covers(TileAt(r, c, width, height, rows, cols), x, y);
  }

  lemma NoPixelTwice(s: Tile, t: Tile, x: nat, y: nat, width: nat, height: nat, rows: nat, cols: nat)
    requires rows >= 1 && cols >= 1 && Before(s, t)
    requires s == TileAt(s.row, s.col, width, height, rows, cols)
    requires t == TileAt(t.row, t.col, width, height, rows, cols)
    ensures !(Covers(s, x, y) && Covers(t, x, y))
  {
    if Covers(s, x, y) && Covers(t, x, y) {
      OneStep(x, s.col, t.col, CeilDiv(width, cols), width);
      OneStep(y, s.row, t.row, CeilDiv(height, rows), height);
      assert false;
    }
  }

  lemma GridTilesExactly(tiles: seq<Tile>, width: nat, height: nat, rows: nat, cols: nat)
    requires rows >= 1 && cols >= 1
    requires OnGrid(tiles, width, height, rows, cols) && InOrder(tiles)
    requires AllUpTo(tiles, rows, 0, width, height, rows, cols)
    ensures ExactTiling(tiles, width, height)
  {
    forall x: nat, y: nat | x < width && y < height
      ensures Covered(tiles, x, y)
    {
      EveryPixelCovered(tiles, x, y, width, height, rows, cols);
    }
    forall k, l, x: nat, y: nat | 0 <= k < l < |tiles|
      ensures !(Covers(tiles[k], x, y) && Covers(tiles[l], x, y))
    {
      assert tiles[k] in tiles && tiles[l] in tiles;
      NoPixelTwice(tiles[k], tiles[l], x, y, width, height, rows, cols);
    }
    forall k | 0 <= k < |tiles|
      ensures NonEmpty(tiles[k]) && tiles[k].right <= width && tiles[k].bottom <= height
    {
      assert tiles[k] in tiles;
    }
  }

  /** The least step with which `parts` steps reach `n`. */
  predicate IsStep(step: nat, n: nat, parts: nat) {
    step * parts >= n && (step > 0 ==> (step - 1) * parts < n)
  }

  /** Each tile starts at its column's and row's multiple of the steps and is one step wide
      and high, but for the last ones, which end with the image. */
  ghost predicate Regular(tiles: seq<Tile>, w: nat, h: nat, width: nat, height: nat) {
    forall k :: 0 <= k < |tiles| ==>
      var t := tiles[k];
      && t.left == t.col * w && (t.right == t.left + w || (t.right == width && width < t.left + w))
      && t.top == t.row * h && (t.bottom == t.top + h || (t.bottom == height && height < t.top + h))
  }

  lemma GridIsRegular(tiles: seq<Tile>, width: nat, height: nat, rows: nat, cols: nat)
    requires rows >= 1 && cols >= 1 && OnGrid(tiles, width, height, rows, cols)
    ensures IsStep(CeilDiv(width, cols), width, cols) && IsStep(CeilDiv(height, rows), height, rows)
    ensures Regular(tiles, CeilDiv(width, cols), CeilDiv(height, rows), width, height)
  {
    var w, h := CeilDiv(width, cols), CeilDiv(height, rows);
    forall k | 0 <= k < |tiles|
      ensures var t := tiles[k];
              && t.left == t.col * w && (t.right == t.left + w || (t.right == width && width < t.left + w))
              && t.top == t.row * h && (t.bottom == t.top + h || (t.bottom == height && height < t.top + h))
    {
      assert tiles[k] in tiles;
      assert (tiles[k].col + 1) * w == tiles[k].col * w + w;
      assert (tiles[k].row + 1) * h == tiles[k].row * h + h;
    }
  }

  method TileBounds(width: nat, height: nat, rows: nat, cols: nat) returns (tiles: seq<Tile>)
    requires rows >= 1 && cols >= 1
    ensures ExactTiling(tiles, width, height)
    ensures exists w, h :: IsStep(w, width, cols) && IsStep(h, height, rows) && Regular(tiles, w, h, width, height)
    ensures InOrder(tiles) && OnGrid(tiles, width, height, rows, cols)
  {
    tiles := [];
    var tileW, tileH := CeilDiv(width, cols), CeilDiv(height, rows);
    for row := 0 to rows
      invariant OnGrid(tiles, width, height, rows, cols) && InOrder(tiles)
      invariant forall t :: t in tiles ==> t.row < row
      invariant AllUpTo(tiles, row, 0, width, height, rows, cols)
    {
      var top, bottom := row * tileH, Min((row + 1) * tileH, height);
      if top >= bottom {
        continue;
      }
      for col := 0 to cols
        invariant OnGrid(tiles, width, height, rows, cols) && InOrder(tiles)
        invariant forall t :: t in tiles ==> t.row < row || (t.row == row && t.col < col)
        invariant AllUpTo(tiles, row, col, width, height, rows, cols)
      {
        var left, right := col * tileW, Min((col + 1) * tileW, width);
        if left >= right {
          continue;
        }
        tiles := tiles + [Tile(row, col, left, top, right, bottom)];
      }
    }
    GridTilesExactly(tiles, width, height, rows, cols);
    GridIsRegular(tiles, width, height, rows, cols);
  }
}
