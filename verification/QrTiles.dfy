/** Cutting a large image into overlapping tiles (fullResTiles in
    vair/core/qr_decode.go). A rectangle is half open, as Go's are. */
module QrTiles {

  const QR_TILE := 1600
  const QR_TILE_STEP := 1200

  datatype Rect = Rect(x0: int, y0: int, x1: int, y1: int)

  predicate Within(r: Rect, s: Rect) {
    s.x0 <= r.x0 && r.x1 <= s.x1 && s.y0 <= r.y0 && r.y1 <= s.y1
  }

  function Max(a: int, b: int): int { if a > b then a else b }
  function Min(a: int, b: int): int { if a < b then a else b }

  /** Rectangle.Intersect: an empty overlap is the zero rectangle. */
  function Intersect(r: Rect, s: Rect): Rect {
    var t := Rect(Max(r.x0, s.x0), Max(r.y0, s.y0), Min(r.x1, s.x1), Min(r.y1, s.y1));
    if t.x0 >= t.x1 || t.y0 >= t.y1 then Rect(0, 0, 0, 0) else t
  }

  /** Where the tiles of one axis start: every step, and once flush with the
      end. */
  predicate TilesAxis(starts: seq<int>, lo: int, hi: int) {
    && |starts| > 0 && starts[0] == lo
    && (hi - lo <= 1600 ==> |starts| == 1)
    && (forall i :: 0 < i < |starts| ==> starts[i - 1] < starts[i] <= starts[i - 1] + 1200)
    && (hi - lo > 1600 ==> starts[|starts| - 1] == hi - 1600)
  }

  method Starts(lo: int, hi: int) returns (out: seq<int>)
    ensures TilesAxis(out, lo, hi)
    ensures forall i :: 0 <= i < |out| - 1 ==> out[i] == lo + i * 1200
  {
    if hi - lo <= QR_TILE { return [lo]; }
    out := [];
    var p := lo;
    while p + QR_TILE < hi
      invariant p == lo + |out| * QR_TILE_STEP
      invariant forall i :: 0 <= i < |out| ==> out[i] == lo + i * QR_TILE_STEP
      invariant out == [] || p - QR_TILE_STEP + QR_TILE < hi
      decreases hi - p
    {
      out := out + [p];
      p := p + QR_TILE_STEP;
    }
    out := out + [hi - QR_TILE];
  }

  lemma {:induction false} LastStartBefore(starts: seq<int>, lo: int, hi: int, a: int, k: nat) returns (n: nat)
    requires TilesAxis(starts, lo, hi) && k < |starts| && starts[k] <= a
    ensures n < |starts| && starts[n] <= a
    ensures n + 1 < |starts| ==> a < starts[n + 1]
    decreases |starts| - k
  {
    if k + 1 < |starts| && starts[k + 1] <= a {
      n := LastStartBefore(starts, lo, hi, a, k + 1);
    } else {
      n := k;
    }
  }

  /** A stretch of at most 401 pixels lies whole in the tile of the last start
      before it. */
  lemma StretchInTile(starts: seq<int>, lo: int, hi: int, a: int, side: nat) returns (i: nat)
    requires TilesAxis(starts, lo, hi)
    requires side <= QR_TILE - QR_TILE_STEP + 1 && lo <= a && a + side <= hi
    ensures i < |starts| && starts[i] <= a && a + side <= starts[i] + QR_TILE
  {
    i := LastStartBefore(starts, lo, hi, a, 0);
  }

  function Tile(b: Rect, x: int, y: int): Rect {
    Intersect(Rect(x, y, x + QR_TILE, y + QR_TILE), b)
  }

  /** Row by row, every start across with every start down. */
  predicate Grid(tiles: seq<Rect>, b: Rect, xs: seq<int>, ys: seq<int>) {
    && (forall x, y :: x in xs && y in ys ==> Tile(b, x, y) in tiles)
    && (forall t :: t in tiles ==> exists x, y :: x in xs && y in ys && t == Tile(b, x, y))
  }

  /** What fullResTiles makes of an image. */
  ghost predicate TilesOf(b: Rect, tiles: seq<Rect>, xs: seq<int>, ys: seq<int>) {
    && TilesAxis(xs, b.x0, b.x1) && TilesAxis(ys, b.y0, b.y1) && Grid(tiles, b, xs, ys)
    && (forall i :: 0 <= i < |xs| - 1 ==> xs[i] == b.x0 + i * QR_TILE_STEP)
    && (forall i :: 0 <= i < |ys| - 1 ==> ys[i] == b.y0 + i * QR_TILE_STEP)
  }

  method FullResTiles(b: Rect) returns (tiles: seq<Rect>, xs: seq<int>, ys: seq<int>)
    ensures TilesOf(b, tiles, xs, ys)
  {
    xs := Starts(b.x0, b.x1);
    ys := Starts(b.y0, b.y1);
    hide Tile;
    tiles := [];
    for j := 0 to |ys|
      invariant Grid(tiles, b, xs, ys[..j])
    {
      var row := Row(b, xs, ys[j]);
      tiles := tiles + row;
      assert ys[..j + 1] == ys[..j] + [ys[j]];
    }
    assert ys[..|ys|] == ys;
  }

  method Row(b: Rect, xs: seq<int>, y: int) returns (row: seq<Rect>)
    ensures Grid(row, b, xs, [y])
  {
    hide Tile;
    row := [];
    for i := 0 to |xs|
      invariant Grid(row, b, xs[..i], [y])
    {
      row := row + [Tile(b, xs[i], y)];
      assert xs[..i + 1] == xs[..i] + [xs[i]];
    }
    assert xs[..|xs|] == xs;
  }

  /** Every square of side at most 401 inside the image lies whole in one tile:
      the overlap is 400 pixels and the pixels are whole. With side 1 this says
      that the tiles cover the image. */
  lemma SquareInOneTile(tiles: seq<Rect>, b: Rect, xs: seq<int>, ys: seq<int>, x: int, y: int, side: nat)
    returns (t: Rect)
    requires TilesAxis(xs, b.x0, b.x1) && TilesAxis(ys, b.y0, b.y1) && Grid(tiles, b, xs, ys)
    requires 1 <= side <= 401
    requires Within(Rect(x, y, x + side, y + side), b)
    ensures t in tiles && Within(Rect(x, y, x + side, y + side), t)
  {
    var i := StretchInTile(xs, b.x0, b.x1, x, side);
    var j := StretchInTile(ys, b.y0, b.y1, y, side);
    assert xs[i] in xs && ys[j] in ys;
    t := Tile(b, xs[i], ys[j]);
  }

  /** Every start of an axis is a pixel of it. */
  lemma {:induction false} StartOnAxis(starts: seq<int>, lo: int, hi: int, i: nat)
    requires TilesAxis(starts, lo, hi) && lo < hi && i < |starts|
    ensures lo <= starts[i] < hi
    decreases |starts| - i
  {
    StartsRise(starts, lo, hi, i);
    if i == |starts| - 1 {
    } else {
      StartOnAxis(starts, lo, hi, i + 1);
    }
  }

  lemma {:induction false} StartsRise(starts: seq<int>, lo: int, hi: int, i: nat)
    requires TilesAxis(starts, lo, hi) && i < |starts|
    ensures lo <= starts[i]
  {
    if i == 0 {
    } else {
      StartsRise(starts, lo, hi, i - 1);
    }
  }

  /** Of an image without a pixel there is only the zero rectangle. */
  lemma NothingToCut(tiles: seq<Rect>, b: Rect, xs: seq<int>, ys: seq<int>, t: Rect)
    requires Grid(tiles, b, xs, ys) && (b.x0 >= b.x1 || b.y0 >= b.y1) && t in tiles
    ensures t == Rect(0, 0, 0, 0)
  {
    var x, y :| x in xs && y in ys && t == Tile(b, x, y);
  }

  /** Every tile of an image lies inside it, holds a pixel, and is no larger than
      a tile may be. */
  lemma TilesStayInside(tiles: seq<Rect>, b: Rect, xs: seq<int>, ys: seq<int>, t: Rect)
    requires TilesAxis(xs, b.x0, b.x1) && TilesAxis(ys, b.y0, b.y1) && Grid(tiles, b, xs, ys)
    requires b.x0 < b.x1 && b.y0 < b.y1 && t in tiles
    ensures Within(t, b) && 0 < t.x1 - t.x0 <= 1600 && 0 < t.y1 - t.y0 <= 1600
  {
    var x, y :| x in xs && y in ys && t == Tile(b, x, y);
    var i :| 0 <= i < |xs| && xs[i] == x;
    var j :| 0 <= j < |ys| && ys[j] == y;
    StartOnAxis(xs, b.x0, b.x1, i);
    StartOnAxis(ys, b.y0, b.y1, j);
  }

  /** 401 is the most that can be promised: for every larger side there is an
      image and a square inside it that no tile holds whole. */
  lemma LargerSquaresMayBeCut(side: nat, tiles: seq<Rect>, xs: seq<int>, ys: seq<int>) returns (b: Rect, square: Rect)
    requires side > 401
    ensures b.x0 < b.x1 && b.y0 < b.y1 && Within(square, b)
    ensures square.x1 - square.x0 == square.y1 - square.y0 == side
    ensures TilesOf(b, tiles, xs, ys) ==> forall t :: t in tiles ==> !Within(square, t)
  {
    b := Rect(0, 0, 2800 + side, side);
    square := Rect(1199, 0, 1199 + side, side);
    if TilesOf(b, tiles, xs, ys) {
      forall t | t in tiles ensures !Within(square, t) {
        var x, y :| x in xs && y in ys && t == Tile(b, x, y);
        var i :| 0 <= i < |xs| && xs[i] == x;
        if i > 0 && i < |xs| - 1 { assert x >= QR_TILE_STEP; }
      }
    }
  }
}
