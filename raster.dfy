/** Pixels, the 64x64 tile schedule that both revisions' Render use, tile
    compositing (draw.Draw with the Src operator) and the banner overlay.
    An image is an array2 indexed [x, y]; a tile image whose bounds start at
    (minX, minY) holds pixel (minX + u, minY + v) at [u, v]. */
module Raster {

  type Byte = n: int | 0 <= n < 256

  datatype RGBA = RGBA(r: Byte, g: Byte, b: Byte, a: Byte)

  /** Go's zero color.RGBA, the colour of a fresh image.NewRGBA pixel. */
  const Transparent := RGBA(0, 0, 0, 0)

  /** image.Rectangle: Min is inclusive, Max exclusive. */
  datatype Rect = Rect(minX: int, minY: int, maxX: int, maxY: int)

  predicate InRect(r: Rect, x: int, y: int)
  {
    r.minX <= x < r.maxX && r.minY <= y < r.maxY
  }

  const TileSize: nat := 64

  /** Number of tiles along a side of n pixels: ceiling division. */
  function TileCount(n: nat): (c: nat)
    ensures c * TileSize >= n
    ensures c > 0 ==> (c - 1) * TileSize < n
  {
    (n + TileSize - 1) / TileSize
  }

  /** The tile with column i and row j. */
  function Tile(i: nat, j: nat): (t: Rect)
    ensures t.maxX - t.minX == TileSize && t.maxY - t.minY == TileSize
    ensures t.minX >= 0 && t.minY >= 0
  {
    Rect(TileSize * i, TileSize * j, TileSize * i + TileSize, TileSize * j + TileSize)
  }

  /** The tiles of column i, rows 0 .. ny-1, in the order they are sent. */
  function Column(i: nat, ny: nat): seq<Rect>
  {
    if ny == 0 then [] else Column(i, ny - 1) + [Tile(i, ny - 1)]
  }

  /** The tiles of columns 0 .. nx-1, column by column: the producer loop's order. */
  function Tiles(nx: nat, ny: nat): seq<Rect>
  {
    if nx == 0 then [] else Tiles(nx - 1, ny) + Column(nx - 1, ny)
  }

  /** The tiles sent for a width x height frame. */
  function Schedule(width: nat, height: nat): seq<Rect>
  {
    Tiles(TileCount(width), TileCount(height))
  }

  lemma {:induction false} ColumnMembers(i: nat, ny: nat, t: Rect)
    ensures t in Column(i, ny) <==> exists j :: 0 <= j < ny && t == Tile(i, j)
  {
    if ny > 0 {
      ColumnMembers(i, ny - 1, t);
    }
  }

  /** The schedule holds exactly the tiles (i, j) with i < nx and j < ny. */
  lemma {:induction false} TilesMembers(nx: nat, ny: nat, t: Rect)
    ensures t in Tiles(nx, ny) <==> exists i, j :: 0 <= i < nx && 0 <= j < ny && t == Tile(i, j)
  {
    if nx > 0 {
      var prev, col := Tiles(nx - 1, ny), Column(nx - 1, ny);
      TilesMembers(nx - 1, ny, t);
      ColumnMembers(nx - 1, ny, t);
      calc {
        t in Tiles(nx, ny);
        t in prev + col;
        t in prev || t in col;
      }
      if t in col {
        var j :| 0 <= j < ny && t == Tile(nx - 1, j);
        assert 0 <= nx - 1 < nx && 0 <= j < ny && t == Tile(nx - 1, j);
      }
      if exists i, j :: 0 <= i < nx && 0 <= j < ny && t == Tile(i, j) {
        var i, j :| 0 <= i < nx && 0 <= j < ny && t == Tile(i, j);
        if i == nx - 1 {
          assert t in col;
        } else {
          assert t in prev;
        }
      }
    }
  }

  /** The schedule has one entry per tile. */
  lemma {:induction false} TilesLength(nx: nat, ny: nat)
    ensures |Tiles(nx, ny)| == nx * ny
  {
    if nx > 0 {
      TilesLength(nx - 1, ny);
      ColumnLength(nx - 1, ny);
    }
  }

  lemma {:induction false} ColumnLength(i: nat, ny: nat)
    ensures |Column(i, ny)| == ny
  {
    if ny > 0 {
      ColumnLength(i, ny - 1);
    }
  }

  /** Strict column-major order of tile origins. */
  predicate Precedes(s: Rect, t: Rect)
  {
    s.minX < t.minX || (s.minX == t.minX && s.minY < t.minY)
  }

  lemma {:induction false} ColumnOrdered(i: nat, ny: nat)
    ensures forall k :: 0 <= k < |Column(i, ny)| ==>
              Column(i, ny)[k].minX == TileSize * i && Column(i, ny)[k].minY < TileSize * ny
    ensures forall k, l :: 0 <= k < l < |Column(i, ny)| ==> Precedes(Column(i, ny)[k], Column(i, ny)[l])
  {
    if ny > 0 {
      ColumnOrdered(i, ny - 1);
    }
  }

  /** The schedule is strictly ordered, so no tile is sent twice. */
  lemma {:induction false} TilesOrdered(nx: nat, ny: nat)
    ensures forall k :: 0 <= k < |Tiles(nx, ny)| ==> Tiles(nx, ny)[k].minX < TileSize * nx
    ensures forall k, l :: 0 <= k < l < |Tiles(nx, ny)| ==> Precedes(Tiles(nx, ny)[k], Tiles(nx, ny)[l])
  {
    if nx > 0 {
      TilesOrdered(nx - 1, ny);
      ColumnOrdered(nx - 1, ny);
    }
  }

  /** A pixel lies in tile (i, j) exactly when i and j are its coordinates
      divided by the tile size; so two different tiles never share a pixel. */
  lemma {:induction false} TileOwner(i: nat, j: nat, x: int, y: int)
    ensures InRect(Tile(i, j), x, y) <==> x >= 0 && y >= 0 && i == x / TileSize && j == y / TileSize
  {
  }

  /** Distinct tiles are disjoint. */
  lemma {:induction false} TilesDisjoint(i: nat, j: nat, k: nat, l: nat, x: int, y: int)
    requires InRect(Tile(i, j), x, y) && InRect(Tile(k, l), x, y)
    ensures i == k && j == l
  {
    TileOwner(i, j, x, y);
    TileOwner(k, l, x, y);
  }

  /** Every pixel of a width x height frame lies in a scheduled tile, and in
      no other tile. */
  lemma {:induction false} ScheduleCovers(width: nat, height: nat, x: int, y: int)
    requires 0 <= x < width && 0 <= y < height
    ensures Tile(x / TileSize, y / TileSize) in Schedule(width, height)
    ensures forall t :: t in Schedule(width, height) && InRect(t, x, y) ==> t == Tile(x / TileSize, y / TileSize)
  {
    var nx, ny := TileCount(width), TileCount(height);
    TilesMembers(nx, ny, Tile(x / TileSize, y / TileSize));
    forall t | t in Schedule(width, height) && InRect(t, x, y)
      ensures t == Tile(x / TileSize, y / TileSize)
    {
      TilesMembers(nx, ny, t);
      var i, j :| 0 <= i < nx && 0 <= j < ny && t == Tile(i, j);
      TileOwner(i, j, x, y);
    }
  }

  /** Some tile of ts covers (x, y). */
  predicate Covered(ts: seq<Rect>, x: int, y: int)
  {
    exists k :: 0 <= k < |ts| && InRect(ts[k], x, y)
  }

  /** Tiles arriving in any order that hold every scheduled tile cover the frame. */
  lemma {:induction false} ArrivalsCover(arrivals: seq<Rect>, width: nat, height: nat, x: int, y: int)
    requires forall t :: t in Schedule(width, height) ==> t in arrivals
    requires 0 <= x < width && 0 <= y < height
    ensures Covered(arrivals, x, y)
  {
    ScheduleCovers(width, height, x, y);
    var t := Tile(x / TileSize, y / TileSize);
    var k :| 0 <= k < |arrivals| && arrivals[k] == t;
    TileOwner(x / TileSize, y / TileSize, x, y);
  }

  /** draw.Draw(dst, r, src, r.Min, draw.Src): copy the tile into the frame,
      clipped to the frame's bounds. */
  method Draw(dst: array2<RGBA>, src: array2<RGBA>, r: Rect)
    requires dst != src
    requires r.minX >= 0 && r.minY >= 0
    requires src.Length0 == r.maxX - r.minX && src.Length1 == r.maxY - r.minY
    modifies dst
    ensures forall x, y :: 0 <= x < dst.Length0 && 0 <= y < dst.Length1 ==>
              dst[x, y] == if InRect(r, x, y) then src[x - r.minX, y - r.minY] else old(dst[x, y])
  {
    var x := r.minX;
    while x < r.maxX && x < dst.Length0
      invariant r.minX <= x
      invariant forall p, q :: 0 <= p < dst.Length0 && 0 <= q < dst.Length1 ==>
                  dst[p, q] == if InRect(r, p, q) && p < x then src[p - r.minX, q - r.minY] else old(dst[p, q])
    {
      var y := r.minY;
      while y < r.maxY && y < dst.Length1
        invariant r.minY <= y
        invariant forall p, q :: 0 <= p < dst.Length0 && 0 <= q < dst.Length1 ==>
                    dst[p, q] == if InRect(r, p, q) && (p < x || (p == x && q < y))
                                 then src[p - r.minX, q - r.minY] else old(dst[p, q])
      {
        dst[x, y] := src[x - r.minX, y - r.minY];
        y := y + 1;
      }
      x := x + 1;
    }
  }

  // ----- the banner overlay -----

  /** The banner's dot mask, 4 rows of 27 columns; 'o' marks a pixel. */
  const Mask: seq<string> := [
    "oo.oo.oooo.o....ooo.ooo.ooo",
    "o.o.o.o..o.o...o.....o..o..",
    "o...o.o..o.o...o.oo..o..oo.",
    "o...o.oooo.ooo..ooo.ooo.o.."]

  const BannerGrey := RGBA(200, 200, 200, 255)

  /** Pixel (x, y) of a width x height image is a banner dot. The mask's
      top-left corner sits 29 columns left of and 6 rows above the image's
      bottom-right bound. */
  predicate BannerAt(width: int, height: int, x: int, y: int)
  {
    Dot(x - (width - (|Mask[0]| + 2)), y - (height - (|Mask| + 2)))
  }

  /** The banner stays in a 27x4 box with a two-pixel margin to the right
      and bottom edges. */
  lemma {:induction false} BannerBox(width: int, height: int, x: int, y: int)
    requires BannerAt(width, height, x, y)
    ensures width - 29 <= x < width - 2 && height - 6 <= y < height - 2
  {
    var v := y - (height - 6);
    assert |Mask[v]| == 27;
  }

  /** Pixel (u, v) of the mask is a dot. */
  predicate Dot(u: int, v: int)
  {
    0 <= v < |Mask| && RowDot(Mask[v], u)
  }

  /** Character u of a mask row is a dot. */
  predicate RowDot(row: string, u: int)
  {
    0 <= u < |row| && row[u] == 'o'
  }

  /** DrawBanner: set the mask's dots to grey; img.Set ignores points outside
      the image, so a frame smaller than the banner gets only part of it. */
  method DrawBanner(img: array2<RGBA>)
    modifies img
    ensures forall x, y :: 0 <= x < img.Length0 && 0 <= y < img.Length1 ==>
              img[x, y] == if BannerAt(img.Length0, img.Length1, x, y) then BannerGrey else old(img[x, y])
  {
    var offX, offY := img.Length0 - (|Mask[0]| + 2), img.Length1 - (|Mask| + 2);
    var v := 0;
    while v < |Mask|
      invariant 0 <= v <= |Mask|
      invariant forall x, y :: 0 <= x < img.Length0 && 0 <= y < img.Length1 ==>
                  img[x, y] == if Dot(x - offX, y - offY) && y - offY < v then BannerGrey else old(img[x, y])
    {
      DrawRow(img, offX, offY, v, Mask[v]);
      v := v + 1;
    }
  }

  /** One row of DrawBanner's loop: the dots of mask row v, at offset (offX, offY). */
  method DrawRow(img: array2<RGBA>, offX: int, offY: int, v: int, row: string)
    modifies img
    ensures forall x, y :: 0 <= x < img.Length0 && 0 <= y < img.Length1 ==>
              img[x, y] == if RowDot(row, x - offX) && y - offY == v then BannerGrey else old(img[x, y])
  {
    var u := 0;
    while u < |row|
      invariant 0 <= u <= |row|
      invariant forall x, y :: 0 <= x < img.Length0 && 0 <= y < img.Length1 ==>
                  img[x, y] == if RowDot(row, x - offX) && y - offY == v && x - offX < u
                               then BannerGrey else old(img[x, y])
    {
      if row[u] == 'o' {
        var x, y := offX + u, offY + v;
        if 0 <= x < img.Length0 && 0 <= y < img.Length1 {
          img[x, y] := BannerGrey;
        }
      }
      u := u + 1;
    }
  }

  /** A scheduled tile is a 64x64 square with its corner in the first quadrant. */
  lemma {:induction false} ScheduleTiles(width: nat, height: nat, t: Rect)
    requires t in Schedule(width, height)
    ensures t.minX >= 0 && t.minY >= 0 && t.maxX - t.minX == TileSize && t.maxY - t.minY == TileSize
  {
    TilesMembers(TileCount(width), TileCount(height), t);
  }

  /** Covering by one more arrival. */
  lemma {:induction false} CoveredStep(ts: seq<Rect>, k: nat, x: int, y: int)
    requires k < |ts|
    ensures Covered(ts[..k + 1], x, y) <==> Covered(ts[..k], x, y) || InRect(ts[k], x, y)
  {
    if Covered(ts[..k + 1], x, y) && !InRect(ts[k], x, y) {
      var m :| 0 <= m < k + 1 && InRect(ts[..k + 1][m], x, y);
      assert ts[..k][m] == ts[m];
    }
    if Covered(ts[..k], x, y) {
      var m :| 0 <= m < k && InRect(ts[..k][m], x, y);
      assert ts[..k + 1][m] == ts[m];
    }
    if InRect(ts[k], x, y) {
      assert ts[..k + 1][k] == ts[k];
    }
  }
}
