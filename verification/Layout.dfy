/** The grid the compositor lays its videos out in. */
module Layout {

  datatype Tile = Tile(x: int, y: int, w: int, h: int)

  /** A sink pad of the compositor, for the input bin of that number, with the properties the layout sets. */
  class Pad {
    const bin: nat
    var tile: Tile

    constructor (bin: nat)
      ensures this.bin == bin
    {
      this.bin, tile := bin, Tile(0, 0, 0, 0);
    }
  }

  datatype Grid = Grid(rows: nat, cols: nat)

  datatype Choice = Chosen(grid: Grid) | Undefined

  const WIDTH := 1920
  const HEIGHT := 1080

  /** Rows and columns for a number of videos; above 16 the source leaves them unset. */
  function GridFor(videos: nat): Choice {
    if videos <= 1 then Chosen(Grid(1, 1))
    else if videos <= 4 then Chosen(Grid(2, 2))
    else if videos <= 9 then Chosen(Grid(3, 3))
    else if videos <= 16 then Chosen(Grid(4, 4))
    else Undefined
  }

  /** The grid chosen has room for every video, and the next smaller square has not. */
  lemma GridFits(videos: nat)
    ensures GridFor(videos).Chosen? <==> videos <= 16
    ensures GridFor(videos).Chosen? ==>
              var g := GridFor(videos).grid;
              g.rows == g.cols && 1 <= g.cols && videos <= g.rows * g.cols
              && (1 < g.cols ==> (g.rows - 1) * (g.cols - 1) < videos)
              && WIDTH % g.cols == 0 && HEIGHT % g.rows == 0
  {}

  // ---- the closed form ----

  /** How many tiles of width `w` it takes to reach `width`. */
  function PerRow(width: nat, w: nat): (k: nat)
    requires 0 < w
    ensures 0 < width ==> 0 < k
  {
    (width + w - 1) / w
  }

  /** Tile `i` of a grid with `k` tiles to a row. */
  function TileAt(i: nat, k: nat, w: nat, h: nat): Tile
    requires 0 < k
  {
    Tile((i % k) * w, (i / k) * h, w, h)
  }

  lemma PerRowBounds(width: nat, w: nat)
    requires 0 < w && 0 < width
    ensures var k := PerRow(width, w); 1 <= k && (k - 1) * w < width <= k * w
  {
    var k := PerRow(width, w);
    assert k * w <= width + w - 1 < (k + 1) * w;
  }

  /** Where the loop puts pad `i`; a canvas narrower than the grid gives tiles no width, and no row ever fills. */
  function Placed(i: nat, width: nat, w: nat, h: nat): Tile {
    if w == 0 then Tile(0, if width == 0 then i * h else 0, 0, h)
    else if width == 0 then Tile(0, i * h, w, h)
    else TileAt(i, PerRow(width, w), w, h)
  }

  lemma NextInRow(i: nat, k: nat)
    requires 0 < k
    ensures if i % k + 1 == k then (i + 1) % k == 0 && (i + 1) / k == i / k + 1
            else (i + 1) % k == i % k + 1 && (i + 1) / k == i / k
  {
    NextOf(i, k, i / k, i % k);
  }

  lemma NextOf(i: nat, k: nat, q: nat, r: nat)
    requires 0 < k && r < k && i == q * k + r
    ensures if r + 1 == k then (i + 1) % k == 0 && (i + 1) / k == q + 1
            else (i + 1) % k == r + 1 && (i + 1) / k == q
  {
    if r + 1 == k {
      assert (q + 1) * k == q * k + k;
      DivModUnique(i + 1, k, q + 1, 0);
    } else {
      DivModUnique(i + 1, k, q, r + 1);
    }
  }

  lemma MulMono(a: int, b: int, k: int)
    requires a <= b && 0 <= k
    ensures a * k <= b * k
  {}

  lemma DivModUnique(n: nat, k: nat, q: nat, r: nat)
    requires 0 < k && r < k && n == q * k + r
    ensures n / k == q && n % k == r
  {
    var q', r' := n / k, n % k;
    assert q' * k + r' == q * k + r;
    if q < q' {
      MulMono(q + 1, q', k);
    } else if q' < q {
      MulMono(q' + 1, q, k);
    }
  }

  /** A row is full exactly at its last tile. */
  lemma RowFull(j: nat, width: nat, w: nat)
    requires 0 < w && 0 < width && j < PerRow(width, w)
    ensures j * w + w >= width <==> j + 1 == PerRow(width, w)
  {
    var k := PerRow(width, w);
    PerRowBounds(width, w);
    assert j * w + w == (j + 1) * w;
    if j + 1 < k {
      assert (j + 1) * w <= (k - 1) * w;
    }
  }

  /** The running coordinates of the loop, one step on. */
  lemma PlacedNext(i: nat, width: nat, w: nat, h: nat)
    ensures var t, t' := Placed(i, width, w, h), Placed(i + 1, width, w, h);
            if t.x + w >= width then t'.x == 0 && t'.y == t.y + h else t'.x == t.x + w && t'.y == t.y
  {
    if 0 < w && 0 < width {
      var k := PerRow(width, w);
      NextInRow(i, k);
      RowFull(i % k, width, w);
      if i % k + 1 == k {
        assert (i / k + 1) * h == (i / k) * h + h;
      } else {
        assert (i % k + 1) * w == (i % k) * w + w;
      }
    } else if width == 0 {
      assert (i + 1) * h == i * h + h;
    }
  }

  /** The layout loop, for every canvas and every grid: each pad gets its place in the closed form. */
  method LayOut(pads: seq<Pad>, width: nat, height: nat, grid: Grid)
    requires 0 < grid.rows && 0 < grid.cols
    requires forall i: nat, j: nat | i < j < |pads| :: pads[i] != pads[j]
    modifies pads
    ensures forall i: nat | i < |pads| ::
              pads[i].tile == Placed(i, width, width / grid.cols, height / grid.rows)
    ensures forall i: nat | i < |pads| ::
              pads[i].tile.w == width / grid.cols && pads[i].tile.h == height / grid.rows
  {
    var x, y := 0, 0;
    var w := width / grid.cols;
    var h := height / grid.rows;
    for i := 0 to |pads|
      invariant forall j: nat | j < i :: pads[j].tile == Placed(j, width, w, h)
      invariant Placed(i, width, w, h) == Tile(x, y, w, h)
    {
      pads[i].tile := Tile(x, y, w, h);
      PlacedNext(i, width, w, h);
      x := x + w;
      if x >= width {
        x := 0;
        y := y + h;
      }
    }
  }

  // ---- what the layout looks like ----

  predicate Covers(t: Tile, px: int, py: int) {
    t.x <= px < t.x + t.w && t.y <= py < t.y + t.h
  }

  /** No pixel is covered by two tiles. */
  lemma TilesDisjoint(i: nat, j: nat, width: nat, w: nat, h: nat, px: int, py: int)
    requires i < j
    ensures !(Covers(Placed(i, width, w, h), px, py) && Covers(Placed(j, width, w, h), px, py))
  {
    if 0 < w && 0 < width {
      var k := PerRow(width, w);
      GridOrder(i, j, k);
      Apart(i % k, j % k, w);
      Apart(i / k, j / k, h);
    } else if 0 < w {
      Apart(i, j, h);
    }
  }

  /** Later tiles are in a later row, or further along the same one. */
  lemma GridOrder(i: nat, j: nat, k: nat)
    requires 0 < k && i < j
    ensures i / k < j / k || (i / k == j / k && i % k < j % k)
  {
    var qi, ri, qj, rj := i / k, i % k, j / k, j % k;
    assert i == qi * k + ri && j == qj * k + rj;
    if qj < qi {
      MulMono(qj + 1, qi, k);
    }
  }

  lemma Apart(a: nat, b: nat, size: nat)
    ensures a < b ==> a * size + size <= b * size
  {
    if a < b {
      MulMono(a + 1, b, size);
    }
  }

  /** Of the cells of that size in a row, exactly one holds position `p`. */
  lemma CellOf(q: nat, p: nat, size: nat)
    requires 0 < size
    ensures q * size <= p < q * size + size <==> q == p / size
  {
    assert p == (p / size) * size + p % size;
    if q * size <= p < q * size + size {
      DivModUnique(p, size, q, p - q * size);
    }
  }

  lemma CellNumber(i: nat, k: nat, row: nat, col: nat)
    requires 0 < k && col < k
    ensures i / k == row && i % k == col <==> i == row * k + col
  {
    assert i == (i / k) * k + i % k;
    if i == row * k + col {
      DivModUnique(i, k, row, col);
    }
  }

  lemma ColumnOf(px: nat, w: nat, k: nat)
    requires 0 < w && px < k * w
    ensures px / w < k
  {
    assert px == (px / w) * w + px % w;
    if k <= px / w {
      MulMono(k, px / w, w);
    }
  }

  lemma TileCovers(col: nat, row: nat, w: nat, h: nat, px: nat, py: nat)
    requires 0 < w && 0 < h
    ensures Covers(Tile(col * w, row * h, w, h), px, py) <==> col == px / w && row == py / h
  {
    CellOf(col, px, w);
    CellOf(row, py, h);
  }

  /**
   * For every canvas and every size of tiles: a pixel of a row is covered by exactly one tile,
   * the one whose number is its row of tiles times the tiles to a row plus its place in it.
   */
  lemma PixelCovered(i: nat, width: nat, w: nat, h: nat, px: nat, py: nat)
    requires 0 < width && 0 < w && 0 < h && px < PerRow(width, w) * w
    ensures Covers(Placed(i, width, w, h), px, py) <==> i == (py / h) * PerRow(width, w) + px / w
  {
    var k := PerRow(width, w);
    ColumnOf(px, w, k);
    TileCovers(i % k, i / k, w, h, px, py);
    CellNumber(i, k, py / h, px / w);
  }

  /** Cells that divide a length: exactly its positions lie in one of the `n` cells. */
  lemma CellsFill(size: nat, n: nat, p: nat)
    requires 0 < n && 0 < size && size % n == 0
    ensures 0 < size / n && n * (size / n) == size && (p < size <==> p / (size / n) < n)
  {
    var c := size / n;
    assert size == n * c + size % n;
    assert c > 0;
    assert p == (p / c) * c + p % c;
    if p / c < n {
      MulMono(p / c + 1, n, c);
    } else {
      MulMono(n, p / c, c);
    }
  }

  /** The number of the cell a pixel lies in, among `rows` rows of `cols` cells. */
  lemma CellInGrid(row: nat, col: nat, rows: nat, cols: nat)
    requires row < rows && col < cols
    ensures row * cols + col < rows * cols
  {
    MulMono(row + 1, rows, cols);
  }

  lemma EvenColumns(width: nat, cols: nat)
    requires 0 < cols && 0 < width && width % cols == 0
    ensures 0 < width / cols && PerRow(width, width / cols) == cols && cols * (width / cols) == width
  {
    CellsFill(width, cols, 0);
    AtMost(cols, width / cols, width);
    ColumnsToARow(width, cols);
  }

  /**
   * When the grid divides the canvas and every cell is filled, the layout covers the canvas:
   * each pixel lies in exactly one tile.
   */
  lemma CanvasCovered(width: nat, height: nat, rows: nat, cols: nat, px: nat, py: nat)
    requires 0 < rows && 0 < cols && 0 < width && 0 < height && width % cols == 0 && height % rows == 0
    requires px < width && py < height
    ensures exists i: nat ::
              && i < rows * cols && Covers(Placed(i, width, width / cols, height / rows), px, py)
              && forall j: nat | Covers(Placed(j, width, width / cols, height / rows), px, py) :: j == i
  {
    CellsFill(height, rows, py);
    CellsFill(width, cols, px);
    EvenColumns(width, cols);
    var w, h := width / cols, height / rows;
    CellInGrid(py / h, px / w, rows, cols);
    var i := (py / h) * cols + px / w;
    PixelCovered(i, width, w, h, px, py);
    forall j: nat | Covers(Placed(j, width, w, h), px, py) ensures j == i {
      PixelCovered(j, width, w, h, px, py);
    }
  }

  lemma AtMost(cols: nat, w: nat, width: nat)
    requires 0 < w && cols * w == width
    ensures cols <= width
  {
    MulMono(1, w, cols);
  }

  lemma MoreTiles(a: nat, b: nat, w: nat)
    requires 0 < w
    ensures a <= b <==> a * w <= b * w
  {
    if a <= b {
      MulMono(a, b, w);
    } else {
      MulMono(b + 1, a, w);
    }
  }

  lemma ColumnCount(width: nat, cols: nat, w: nat, r: nat, k: nat)
    requires width == cols * w + r && r < cols && 0 < w && 0 < k
    requires (k - 1) * w < width <= k * w
    ensures cols <= k && (k == cols <==> r == 0)
  {
    MoreTiles(k, cols, w);
    MoreTiles(cols, k, w);
    MoreTiles(cols, k - 1, w);
  }

  /** A row holds exactly as many tiles as the grid has columns if and only if they divide the width. */
  lemma ColumnsToARow(width: nat, cols: nat)
    requires 1 <= cols <= width
    ensures 0 < width / cols
    ensures PerRow(width, width / cols) == cols <==> width % cols == 0
    ensures cols <= PerRow(width, width / cols)
  {
    var w, r := width / cols, width % cols;
    assert width == cols * w + r && 0 < w;
    PerRowBounds(width, w);
    ColumnCount(width, cols, w, r, PerRow(width, w));
  }

  predicate Inside(t: Tile, width: nat, height: nat) {
    0 <= t.x && t.x + t.w <= width && 0 <= t.y && t.y + t.h <= height
  }

  lemma Quotient(n: nat, k: nat)
    requires 0 < k
    ensures (n / k) * k <= n && k * (n / k) <= n
  {}

  lemma RowCount(i: nat, k: nat, q: nat, rows: nat, cols: nat)
    requires q * k <= i < rows * cols && cols <= k
    ensures q < rows
  {
    MulMono(cols, k, rows);
    if rows <= q {
      MulMono(rows, q, k);
    }
  }

  lemma RowBottom(i: nat, k: nat, q: nat, rows: nat, cols: nat, h: nat, height: nat)
    requires q * k <= i < rows * cols && cols <= k && rows * h <= height
    ensures q * h + h <= height
  {
    RowCount(i, k, q, rows, cols);
    Apart(q, rows, h);
  }

  /** With at least as many tiles to a row as the grid has columns, no tile sticks out below. */
  lemma NotBelow(i: nat, width: nat, height: nat, rows: nat, cols: nat, w: nat, h: nat)
    requires 0 < w <= width && cols <= PerRow(width, w) && i < rows * cols && rows * h <= height
    ensures var t := Placed(i, width, w, h); 0 <= t.y && t.y + t.h <= height
  {
    var k := PerRow(width, w);
    Quotient(i, k);
    RowBottom(i, k, i / k, rows, cols, h, height);
  }

  /** A tile sticks out to the right only as the last of a row that the tiles do not fill evenly. */
  lemma NotBeside(i: nat, width: nat, w: nat, h: nat)
    requires 0 < w <= width
    ensures var t := Placed(i, width, w, h); var k := PerRow(width, w);
            0 <= t.x && (t.x + t.w <= width <==> i % k + 1 < k || k * w == width)
  {
    var k := PerRow(width, w);
    PerRowBounds(width, w);
    var j := i % k;
    assert (j + 1) * w == j * w + w;
    if j + 1 < k {
      MulMono(j + 1, k - 1, w);
    }
  }

  /** One row holds the first tiles, up to but not counting its last. */
  lemma FirstRow(n: nat, i: nat, k: nat, w: nat, width: nat)
    requires 0 < w && 0 < k && (k - 1) * w < width <= k * w && i < n && n * w <= width
    ensures k * w == width || i % k + 1 < k
  {
    MoreTiles(n, k - 1, w);
    MoreTiles(k, n, w);
    if i < k {
      DivModUnique(i, k, 0, i);
    }
  }

  /**
   * As many tiles as the grid has cells all lie inside the canvas if and only if the width of
   * a tile divides that of the canvas or one row holds them all.
   */
  lemma TilesInside(n: nat, width: nat, height: nat, rows: nat, cols: nat)
    requires 1 <= cols <= width && 0 < rows && n <= rows * cols
    ensures 0 < width / cols
    ensures (forall i: nat | i < n :: Inside(Placed(i, width, width / cols, height / rows), width, height))
            <==> width % (width / cols) == 0 || n * (width / cols) <= width
  {
    ColumnsToARow(width, cols);
    var w, h := width / cols, height / rows;
    var k := PerRow(width, w);
    WidthCovers(width, cols);
    Quotient(height, rows);
    PerRowBounds(width, w);
    EvenRow(width, w);
    if k * w == width || n * w <= width {
      forall i: nat | i < n ensures Inside(Placed(i, width, w, h), width, height) {
        NotBelow(i, width, height, rows, cols, w, h);
        NotBeside(i, width, w, h);
        if n * w <= width {
          FirstRow(n, i, k, w, width);
        }
      }
    } else {
      MoreTiles(n, k - 1, w);
      NotBeside(k - 1, width, w, h);
      DivModUnique(k - 1, k, 0, k - 1);
      assert !Inside(Placed(k - 1, width, w, h), width, height);
    }
  }

  /** On a canvas 11 wide in three columns the fourth tile of the first row sticks out. */
  lemma TileSticksOut()
    ensures !Inside(Placed(3, 11, 11 / 3, 9 / 3), 11, 9) && 4 <= 3 * 3 && 11 % (11 / 3) != 0
  {
    assert PerRow(11, 3) == 4;
  }

  lemma WidthCovers(width: nat, cols: nat)
    requires 1 <= cols <= width
    ensures 0 < width / cols <= width
  {}

  lemma EvenRow(width: nat, w: nat)
    requires 0 < w <= width
    ensures PerRow(width, w) * w == width <==> width % w == 0
  {
    PerRowBounds(width, w);
    var k := PerRow(width, w);
    if k * w == width {
      DivModUnique(width, w, k, 0);
    } else if width % w == 0 {
      var q := width / w;
      assert width == q * w;
      MoreTiles(q, k - 1, w);
      MoreTiles(k, q, w);
    }
  }

  /** The side of the smallest square of cells that holds the videos. */
  predicate Side(videos: nat, side: nat) {
    1 <= side <= 4 && videos <= side * side && (1 < side ==> (side - 1) * (side - 1) < videos)
  }

  /**
   * On the real canvas the layout of up to 16 videos shows each of them in its cell of the
   * smallest square grid: whole, inside the canvas, and with the size of the cell.
   */
  lemma VideosShown(videos: nat, side: nat)
    requires Side(videos, side)
    ensures GridFor(videos) == Chosen(Grid(side, side)) && WIDTH == 1920 && HEIGHT == 1080
    ensures forall i: nat | i < videos ::
              var t := Placed(i, 1920, 1920 / side, 1080 / side);
              && t == Tile((i % side) * (1920 / side), (i / side) * (1080 / side), 1920 / side, 1080 / side)
              && Inside(t, 1920, 1080)
  {
    GridFits(videos);
    ColumnsToARow(WIDTH, side);
    TilesInside(videos, WIDTH, HEIGHT, side, side);
    DividesBack(WIDTH, side);
  }

  /** One video alone covers the whole canvas. */
  lemma OneVideoFills(px: nat, py: nat)
    requires px < 1920 && py < 1080
    ensures GridFor(1).Chosen? && var g := GridFor(1).grid;
            0 < g.cols && 0 < g.rows && Covers(Placed(0, WIDTH, WIDTH / g.cols, HEIGHT / g.rows), px, py)
  {
    CanvasCovered(1920, 1080, 1, 1, px, py);
  }

  lemma DividesBack(width: nat, cols: nat)
    requires 1 <= cols <= width && width % cols == 0
    ensures 0 < width / cols && width % (width / cols) == 0
  {
    var w := width / cols;
    assert width == cols * w + 0 && 0 < w;
    DivModUnique(width, w, cols, 0);
  }
}
