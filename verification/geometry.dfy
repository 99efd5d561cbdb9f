/**
 * Canvas geometry shared by the board views: which square a pixel falls on,
 * and how big a square is after the canvas is resized. All divisions here
 * have a positive divisor, where Python's floor division `//` and Dafny's
 * Euclidean `/` agree.
 */
module Geometry {
  import opened Chess

  /** What a click's pixel coordinates address. */
  datatype Hit =
    | OnSquare(square: Square)
    | OffBoard
    /** `square_size` is 0, so `x // square_size` raises ZeroDivisionError. */
    | ZeroSize

  /**
   * The click arithmetic of the board views: file `x div size`, rank
   * `7 - y div size`, square `rank * 8 + file`, and only the 8x8 grid counts.
   */
  function SquareAt(x: int, y: int, size: nat): Hit
  {
    if size == 0 then ZeroSize
    else
      var file := x / size;
      var rank := 7 - y / size;
      if 0 <= file < 8 && 0 <= rank < 8 then OnSquare(SquareOf(file, rank)) else OffBoard
  }

  /** The pixel rectangle `draw_board` paints for a square: column `file`, row `7 - rank`. */
  predicate InsideDrawnSquare(x: int, y: int, size: nat, sq: Square)
    requires 0 <= sq < 64
  {
    && FileOf(sq) * size <= x < (FileOf(sq) + 1) * size
    && (7 - RankOf(sq)) * size <= y < (8 - RankOf(sq)) * size
  }

  /** Scaling by a non-negative factor keeps order. */
  lemma ScaleKeepsOrder(a: int, b: int, size: nat)
    requires a <= b
    ensures a * size <= b * size
  {
    assert b * size - a * size == (b - a) * size;
  }

  lemma FloorDivisionCharacterised(a: int, size: nat, q: int)
    requires size > 0
    ensures a / size == q <==> q * size <= a < (q + 1) * size
  {
    var d := a / size;
    assert d * size <= a < (d + 1) * size;
    if q < d {
      ScaleKeepsOrder(q + 1, d, size);
    } else if q > d {
      ScaleKeepsOrder(d + 1, q, size);
    }
  }

  /**
   * A click hits square `sq` exactly when it lands in the rectangle drawn for
   * `sq`: the click mapping inverts the drawing layout.
   */
  lemma ClickHitsDrawnSquare(x: int, y: int, size: nat, sq: Square)
    requires size > 0 && 0 <= sq < 64
    ensures SquareAt(x, y, size) == OnSquare(sq) <==> InsideDrawnSquare(x, y, size, sq)
  {
    var file, rank := FileOf(sq), RankOf(sq);
    FloorDivisionCharacterised(x, size, file);
    FloorDivisionCharacterised(y, size, 7 - rank);
    if SquareAt(x, y, size) == OnSquare(sq) {
      var f, r := x / size, 7 - y / size;
      assert 0 <= f < 8 && 0 <= r < 8 && SquareOf(f, r) == sq;
      SquareCoordinates(f, r);
    }
  }

  lemma QuotientInGrid(a: int, size: nat)
    requires size > 0
    ensures 0 <= a / size < 8 <==> 0 <= a < 8 * size
  {
    var q := a / size;
    FloorDivisionCharacterised(a, size, q);
    if 0 <= q < 8 {
      ScaleKeepsOrder(0, q, size);
      ScaleKeepsOrder(q + 1, 8, size);
    } else if q < 0 {
      ScaleKeepsOrder(q + 1, 0, size);
    } else {
      ScaleKeepsOrder(8, q, size);
    }
  }

  /** Every pixel of the 8x8 grid lands on some square; off the grid nothing is hit. */
  lemma GridCoverage(x: int, y: int, size: nat)
    requires size > 0
    ensures SquareAt(x, y, size).OnSquare? <==> 0 <= x < 8 * size && 0 <= y < 8 * size
  {
    QuotientInGrid(x, size);
    QuotientInGrid(y, size);
  }

  /**
   * `on_canvas_resize`: the square size is the largest that fits eight
   * squares into the smaller canvas side.
   */
  function ResizedSquare(width: nat, height: nat): (size: nat)
    ensures 8 * size <= width && 8 * size <= height
    ensures width < 8 * size + 8 || height < 8 * size + 8
  {
    (if width <= height then width else height) / 8
  }

  /** A canvas narrower or shorter than 8 pixels makes every later click divide by zero. */
  lemma TinyCanvasBreaksClicks(width: nat, height: nat, x: int, y: int)
    requires width < 8 || height < 8
    ensures SquareAt(x, y, ResizedSquare(width, height)) == ZeroSize
  {
  }
}
