/** The ordered dither of `phomemo/imaging.py`: `_bayer_tile`, the ordered branch of `_apply_tone`. */
module Dither {
  import opened Bytes

  const BAYER: seq<seq<nat>> := [
    [0, 32, 8, 40, 2, 34, 10, 42],
    [48, 16, 56, 24, 50, 18, 58, 26],
    [12, 44, 4, 36, 14, 46, 6, 38],
    [60, 28, 52, 20, 62, 30, 54, 22],
    [3, 35, 11, 43, 1, 33, 9, 41],
    [51, 19, 59, 27, 49, 17, 57, 25],
    [15, 47, 7, 39, 13, 45, 5, 37],
    [63, 31, 55, 23, 61, 29, 53, 21]
  ]

  /** The rank of the tile's pixel at column x, row y. */
  function Rank(x: nat, y: nat): (r: nat)
    ensures r < 64
  {
    BAYER[y % 8][x % 8]
  }

  /**
   * The tile is the Bayer matrix: of the four pixels of every block of two by two the first has the
   * rank it has among those of every second pixel, and the others come 32, 48 and 16 behind it.
   */
  lemma BayerPairs(i: nat, j: nat)
    requires i < 4 && j < 4
    ensures BAYER[2 * j][2 * i + 1] == BAYER[2 * j][2 * i] + 32
    ensures BAYER[2 * j + 1][2 * i] == BAYER[2 * j][2 * i] + 48
    ensures BAYER[2 * j + 1][2 * i + 1] == BAYER[2 * j][2 * i] + 16
  {
    if j == 0 {
      assert i == 0 || i == 1 || i == 2 || i == 3;
    } else if j == 1 {
      assert i == 0 || i == 1 || i == 2 || i == 3;
    } else if j == 2 {
      assert i == 0 || i == 1 || i == 2 || i == 3;
    } else {
      assert j == 3;
      assert i == 0 || i == 1 || i == 2 || i == 3;
    }
  }

  /** The same of the ranks of every second pixel, and of those of every fourth. */
  lemma BayerQuads(i: nat, j: nat)
    requires i < 2 && j < 2
    ensures BAYER[4 * j][4 * i + 2] == BAYER[4 * j][4 * i] + 8
    ensures BAYER[4 * j + 2][4 * i] == BAYER[4 * j][4 * i] + 12
    ensures BAYER[4 * j + 2][4 * i + 2] == BAYER[4 * j][4 * i] + 4
    ensures BAYER[0][0] == 0 && BAYER[0][4] == 2 && BAYER[4][0] == 3 && BAYER[4][4] == 1
  {
    if j == 0 {
      assert i == 0 || i == 1;
    } else {
      assert j == 1;
      assert i == 0 || i == 1;
    }
  }

  /** `int((rank + 0.5) * 4)`. */
  function Cell(x: nat, y: nat): byte { 4 * Rank(x, y) + 2 }

  // ------------------------------------------------------------------
  // Counting white pixels
  // ------------------------------------------------------------------

  type Pixels = (nat, nat) -> bool

  /** How many of the n pixels from (x, y) to the right are white. */
  function InRow(white: Pixels, x: nat, y: nat, n: nat): nat {
    if n == 0 then 0 else InRow(white, x, y, n - 1) + if white(x + n - 1, y) then 1 else 0
  }

  /** How many pixels of the m rows of eight below (x, y) are white. */
  function InBlock(white: Pixels, x: nat, y: nat, m: nat): nat {
    if m == 0 then 0 else InBlock(white, x, y, m - 1) + InRow(white, x, y + m - 1, 8)
  }

  /** The pattern repeats every eight pixels both ways. */
  ghost predicate Tiled(white: Pixels) {
    && (forall x: nat, y: nat :: white(x + 8, y) == white(x, y))
    && (forall x: nat, y: nat :: white(x, y + 8) == white(x, y))
  }

  lemma {:induction false} RowFromTheLeft(white: Pixels, x: nat, y: nat, n: nat)
    ensures InRow(white, x, y, n + 1) == (if white(x, y) then 1 else 0) + InRow(white, x + 1, y, n)
  {
    if n > 0 {
      RowFromTheLeft(white, x, y, n - 1);
    }
  }

  lemma {:induction false} BlockFromTheTop(white: Pixels, x: nat, y: nat, m: nat)
    ensures InBlock(white, x, y, m + 1) == InRow(white, x, y, 8) + InBlock(white, x, y + 1, m)
  {
    if m > 0 {
      BlockFromTheTop(white, x, y, m - 1);
    }
  }

  lemma RowSlides(white: Pixels, x: nat, y: nat)
    requires Tiled(white)
    ensures InRow(white, x + 1, y, 8) == InRow(white, x, y, 8)
  {
    RowFromTheLeft(white, x, y, 8);
    assert InRow(white, x, y, 9) == InRow(white, x, y, 8) + if white(x + 8, y) then 1 else 0;
  }

  lemma {:induction false} RowAnywhere(white: Pixels, x: nat, y: nat)
    requires Tiled(white)
    ensures InRow(white, x, y, 8) == InRow(white, 0, y, 8)
  {
    if x > 0 {
      RowSlides(white, x - 1, y);
      RowAnywhere(white, x - 1, y);
    }
  }

  lemma {:induction false} RowRepeats(white: Pixels, x: nat, y: nat, n: nat)
    requires Tiled(white)
    ensures InRow(white, x, y + 8, n) == InRow(white, x, y, n)
  {
    if n > 0 {
      RowRepeats(white, x, y, n - 1);
    }
  }

  lemma {:induction false} BlockMovesLeft(white: Pixels, x: nat, y: nat, m: nat)
    requires Tiled(white)
    ensures InBlock(white, x, y, m) == InBlock(white, 0, y, m)
  {
    if m > 0 {
      BlockMovesLeft(white, x, y, m - 1);
      RowAnywhere(white, x, y + m - 1);
    }
  }

  lemma BlockSlides(white: Pixels, y: nat)
    requires Tiled(white)
    ensures InBlock(white, 0, y + 1, 8) == InBlock(white, 0, y, 8)
  {
    BlockFromTheTop(white, 0, y, 8);
    assert InBlock(white, 0, y, 9) == InBlock(white, 0, y, 8) + InRow(white, 0, y + 8, 8);
    RowRepeats(white, 0, y, 8);
  }

  /** A window of eight by eight sees the same number wherever it lies. */
  lemma {:induction false} BlockAnywhere(white: Pixels, x: nat, y: nat)
    requires Tiled(white)
    ensures InBlock(white, x, y, 8) == InBlock(white, 0, 0, 8)
  {
    hide InRow, InBlock;
    if y > 0 {
      BlockMovesLeft(white, x, y, 8);
      BlockSlides(white, y - 1);
      BlockAnywhere(white, 0, y - 1);
    } else {
      BlockMovesLeft(white, x, 0, 8);
    }
  }

  // ------------------------------------------------------------------
  // The tone of a uniform gray
  // ------------------------------------------------------------------

  /** A gray v is white where it exceeds the threshold. */
  function Lit(v: int): Pixels { (x: nat, y: nat) => v > Cell(x, y) }

  function Marked(r: int): Pixels { (x: nat, y: nat) => Rank(x, y) == r }

  lemma {:induction false} RowBrightens(v: int, y: nat, n: nat)
    requires v % 4 == 2
    ensures InRow(Lit(v + 1), 0, y, n) == InRow(Lit(v), 0, y, n) + InRow(Marked(v / 4), 0, y, n)
  {
    hide Rank;
    if n > 0 {
      RowBrightens(v, y, n - 1);
    }
  }

  lemma {:induction false} RowStays(v: int, y: nat, n: nat)
    requires v % 4 != 2
    ensures InRow(Lit(v + 1), 0, y, n) == InRow(Lit(v), 0, y, n)
  {
    hide Rank;
    if n > 0 {
      RowStays(v, y, n - 1);
    }
  }

  lemma {:induction false} BlockBrightens(v: int, m: nat)
    ensures InBlock(Lit(v + 1), 0, 0, m)
            == InBlock(Lit(v), 0, 0, m) + if v % 4 == 2 then InBlock(Marked(v / 4), 0, 0, m) else 0
  {
    hide InRow, Rank;
    if m > 0 {
      BlockBrightens(v, m - 1);
      if v % 4 == 2 {
        RowBrightens(v, m - 1, 8);
      } else {
        RowStays(v, m - 1, 8);
      }
    }
  }

  function One(b: bool): nat { if b then 1 else 0 }

  function OnesIn(row: seq<nat>, r: nat): nat
    requires |row| == 8
  {
    One(r == row[0]) + One(r == row[1]) + One(r == row[2]) + One(r == row[3])
    + One(r == row[4]) + One(r == row[5]) + One(r == row[6]) + One(r == row[7])
  }

  predicate Is(r: nat, a: nat, b: nat, c: nat, d: nat, e: nat, f: nat, g: nat, h: nat) {
    r == a || r == b || r == c || r == d || r == e || r == f || r == g || r == h
  }

  lemma UpperRows(r: nat)
    ensures OnesIn(BAYER[0], r) == One(Is(r, 0, 32, 8, 40, 2, 34, 10, 42))
    ensures OnesIn(BAYER[1], r) == One(Is(r, 48, 16, 56, 24, 50, 18, 58, 26))
    ensures OnesIn(BAYER[2], r) == One(Is(r, 12, 44, 4, 36, 14, 46, 6, 38))
    ensures OnesIn(BAYER[3], r) == One(Is(r, 60, 28, 52, 20, 62, 30, 54, 22))
  {
  }

  lemma LowerRows(r: nat)
    ensures OnesIn(BAYER[4], r) == One(Is(r, 3, 35, 11, 43, 1, 33, 9, 41))
    ensures OnesIn(BAYER[5], r) == One(Is(r, 51, 19, 59, 27, 49, 17, 57, 25))
    ensures OnesIn(BAYER[6], r) == One(Is(r, 15, 47, 7, 39, 13, 45, 5, 37))
    ensures OnesIn(BAYER[7], r) == One(Is(r, 63, 31, 55, 23, 61, 29, 53, 21))
  {
  }

  lemma OneRowHolds(r: nat)
    requires r < 64
    ensures One(Is(r, 0, 32, 8, 40, 2, 34, 10, 42))
            + One(Is(r, 48, 16, 56, 24, 50, 18, 58, 26))
            + One(Is(r, 12, 44, 4, 36, 14, 46, 6, 38))
            + One(Is(r, 60, 28, 52, 20, 62, 30, 54, 22))
            + One(Is(r, 3, 35, 11, 43, 1, 33, 9, 41))
            + One(Is(r, 51, 19, 59, 27, 49, 17, 57, 25))
            + One(Is(r, 15, 47, 7, 39, 13, 45, 5, 37))
            + One(Is(r, 63, 31, 55, 23, 61, 29, 53, 21)) == 1
  {
  }

  lemma RowOfMarked(r: nat, y: nat)
    requires y < 8
    ensures InRow(Marked(r), 0, y, 8) == OnesIn(BAYER[y], r)
  {
    EightTerms(Marked(r), y);
  }

  /** Each rank stands in the matrix once. */
  lemma OneOfEachRank(r: nat)
    requires r < 64
    ensures InBlock(Marked(r), 0, 0, 8) == 1
  {
    hide InRow, InBlock, Rank, OnesIn, Is, One;
    EightRows(Marked(r));
    RowOfMarked(r, 0);
    RowOfMarked(r, 1);
    RowOfMarked(r, 2);
    RowOfMarked(r, 3);
    RowOfMarked(r, 4);
    RowOfMarked(r, 5);
    RowOfMarked(r, 6);
    RowOfMarked(r, 7);
    UpperRows(r);
    LowerRows(r);
    OneRowHolds(r);
  }

  lemma EightTerms(p: Pixels, y: nat)
    ensures InRow(p, 0, y, 8) == One(p(0, y)) + One(p(1, y)) + One(p(2, y)) + One(p(3, y))
                                 + One(p(4, y)) + One(p(5, y)) + One(p(6, y)) + One(p(7, y))
  {
    assert InRow(p, 0, y, 1) == One(p(0, y));
    assert InRow(p, 0, y, 2) == InRow(p, 0, y, 1) + One(p(1, y));
    assert InRow(p, 0, y, 4) == InRow(p, 0, y, 2) + One(p(2, y)) + One(p(3, y));
    assert InRow(p, 0, y, 6) == InRow(p, 0, y, 4) + One(p(4, y)) + One(p(5, y));
  }

  lemma EightRows(p: Pixels)
    ensures InBlock(p, 0, 0, 8) == InRow(p, 0, 0, 8) + InRow(p, 0, 1, 8) + InRow(p, 0, 2, 8) + InRow(p, 0, 3, 8)
                                   + InRow(p, 0, 4, 8) + InRow(p, 0, 5, 8) + InRow(p, 0, 6, 8) + InRow(p, 0, 7, 8)
  {
    hide InRow;
    assert InBlock(p, 0, 0, 2) == InRow(p, 0, 0, 8) + InRow(p, 0, 1, 8);
    assert InBlock(p, 0, 0, 4) == InBlock(p, 0, 0, 2) + InRow(p, 0, 2, 8) + InRow(p, 0, 3, 8);
    assert InBlock(p, 0, 0, 6) == InBlock(p, 0, 0, 4) + InRow(p, 0, 4, 8) + InRow(p, 0, 5, 8);
  }

  lemma {:induction false} AlignedTone(v: nat)
    requires v <= 255
    ensures InBlock(Lit(v), 0, 0, 8) == (v + 1) / 4
  {
    hide InRow, InBlock, Rank;
    if v == 0 {
      NothingLit(8);
    } else {
      AlignedTone(v - 1);
      BlockBrightens(v - 1, 8);
      if (v - 1) % 4 == 2 {
        OneOfEachRank((v - 1) / 4);
      }
    }
  }

  lemma {:induction false} NothingLit(m: nat)
    ensures InBlock(Lit(0), 0, 0, m) == 0
  {
    hide InRow, Rank;
    if m > 0 {
      NothingLit(m - 1);
      RowUnlit(m - 1, 8);
    }
  }

  lemma {:induction false} RowUnlit(y: nat, n: nat)
    ensures InRow(Lit(0), 0, y, n) == 0
  {
    hide Rank;
    if n > 0 {
      RowUnlit(y, n - 1);
    }
  }

  // ------------------------------------------------------------------
  // Images
  // ------------------------------------------------------------------

  /** Two pictures that agree on a window hold the same number of white pixels there. */
  lemma {:induction false} SameInRow(p: Pixels, q: Pixels, x: nat, y: nat, n: nat)
    requires forall i: nat :: x <= i < x + n ==> p(i, y) == q(i, y)
    ensures InRow(p, x, y, n) == InRow(q, x, y, n)
  {
    if n > 0 {
      SameInRow(p, q, x, y, n - 1);
    }
  }

  lemma {:induction false} SameInBlock(p: Pixels, q: Pixels, x: nat, y: nat, m: nat)
    requires forall i: nat, j: nat :: x <= i < x + 8 && y <= j < y + m ==> p(i, j) == q(i, j)
    ensures InBlock(p, x, y, m) == InBlock(q, x, y, m)
  {
    if m > 0 {
      SameInBlock(p, q, x, y, m - 1);
      SameInRow(p, q, x, y + m - 1, 8);
    }
  }

  /**
   * Tone is kept: a window of eight by eight over a uniform gray v, aligned to the tile or not, has
   * floor((v + 1) / 4) white pixels. `gray` is any picture and `white` its ordered dither.
   */
  lemma WindowTone(gray: (nat, nat) -> byte, white: Pixels, x: nat, y: nat, v: byte)
    requires forall i: nat, j: nat :: x <= i < x + 8 && y <= j < y + 8 ==> gray(i, j) == v
    requires forall i: nat, j: nat :: x <= i < x + 8 && y <= j < y + 8 ==> white(i, j) == (gray(i, j) > Cell(i, j))
    ensures InBlock(white, x, y, 8) == (v + 1) / 4
  {
    SameInBlock(white, Lit(v), x, y, 8);
    LitIsTiled(v);
    BlockAnywhere(Lit(v), x, y);
    AlignedTone(v);
  }

  lemma RankRepeats(x: nat, y: nat)
    ensures Rank(x + 8, y) == Rank(x, y) && Rank(x, y + 8) == Rank(x, y)
  {
  }

  lemma LitIsTiled(v: int)
    ensures Tiled(Lit(v))
  {
    forall x: nat, y: nat
      ensures Cell(x + 8, y) == Cell(x, y) && Cell(x, y + 8) == Cell(x, y)
    {
      RankRepeats(x, y);
    }
    hide Rank;
  }

  // ------------------------------------------------------------------
  // The threshold image
  // ------------------------------------------------------------------

  /** `canvas.paste(tile, (x, y))`, clipped to the canvas. */
  method PasteTile(canvas: array2<byte>, x: nat, y: nat)
    requires x % 8 == 0 && y % 8 == 0
    modifies canvas
    ensures forall i, j :: 0 <= i < canvas.Length1 && 0 <= j < canvas.Length0 ==>
              canvas[j, i] == if x <= i < x + 8 && y <= j < y + 8 then Cell(i, j) else old(canvas[j, i])
  {
    forall i, j | x <= i < Min(x + 8, canvas.Length1) && y <= j < Min(y + 8, canvas.Length0) {
      canvas[j, i] := Cell(i, j);
    }
  }

  /** `_bayer_tile`: the tiles laid row by row cover every pixel, the last ones cut off at the edges. */
  method BayerTile(width: nat, height: nat) returns (canvas: array2<byte>)
    ensures fresh(canvas) && canvas.Length1 == width && canvas.Length0 == height
    ensures forall i, j :: 0 <= i < width && 0 <= j < height ==> canvas[j, i] == Cell(i, j)
  {
    canvas := new byte[height, width]((_, _) => 0);
    var y := 0;
    while y < height
      invariant y % 8 == 0
      invariant forall i, j :: 0 <= i < width && 0 <= j < Min(y, height) ==> canvas[j, i] == Cell(i, j)
    {
      var x := 0;
      while x < width
        invariant x % 8 == 0
        invariant forall i, j :: 0 <= i < width && 0 <= j < Min(y, height) ==> canvas[j, i] == Cell(i, j)
        invariant forall i, j :: 0 <= i < Min(x, width) && y <= j < Min(y + 8, height) ==> canvas[j, i] == Cell(i, j)
      {
        PasteTile(canvas, x, y);
        x := x + 8;
      }
      y := y + 8;
    }
  }
}
