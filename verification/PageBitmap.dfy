/** Received rows as an image (`PageBuffer.image`) and a prepared image as bytes (`image_to_bitmap`). */
module PageBitmap {
  import opened Bytes
  import opened PageSession
  import opened PageGeometry
  import opened Dither

  // ------------------------------------------------------------------
  // Eight pixels in a byte, the leftmost in the highest bit
  // ------------------------------------------------------------------

  function Weight(j: nat): (w: nat)
    requires j < 8
    ensures w >= 1
  {
    match j
    case 0 => 128
    case 1 => 64
    case 2 => 32
    case 3 => 16
    case 4 => 8
    case 5 => 4
    case 6 => 2
    case 7 => 1
  }

  /** Bit j of a byte, from the left. */
  predicate Ink(b: byte, j: nat)
    requires j < 8
  {
    b / Weight(j) % 2 == 1
  }

  function Bit(ink: bool): (b: nat)
    ensures b <= 1
  {
    if ink then 1 else 0
  }

  function Packed8(a: bool, b: bool, c: bool, d: bool, e: bool, f: bool, g: bool, h: bool): byte {
    128 * Bit(a) + 64 * Bit(b) + 32 * Bit(c) + 16 * Bit(d) + 8 * Bit(e) + 4 * Bit(f) + 2 * Bit(g) + Bit(h)
  }

  lemma OneBitDown(v: byte, j: nat)
    requires 1 <= j < 8
    ensures v / Weight(j) == 2 * (v / Weight(j - 1)) + Bit(Ink(v, j))
  {
    assert v / Weight(j) / 2 == v / Weight(j - 1);
  }

  /** Taking the lowest of the bits still there. */
  lemma LastBit(v: byte, j: nat, q: nat, b: bool)
    requires j < 8 && v / Weight(j) == 2 * q + Bit(b)
    ensures Ink(v, j) == b
    ensures j > 0 ==> v / Weight(j - 1) == q
  {
    if j > 0 {
      OneBitDown(v, j);
    }
  }

  lemma PackedByHalves(a: bool, b: bool, c: bool, d: bool, e: bool, f: bool, g: bool, h: bool)
    ensures Packed8(a, b, c, d, e, f, g, h) / Weight(7)
            == 2 * (2 * (2 * (2 * (2 * (2 * (2 * Bit(a) + Bit(b)) + Bit(c)) + Bit(d)) + Bit(e)) + Bit(f)) + Bit(g))
            + Bit(h)
  {
  }

  lemma UnpackPacked(a: bool, b: bool, c: bool, d: bool, e: bool, f: bool, g: bool, h: bool)
    ensures var v := Packed8(a, b, c, d, e, f, g, h);
            && Ink(v, 0) == a && Ink(v, 1) == b && Ink(v, 2) == c && Ink(v, 3) == d
            && Ink(v, 4) == e && Ink(v, 5) == f && Ink(v, 6) == g && Ink(v, 7) == h
  {
    hide Ink, Weight, Packed8, Bit;
    var v := Packed8(a, b, c, d, e, f, g, h);
    var q2 := 2 * Bit(a) + Bit(b);
    var q3 := 2 * q2 + Bit(c);
    var q4 := 2 * q3 + Bit(d);
    var q5 := 2 * q4 + Bit(e);
    var q6 := 2 * q5 + Bit(f);
    var q7 := 2 * q6 + Bit(g);
    PackedByHalves(a, b, c, d, e, f, g, h);
    LastBit(v, 7, q7, h);
    LastBit(v, 6, q6, g);
    LastBit(v, 5, q5, f);
    LastBit(v, 4, q4, e);
    LastBit(v, 3, q3, d);
    LastBit(v, 2, q2, c);
    LastBit(v, 1, Bit(a), b);
    LastBit(v, 0, 0, a);
  }

  lemma PackUnpacked(v: byte)
    ensures Packed8(Ink(v, 0), Ink(v, 1), Ink(v, 2), Ink(v, 3), Ink(v, 4), Ink(v, 5), Ink(v, 6), Ink(v, 7)) == v
  {
    var a := v / Weight(0);
    assert a == Bit(Ink(v, 0));
    OneBitDown(v, 1);
    OneBitDown(v, 2);
    OneBitDown(v, 3);
    OneBitDown(v, 4);
    OneBitDown(v, 5);
    OneBitDown(v, 6);
    OneBitDown(v, 7);
    assert v / Weight(7) == v;
    hide Ink, Weight;
  }

  /** The leftmost pixel is the highest bit, and doubling a byte moves its pixels one to the left. */
  lemma LeftmostIsHighest(v: byte, j: nat)
    requires j < 7
    ensures Ink(v, 0) <==> v >= 128
    ensures Ink(v, j + 1) <==> Ink(2 * v % 256, j)
    ensures Ink(v, 7) <==> v % 2 == 1
  {
    HighestAndLowest(v);
    hide Ink, Packed8, Bit;
    PackUnpacked(v);
    var b, c, d, e, f, g, h := Ink(v, 1), Ink(v, 2), Ink(v, 3), Ink(v, 4), Ink(v, 5), Ink(v, 6), Ink(v, 7);
    Shifted(Ink(v, 0), b, c, d, e, f, g, h);
    UnpackPacked(b, c, d, e, f, g, h, false);
    assert j == 0 || j == 1 || j == 2 || j == 3 || j == 4 || j == 5 || j == 6;
  }

  lemma HighestAndLowest(v: byte)
    ensures Ink(v, 0) <==> v >= 128
    ensures Ink(v, 7) <==> v % 2 == 1
  {
  }

  lemma Shifted(a: bool, b: bool, c: bool, d: bool, e: bool, f: bool, g: bool, h: bool)
    ensures 2 * Packed8(a, b, c, d, e, f, g, h) % 256 == Packed8(b, c, d, e, f, g, h, false)
  {
    var low := Packed8(false, b, c, d, e, f, g, h);
    assert Packed8(a, b, c, d, e, f, g, h) == 128 * Bit(a) + low && low < 128;
    assert Packed8(b, c, d, e, f, g, h, false) == 2 * low;
  }

  // ------------------------------------------------------------------
  // image_to_bitmap
  // ------------------------------------------------------------------

  /** The eight pixels from column x on, black as ink. */
  ghost function PackedAt(img: Image, x: nat, y: nat): byte
    requires x + 8 <= img.Length1 && y < img.Length0
    reads img
  {
    Packed8(img[y, x] == 0, img[y, x + 1] == 0, img[y, x + 2] == 0, img[y, x + 3] == 0,
            img[y, x + 4] == 0, img[y, x + 5] == 0, img[y, x + 6] == 0, img[y, x + 7] == 0)
  }

  /** The first n bytes of row y. */
  ghost function PackedRow(img: Image, y: nat, n: nat): (b: seq<byte>)
    requires 8 * n <= img.Length1 && y < img.Length0
    reads img
    ensures |b| == n
    ensures forall k :: 0 <= k < n ==> b[k] == PackedAt(img, 8 * k, y)
  {
    if n == 0 then [] else PackedRow(img, y, n - 1) + [PackedAt(img, 8 * (n - 1), y)]
  }

  /** The first n rows, one after the other. */
  ghost function PackedRows(img: Image, n: nat): seq<byte>
    requires n <= img.Length0
    reads img
  {
    if n == 0 then [] else PackedRows(img, n - 1) + PackedRow(img, n - 1, img.Length1 / 8)
  }

  /** The byte at (x, y); rb is the length of a row. */
  function At(rb: nat, x: nat, y: nat): nat { y * rb + x }

  lemma AtInside(rb: nat, x: nat, y: nat, rows: nat)
    requires x < rb && y < rows
    ensures At(rb, x, y) < rows * rb
    ensures At(rb, x, y) == At(rb, 0, y) + x && At(rb, 0, y + 1) == At(rb, 0, y) + rb
  {
    MulMonotone(y + 1, rows, rb);
  }

  lemma AtRow(rb: nat, x: nat, y: nat)
    ensures At(rb, x, y) == y * rb + x
  {
  }

  lemma {:induction false} PackedSize(img: Image, n: nat)
    requires n <= img.Length0
    ensures |PackedRows(img, n)| == n * (img.Length1 / 8)
  {
    if n > 0 {
      PackedSize(img, n - 1);
      MulSplit(n, n - 1, img.Length1 / 8);
    }
  }

  /** Row y of the bitmap. */
  lemma {:induction false} PackedByte(img: Image, n: nat, x: nat, y: nat)
    requires y < n <= img.Length0 && x < img.Length1 / 8
    ensures At(img.Length1 / 8, x, y) < |PackedRows(img, n)|
    ensures PackedRows(img, n)[At(img.Length1 / 8, x, y)] == PackedAt(img, 8 * x, y)
  {
    hide At, PackedAt;
    var rb := img.Length1 / 8;
    PackedSize(img, n - 1);
    var before, row := PackedRows(img, n - 1), PackedRow(img, n - 1, rb);
    AtRow(rb, x, y);
    if y < n - 1 {
      PackedByte(img, n - 1, x, y);
    } else {
      assert (before + row)[|before| + x] == row[x];
    }
  }

  /** Every pixel of the image is one bit of its bitmap, black set. */
  lemma BitmapBits(img: Image, x: nat, y: nat)
    requires img.Length1 % 8 == 0 && x < img.Length1 && y < img.Length0
    ensures At(img.Length1 / 8, x / 8, y) < |PackedRows(img, img.Length0)|
    ensures Ink(PackedRows(img, img.Length0)[At(img.Length1 / 8, x / 8, y)], x % 8) <==> img[y, x] == 0
  {
    hide PackedRows, At, Ink, Packed8;
    PackedByte(img, img.Length0, x / 8, y);
    var k := 8 * (x / 8);
    UnpackPacked(img[y, k] == 0, img[y, k + 1] == 0, img[y, k + 2] == 0, img[y, k + 3] == 0,
                 img[y, k + 4] == 0, img[y, k + 5] == 0, img[y, k + 6] == 0, img[y, k + 7] == 0);
    assert x == k + x % 8;
  }

  method PackRow(img: Image, y: nat) returns (row: seq<byte>)
    requires y < img.Length0
    ensures row == PackedRow(img, y, img.Length1 / 8)
  {
    hide Packed8;
    row := [];
    for k := 0 to img.Length1 / 8
      invariant row == PackedRow(img, y, k)
    {
      var x := 8 * k;
      row := row + [Packed8(img[y, x] == 0, img[y, x + 1] == 0, img[y, x + 2] == 0, img[y, x + 3] == 0,
                            img[y, x + 4] == 0, img[y, x + 5] == 0, img[y, x + 6] == 0, img[y, x + 7] == 0)];
    }
  }

  /** `image_to_bitmap`; None is the ValueError for a width that is not a multiple of eight. */
  method ImageToBitmap(img: Image) returns (bitmap: Option<seq<byte>>)
    requires OneBit(img)
    ensures bitmap == if img.Length1 % 8 == 0 then Some(PackedRows(img, img.Length0)) else None
  {
    if img.Length1 % 8 != 0 {
      return None;
    }
    var bytes: seq<byte> := [];
    for y := 0 to img.Length0
      invariant bytes == PackedRows(img, y)
    {
      var row := PackRow(img, y);
      bytes := bytes + row;
    }
    bitmap := Some(bytes);
  }

  // ------------------------------------------------------------------
  // PageBuffer.image
  // ------------------------------------------------------------------

  /** The pixel at (x, y) of received rows: a gray level, or in a 1-bit page black where the bit is set. */
  function Received(spec: PageSpec, rows: nat, data: seq<byte>, x: nat, y: nat): byte
    requires spec.Valid() && |data| == rows * spec.RowBytes() && x < spec.width && y < rows
  {
    PixelByte(spec, rows, x, y);
    var rb := spec.RowBytes();
    if spec.bits == 8 then data[At(rb, x, y)]
    else if Ink(data[At(rb, x / 8, y)], x % 8) then 0 else 255
  }

  lemma PixelByte(spec: PageSpec, rows: nat, x: nat, y: nat)
    requires spec.Valid() && x < spec.width && y < rows
    ensures spec.bits == 8 ==> At(spec.RowBytes(), x, y) < rows * spec.RowBytes()
    ensures spec.bits == 1 ==> At(spec.RowBytes(), x / 8, y) < rows * spec.RowBytes()
  {
    AtInside(spec.RowBytes(), if spec.bits == 8 then x else x / 8, y, rows);
  }

  ghost predicate IsReceived(img: Image, spec: PageSpec, rows: nat, data: seq<byte>)
    requires spec.Valid() && |data| == rows * spec.RowBytes()
    reads img
  {
    && img.Length1 == spec.width && img.Length0 == rows
    && forall x, y :: 0 <= x < spec.width && 0 <= y < rows ==> img[y, x] == Received(spec, rows, data, x, y)
  }

  method PageImage(spec: PageSpec, rows: nat, data: seq<byte>) returns (img: Image)
    requires spec.Valid() && |data| == rows * spec.RowBytes()
    ensures fresh(img) && IsReceived(img, spec, rows, data)
    ensures spec.bits == 1 ==> OneBit(img)
  {
    hide Ink, At, PageSpec.RowBytes;
    img := new byte[rows, spec.width]((_, _) => 0);
    forall x, y | 0 <= x < spec.width && 0 <= y < rows {
      img[y, x] := Received(spec, rows, data, x, y);
    }
  }

  // ------------------------------------------------------------------
  // From received rows to the bitmap that is printed
  // ------------------------------------------------------------------

  /** A byte of an untouched row comes out as it came in. */
  lemma ByteKept(out: Image, spec: PageSpec, rows: nat, data: seq<byte>, x: nat, y: nat, from: nat)
    requires spec.Valid() && spec.bits == 1 && |data| == rows * spec.RowBytes()
    requires y < out.Length0 && out.Length1 == spec.width && from + out.Length0 <= rows && x < spec.RowBytes()
    requires forall i, j :: 0 <= i < out.Length1 && 0 <= j < out.Length0 ==>
               out[j, i] == Received(spec, rows, data, i, j + from)
    ensures At(spec.RowBytes(), x, y + from) < |data| && 8 * x + 8 <= out.Length1
    ensures PackedAt(out, 8 * x, y) == data[At(spec.RowBytes(), x, y + from)]
  {
    AtInside(spec.RowBytes(), x, y + from, rows);
    var v := data[At(spec.RowBytes(), x, y + from)];
    forall j: nat | j < 8
      ensures (out[y, 8 * x + j] == 0) == Ink(v, j)
    {
      assert (8 * x + j) / 8 == x && (8 * x + j) % 8 == j;
      assert out[y, 8 * x + j] == Received(spec, rows, data, 8 * x + j, y + from);
    }
    hide Ink;
    PackUnpacked(v);
  }

  lemma RowKept(out: Image, spec: PageSpec, rows: nat, data: seq<byte>, y: nat, from: nat)
    requires spec.Valid() && spec.bits == 1 && |data| == rows * spec.RowBytes()
    requires y < out.Length0 && out.Length1 == spec.width && from + out.Length0 <= rows
    requires forall i, j :: 0 <= i < out.Length1 && 0 <= j < out.Length0 ==>
               out[j, i] == Received(spec, rows, data, i, j + from)
    ensures 8 * spec.RowBytes() == out.Length1
    ensures At(spec.RowBytes(), 0, from + y) <= At(spec.RowBytes(), 0, from + y + 1) <= |data|
    ensures PackedRow(out, y, spec.RowBytes())
            == data[At(spec.RowBytes(), 0, from + y)..At(spec.RowBytes(), 0, from + y + 1)]
  {
    hide PackedAt, Received;
    var rb := spec.RowBytes();
    assert 8 * rb == out.Length1;
    var row := PackedRow(out, y, rb);
    AtInside(rb, 0, y + from, rows);
    MulMonotone(y + from + 1, rows, rb);
    forall k | 0 <= k < rb
      ensures At(rb, k, y + from) < |data| && row[k] == data[At(rb, k, y + from)]
    {
      ByteKept(out, spec, rows, data, k, y, from);
    }
    hide PackedRow, At;
    assert forall k :: 0 <= k < rb ==> row[k] == data[At(rb, 0, y + from) + k] by {
      forall k | 0 <= k < rb
        ensures row[k] == data[At(rb, 0, y + from) + k]
      {
        AtInside(rb, k, y + from, rows);
      }
    }
  }

  lemma Grown(out: Image, rb: nat, n: nat, data: seq<byte>, a: nat, b: nat, c: nat)
    requires 1 <= n <= out.Length0 && 8 * rb == out.Length1 && a <= b <= c <= |data|
    requires PackedRows(out, n - 1) == data[a..b] && PackedRow(out, n - 1, rb) == data[b..c]
    ensures PackedRows(out, n) == data[a..c]
  {
    hide PackedRow;
    SliceSplit(data, a, b, c);
  }

  lemma {:induction false} RowsKept(out: Image, spec: PageSpec, rows: nat, data: seq<byte>, n: nat, from: nat)
    requires spec.Valid() && spec.bits == 1 && |data| == rows * spec.RowBytes()
    requires n <= out.Length0 && out.Length1 == spec.width && from + out.Length0 <= rows
    requires forall i, j :: 0 <= i < out.Length1 && 0 <= j < out.Length0 ==>
               out[j, i] == Received(spec, rows, data, i, j + from)
    ensures At(spec.RowBytes(), 0, from) <= At(spec.RowBytes(), 0, from + n) <= |data|
    ensures PackedRows(out, n) == data[At(spec.RowBytes(), 0, from)..At(spec.RowBytes(), 0, from + n)]
  {
    hide PackedRows, PackedRow, At, Received, PageSpec.RowBytes, PageSpec.Valid;
    var rb := spec.RowBytes();
    if n == 0 {
      NoRowsKept(out, data, rows, rb, from);
    } else {
      RowsKept(out, spec, rows, data, n - 1, from);
      RowKept(out, spec, rows, data, n - 1, from);
      assert from + (n - 1) + 1 == from + n;
      Grown(out, rb, n, data, At(rb, 0, from), At(rb, 0, from + (n - 1)), At(rb, 0, from + n));
    }
  }

  lemma NoRowsKept(out: Image, data: seq<byte>, rows: nat, rb: nat, from: nat)
    requires |data| == rows * rb && from <= rows
    ensures At(rb, 0, from) <= |data|
    ensures PackedRows(out, 0) == data[At(rb, 0, from)..At(rb, 0, from)]
  {
    MulMonotone(from, rows, rb);
  }

  /** What is between the raster received and the bitmap printed, when nothing has to be converted. */
  lemma PassThrough(img: Image, out: Image, spec: PageSpec, rows: nat, data: seq<byte>, p: Profile, limit: Limit)
    requires spec.Valid() && spec.bits == 1 && |data| == rows * spec.RowBytes() && IsReceived(img, spec, rows, data)
    requires spec.width == p.width && p.LeadRows() >= 0
    requires IsPrepared(out, img, false, spec.tone, false, p, limit)
    ensures var rb, lead := spec.RowBytes(), p.LeadRows();
            && At(rb, 0, lead) <= At(rb, 0, lead + out.Length0) <= |data|
            && PackedRows(out, out.Length0) == data[At(rb, 0, lead)..At(rb, 0, lead + out.Length0)]
  {
    hide Profile.LeadRows, At, Ink, Received, PageSpec.RowBytes, PackedRows;
    var lead := p.LeadRows();
    assert lead + out.Length0 <= rows && out.Length1 == spec.width;
    hide IsPrepared, IsReceived;
    forall i, j | 0 <= i < out.Length1 && 0 <= j < out.Length0
      ensures out[j, i] == Received(spec, rows, data, i, j + lead)
    {
      PixelPasses(img, out, spec, rows, data, p, limit, i, j);
    }
    RowsKept(out, spec, rows, data, out.Length0, lead);
  }

  lemma PixelPasses(img: Image, out: Image, spec: PageSpec, rows: nat, data: seq<byte>, p: Profile, limit: Limit,
                    i: nat, j: nat)
    requires spec.Valid() && spec.bits == 1 && |data| == rows * spec.RowBytes() && IsReceived(img, spec, rows, data)
    requires spec.width == p.width && p.LeadRows() >= 0 && i < out.Length1 && j < out.Length0
    requires IsPrepared(out, img, false, spec.tone, false, p, limit)
    ensures i < spec.width && j + p.LeadRows() < rows && out[j, i] == Received(spec, rows, data, i, j + p.LeadRows())
  {
    hide Profile.LeadRows, Received, PageSpec.RowBytes;
    assert Offset(spec.width, p.width) == 0;
    assert out[j, i] == Across(img, false, p.width, i, j + p.LeadRows());
  }

  /** Rows of the page as printed, before the lead is dropped. */
  function Tall(spec: PageSpec, rows: nat): nat { if spec.rotate then spec.width else rows }

  /** Rows that reach the paper. */
  function PrintedRows(spec: PageSpec, rows: nat, p: Profile): int {
    Bottom(Tall(spec, rows), p.LeadRows(), RowsFor(p, spec.mediaLength)) - p.LeadRows()
  }

  lemma PreparedSize(out: Image, img: Image, gray: bool, tone: Tone, turn: bool, p: Profile, limit: Limit)
    requires IsPrepared(out, img, gray, tone, turn, p, limit)
    ensures out.Length1 == p.width && out.Length0 == Bottom(Height(img, turn), p.LeadRows(), limit) - p.LeadRows()
    ensures limit.Rows? ==> out.Length0 <= limit.rows
  {
  }

  // ------------------------------------------------------------------
  // Dot by dot
  // ------------------------------------------------------------------

  /** Column x, row y of the bits, a row in `rb` bytes. */
  predicate Set(bits: seq<byte>, rb: nat, x: nat, y: nat)
    requires At(rb, x / 8, y) < |bits|
  {
    Ink(bits[At(rb, x / 8, y)], x % 8)
  }

  /**
   * Whether the sheet is to be black at column x, row j below the lead. Gray is black under the
   * threshold, or up to the rank of its place; beside the page the sheet is white, above it black.
   */
  predicate Black(spec: PageSpec, rows: nat, data: seq<byte>, p: Profile, x: nat, j: nat)
    requires spec.Valid() && |data| == rows * spec.RowBytes() && j + p.LeadRows() < Tall(spec, rows)
  {
    var y := j + p.LeadRows();
    var w := if spec.rotate then rows else spec.width;
    var left := if w < p.width then (p.width - w) / 2 else 0;
    if y < 0 then true
    else if x < left || left + w <= x then false
    else
      var column, row := if spec.rotate then spec.width - 1 - y else x - left, if spec.rotate then x - left else y;
      PixelByte(spec, rows, column, row);
      if spec.bits == 1 then Set(data, spec.RowBytes(), column, row)
      else
        var v := data[At(spec.RowBytes(), column, row)];
        if spec.tone == Threshold then v < 128 else v <= 4 * BAYER[j % 8][x % 8] + 2
  }

  /** The bit for column x, row j is there, and set exactly for black. */
  predicate ShowsDot(bits: seq<byte>, spec: PageSpec, rows: nat, data: seq<byte>, p: Profile, x: nat, j: nat)
    requires spec.Valid() && |data| == rows * spec.RowBytes()
  {
    && j + p.LeadRows() < Tall(spec, rows) && At(p.WidthBytes(), x / 8, j) < |bits|
    && (Set(bits, p.WidthBytes(), x, j) <==> Black(spec, rows, data, p, x, j))
  }

  /** The bits are the page, dot by dot. */
  predicate Shows(bits: seq<byte>, spec: PageSpec, rows: nat, data: seq<byte>, p: Profile, height: int)
    requires spec.Valid() && |data| == rows * spec.RowBytes()
  {
    forall x: nat, j: nat :: x < p.width && j < height ==> ShowsDot(bits, spec, rows, data, p, x, j)
  }

  lemma DotOfPage(img: Image, out: Image, spec: PageSpec, rows: nat, data: seq<byte>, p: Profile, limit: Limit,
                  x: nat, j: nat)
    requires spec.Valid() && |data| == rows * spec.RowBytes() && IsReceived(img, spec, rows, data)
    requires IsPrepared(out, img, spec.bits == 8, spec.tone, spec.rotate, p, limit)
    requires spec.bits == 1 || spec.tone != Diffusion
    requires x < out.Length1 && j < out.Length0
    ensures j + p.LeadRows() < Tall(spec, rows) && (out[j, x] == 0 <==> Black(spec, rows, data, p, x, j))
  {
    hide Profile.LeadRows, RowsFor, At, PageSpec.RowBytes, Ink;
    assert out[j, x] == Toned(spec.bits == 8, spec.tone, Across(img, spec.rotate, p.width, x, j + p.LeadRows()), x, j);
  }

  lemma SetAt(out: Image, x: nat, j: nat)
    requires out.Length1 % 8 == 0 && x < out.Length1 && j < out.Length0
    ensures At(out.Length1 / 8, x / 8, j) < |PackedRows(out, out.Length0)|
    ensures Set(PackedRows(out, out.Length0), out.Length1 / 8, x, j) <==> out[j, x] == 0
  {
    hide At, Ink, PackedRows;
    BitmapBits(out, x, j);
  }

  /** The bitmap of a prepared page shows the page received. */
  lemma BitmapShows(img: Image, out: Image, spec: PageSpec, rows: nat, data: seq<byte>, p: Profile, limit: Limit)
    requires spec.Valid() && p.Valid() && |data| == rows * spec.RowBytes() && IsReceived(img, spec, rows, data)
    requires IsPrepared(out, img, spec.bits == 8, spec.tone, spec.rotate, p, limit)
    requires spec.bits == 1 || spec.tone != Diffusion
    ensures Shows(PackedRows(out, out.Length0), spec, rows, data, p, out.Length0)
  {
    hide Profile.LeadRows, RowsFor, At, PageSpec.RowBytes, Ink, Black, PackedRows;
    assert out.Length1 == p.width && p.width / 8 == p.WidthBytes();
    hide IsPrepared, IsReceived, Set;
    forall x: nat, j: nat | x < p.width && j < out.Length0
      ensures ShowsDot(PackedRows(out, out.Length0), spec, rows, data, p, x, j)
    {
      DotOfPage(img, out, spec, rows, data, p, limit, x, j);
      SetAt(out, x, j);
    }
  }

  /** `prepare_page` and `image_to_bitmap` as `page_end` calls them; None is a ValueError of either. */
  method PageToBitmap(spec: PageSpec, rows: nat, data: seq<byte>, p: Profile) returns (bitmap: Option<seq<byte>>)
    requires spec.Valid() && p.Valid() && |data| == rows * spec.RowBytes()
    ensures bitmap.None? <==> Tall(spec, rows) <= p.LeadRows() || RowsFor(p, spec.mediaLength).NothingPrintable?
    ensures bitmap.Some? ==>
              var height := PrintedRows(spec, rows, p);
              && 0 <= height && |bitmap.value| == height * p.WidthBytes()
              && (RowsFor(p, spec.mediaLength).NoLimit? ==> height == Tall(spec, rows) - p.LeadRows())
              && (RowsFor(p, spec.mediaLength).Rows? ==>
                    height == Min(Tall(spec, rows) - p.LeadRows(), RowsFor(p, spec.mediaLength).rows))
    ensures bitmap.Some? && spec.bits == 1 && !spec.rotate && spec.width == p.width && p.LeadRows() >= 0 ==>
              var from := At(spec.RowBytes(), 0, p.LeadRows());
              var end := At(spec.RowBytes(), 0, p.LeadRows() + PrintedRows(spec, rows, p));
              from <= end <= |data| && bitmap.value == data[from..end]
    ensures bitmap.Some? && (spec.bits == 1 || spec.tone != Diffusion) ==>
              Shows(bitmap.value, spec, rows, data, p, PrintedRows(spec, rows, p))
  {
    hide Profile.LeadRows, RowsFor, At, PageSpec.RowBytes, Across, Received, Toned, PackedRows, Shows;
    var img := PageImage(spec, rows, data);
    var error, out := PreparePage(img, spec.bits == 8, p, spec.mediaLength, spec.tone, spec.rotate);
    if error.Some? {
      return None;
    }
    PreparedSize(out, img, spec.bits == 8, spec.tone, spec.rotate, p, RowsFor(p, spec.mediaLength));
    bitmap := ImageToBitmap(out);
    PackedSize(out, out.Length0);
    if spec.bits == 1 || spec.tone != Diffusion {
      BitmapShows(img, out, spec, rows, data, p, RowsFor(p, spec.mediaLength));
    }
    hide IsReceived, IsPrepared, OneBit;
    if spec.bits == 1 && !spec.rotate && spec.width == p.width && p.LeadRows() >= 0 {
      PassThrough(img, out, spec, rows, data, p, RowsFor(p, spec.mediaLength));
    }
  }
}
