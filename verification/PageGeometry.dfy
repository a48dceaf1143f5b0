/**
 * A client's raster on the sheet: the margins in rows (`registry.py`) and the way from the raster to
 * the printable area (`imaging.py`).
 *
 * An image is an array of rows; a 1-bit image holds 0 (black) and 255 (white), as Pillow keeps it.
 */
module PageGeometry {
  import opened Bytes
  import opened PageSession
  import opened Dither

  // ------------------------------------------------------------------
  // Margins in rows
  // ------------------------------------------------------------------

  datatype Profile = Profile(width: nat, dpi: nat, top: real, bottom: real) {
    ghost predicate Valid() { width % 8 == 0 && width > 0 }

    function WidthBytes(): nat { width / 8 }

    /** Rows covered by the top margin. */
    function LeadRows(): int { Round(Dots(top)) }

    function Dots(mm: real): real { mm / 25.4 * dpi as real }
  }

  datatype Limit = NoLimit | Rows(rows: nat) | NothingPrintable

  /** Python's `round`: to the nearest integer, a tie to the even one. */
  function Round(x: real): int {
    var down := x.Floor;
    var rest := x - down as real;
    if rest < 0.5 || (rest == 0.5 && down % 2 == 0) then down else down + 1
  }

  lemma RoundIsNearest(x: real)
    ensures -0.5 <= x - Round(x) as real <= 0.5
    ensures x - Round(x) as real == 0.5 || x - Round(x) as real == -0.5 ==> Round(x) % 2 == 0
  {
  }

  /** `rows_for`. */
  function RowsFor(p: Profile, length: Option<real>): Limit {
    if length.None? then NoLimit
    else
      var printable := length.value - p.top - p.bottom;
      if printable <= 0.0 then NothingPrintable else Rows(RowsIn(p, printable))
  }

  function RowsIn(p: Profile, printable: real): nat
    requires printable > 0.0
  {
    DotsArePositive(p, printable);
    p.Dots(printable).Floor
  }

  lemma DotsArePositive(p: Profile, mm: real)
    requires mm >= 0.0
    ensures p.Dots(mm) >= 0.0
  {
    var per := mm / 25.4;
    assert per >= 0.0;
    assert per * p.dpi as real >= 0.0;
  }

  /** An inch has as many dots as the profile says. */
  lemma InchOfDots(p: Profile)
    ensures p.Dots(25.4) == p.dpi as real
  {
  }

  lemma DotsAdd(p: Profile, a: real, b: real)
    ensures p.Dots(a) + p.Dots(b) == p.Dots(a + b)
  {
    var d := p.dpi as real;
    assert (a + b) / 25.4 == a / 25.4 + b / 25.4;
    assert (a / 25.4 + b / 25.4) * d == a / 25.4 * d + b / 25.4 * d;
  }

  /**
   * The rows fit between the margins, one more would not, and the lead and the rows together end
   * at most half a row beyond the bottom margin.
   */
  lemma RowsFitBetweenMargins(p: Profile, length: real)
    requires RowsFor(p, Some(length)).Rows?
    ensures var n := RowsFor(p, Some(length)).rows;
            && n as real <= p.Dots(length - p.top - p.bottom) < n as real + 1.0
            && (p.LeadRows() + n) as real <= p.Dots(length - p.bottom) + 0.5
  {
    RoundIsNearest(p.Dots(p.top));
    DotsAdd(p, p.top, length - p.top - p.bottom);
    assert p.top + (length - p.top - p.bottom) == length - p.bottom;
  }

  // ------------------------------------------------------------------
  // From the raster to the printable area
  // ------------------------------------------------------------------

  type Image = array2<byte>

  datatype PrepareError = InsideLead | NoPrintableLength

  function Width(img: Image, turn: bool): nat { if turn then img.Length0 else img.Length1 }

  function Height(img: Image, turn: bool): nat { if turn then img.Length1 else img.Length0 }

  /** Column x, row y of the raster, turned a quarter counter-clockwise or not. */
  ghost function Turned(img: Image, turn: bool, x: nat, y: nat): byte
    requires x < Width(img, turn) && y < Height(img, turn)
    reads img
  {
    if turn then img[x, img.Length1 - 1 - y] else img[y, x]
  }

  /** Columns left white on the left of a page narrower than the head. */
  function Offset(w: nat, width: nat): nat { Max(0, (width - w) / 2) }

  /** The page across the whole head: the raster, centred or its right part cut off, and white beside it. */
  ghost function Across(img: Image, turn: bool, width: nat, x: nat, y: int): byte
    requires y < Height(img, turn)
    reads img
  {
    var w := Width(img, turn);
    // Rows above the raster exist only for a negative margin; a crop fills them with zeros.
    if y < 0 then 0
    else if Offset(w, width) <= x < Offset(w, width) + Min(w, width) then Turned(img, turn, x - Offset(w, width), y)
    else 255
  }

  /**
   * A page narrower than the head is centred, the odd white column on the right; of a wider one the
   * left part is kept.
   */
  lemma Centred(img: Image, turn: bool, width: nat, y: nat) returns (left: nat)
    requires y < Height(img, turn)
    ensures var w := Width(img, turn);
            && (if w <= width then 2 * left <= width - w <= 2 * left + 1 else left == 0)
            && (forall x: nat :: x < w && x < width ==>
                  Across(img, turn, width, x + left, y) == Turned(img, turn, x, y))
            && (forall x: nat :: x < width && (x < left || x >= left + w) ==> Across(img, turn, width, x, y) == 255)
  {
    left := Offset(Width(img, turn), width);
  }

  /** Turned, the top edge of the raster is the left edge of the sheet, its left end at the bottom. */
  lemma TopEdgeGoesLeft(img: Image, c: nat)
    requires img.Length0 > 0 && c < img.Length1
    ensures Width(img, true) == img.Length0 && Height(img, true) == img.Length1
    ensures Turned(img, true, 0, img.Length1 - 1 - c) == img[0, c]
  {
  }

  function Level(white: bool): byte { if white then 255 else 0 }

  /** Threshold and ordered tone of a gray v at (x, y); 1-bit pixels are kept. */
  function Toned(gray: bool, tone: Tone, v: byte, x: nat, y: nat): byte
    requires !(gray && tone == Diffusion)
  {
    if !gray then v else Level(if tone == Threshold then v >= 128 else v > Cell(x, y))
  }

  /** The threshold splits the grays in half: a gray is white exactly if its opposite is black, lighter ones too. */
  lemma ThresholdHalves(v: byte, u: byte, x: nat, y: nat)
    ensures Toned(true, Threshold, v, x, y) == 255 || Toned(true, Threshold, v, x, y) == 0
    ensures Toned(true, Threshold, v, x, y) == 255 <==> Toned(true, Threshold, 255 - v, x, y) == 0
    ensures v <= u ==> Toned(true, Threshold, v, x, y) <= Toned(true, Threshold, u, x, y)
    ensures Toned(true, Threshold, 255, x, y) == 255
  {
  }

  /** Where the crop ends. */
  function Bottom(height: nat, lead: int, limit: Limit): int {
    if limit.Rows? then Min(height, lead + limit.rows) else height
  }

  /** `Image.transpose(ROTATE_90)`. */
  method Rotate90(img: Image) returns (out: Image)
    ensures fresh(out) && out.Length1 == Width(img, true) && out.Length0 == Height(img, true)
    ensures forall x, y :: 0 <= x < out.Length1 && 0 <= y < out.Length0 ==> out[y, x] == Turned(img, true, x, y)
  {
    out := new byte[img.Length1, img.Length0]((_, _) => 0);
    forall x, y | 0 <= x < out.Length1 && 0 <= y < out.Length0 {
      out[y, x] := img[x, img.Length1 - 1 - y];
    }
  }

  /** `Image.crop((left, top, right, bottom))` for a left and right inside the image. */
  method Crop(img: Image, left: nat, top: int, right: nat, bottom: int) returns (out: Image)
    requires left <= right <= img.Length1 && top <= bottom <= img.Length0
    ensures fresh(out) && out.Length1 == right - left && out.Length0 == bottom - top
    ensures forall x, y :: 0 <= x < out.Length1 && 0 <= y < out.Length0 ==>
              out[y, x] == if y + top < 0 then 0 else img[y + top, x + left]
  {
    out := new byte[bottom - top, right - left]((_, _) => 0);
    forall x, y | 0 <= x < out.Length1 && 0 <= y < out.Length0 {
      out[y, x] := if y + top < 0 then 0 else img[y + top, x + left];
    }
  }

  /** `canvas.paste(img, (x0, 0))` for an image that fits. */
  method Paste(canvas: Image, img: Image, x0: nat)
    requires canvas != img && x0 + img.Length1 <= canvas.Length1 && img.Length0 == canvas.Length0
    modifies canvas
    ensures forall x, y :: 0 <= x < canvas.Length1 && 0 <= y < canvas.Length0 ==>
              canvas[y, x] == if x0 <= x < x0 + img.Length1 then img[y, x - x0] else old(canvas[y, x])
  {
    forall x, y | x0 <= x < x0 + img.Length1 && 0 <= y < canvas.Length0 {
      canvas[y, x] := img[y, x - x0];
    }
  }

  /** `ImageChops.subtract` on one pixel. */
  function Subtract(v: byte, t: byte): byte { Max(0, v - t) }

  /** `_apply_tone`. What diffusion makes of the pixels is Pillow's; only the size is modelled. */
  method ApplyTone(img: Image, tone: Tone) returns (out: Image)
    ensures fresh(out) && out.Length1 == img.Length1 && out.Length0 == img.Length0
    ensures forall x, y :: 0 <= x < out.Length1 && 0 <= y < out.Length0 ==>
              && (out[y, x] == 0 || out[y, x] == 255)
              && (tone != Diffusion ==> out[y, x] == Toned(true, tone, img[y, x], x, y))
  {
    match tone
    case Threshold =>
      out := new byte[img.Length0, img.Length1]((_, _) => 0);
      forall x, y | 0 <= x < out.Length1 && 0 <= y < out.Length0 {
        out[y, x] := Level(img[y, x] >= 128);
      }
    case Ordered =>
      out := BayerTile(img.Length1, img.Length0);
      forall x, y | 0 <= x < out.Length1 && 0 <= y < out.Length0 {
        out[y, x] := Level(Subtract(img[y, x], out[y, x]) > 0);
      }
    case Diffusion =>
      out := new byte[img.Length0, img.Length1]((_, _) => 0);
      var white: array2<bool> := new bool[img.Length0, img.Length1];
      forall x, y | 0 <= x < out.Length1 && 0 <= y < out.Length0 {
        out[y, x] := Level(white[y, x]);
      }
  }

  /** The image holds only black and white. */
  ghost predicate OneBit(img: Image)
    reads img
  {
    forall x, y :: 0 <= x < img.Length1 && 0 <= y < img.Length0 ==> img[y, x] == 0 || img[y, x] == 255
  }

  /** What a prepared page is, pixel by pixel. */
  ghost predicate IsPrepared(out: Image, img: Image, gray: bool, tone: Tone, turn: bool, p: Profile, limit: Limit)
    reads out, img
  {
    var height := Height(img, turn);
    && p.LeadRows() < height
    && out.Length1 == p.width && out.Length0 == Bottom(height, p.LeadRows(), limit) - p.LeadRows()
    && (!(gray && tone == Diffusion) ==>
        forall x, y :: 0 <= x < out.Length1 && 0 <= y < out.Length0 ==>
          out[y, x] == Toned(gray, tone, Across(img, turn, p.width, x, y + p.LeadRows()), x, y))
  }

  /** The raster turned, and fitted to the head. */
  method FitAcross(img: Image, turn: bool, width: nat) returns (out: Image)
    ensures out.Length1 == width && out.Length0 == Height(img, turn)
    ensures forall x, y :: 0 <= x < width && 0 <= y < out.Length0 ==> out[y, x] == Across(img, turn, width, x, y)
  {
    out := img;
    if turn {
      out := Rotate90(out);
    }
    assert forall x, y :: 0 <= x < out.Length1 && 0 <= y < out.Length0 ==> out[y, x] == Turned(img, turn, x, y);
    if out.Length1 != width {
      var canvas := new byte[out.Length0, width]((_, _) => 255);
      var left := Crop(out, 0, 0, Min(out.Length1, width), out.Length0);
      Paste(canvas, left, Max(0, (width - out.Length1) / 2));
      out := canvas;
    }
  }

  /** `prepare_page`. */
  method PreparePage(img: Image, gray: bool, p: Profile, length: Option<real>, tone: Tone, turn: bool)
    returns (error: Option<PrepareError>, out: Image)
    requires !gray ==> OneBit(img)
    ensures error == if Height(img, turn) <= p.LeadRows() then Some(InsideLead)
                     else if RowsFor(p, length).NothingPrintable? then Some(NoPrintableLength)
                     else None
    ensures error.None? ==> IsPrepared(out, img, gray, tone, turn, p, RowsFor(p, length)) && OneBit(out)
  {
    hide Profile.LeadRows, RowsFor;
    error := None;
    out := FitAcross(img, turn, p.width);
    var top := p.LeadRows();
    if out.Length0 <= top {
      return Some(InsideLead), out;
    }
    var limit := RowsFor(p, length);
    if limit.NothingPrintable? {
      return Some(NoPrintableLength), out;
    }
    out := Crop(out, 0, top, p.width, Bottom(out.Length0, top, limit));
    assert forall x, y :: 0 <= x < out.Length1 && 0 <= y < out.Length0 ==>
      out[y, x] == Across(img, turn, p.width, x, y + top);
    if gray {
      hide Across, Cell;
      out := ApplyTone(out, tone);
    }
  }

  /**
   * On the page itself: where the ordered tone met a uniform gray v, any window of eight by eight
   * of the prepared page holds floor((v + 1) / 4) white pixels.
   */
  lemma PageTone(out: Image, img: Image, turn: bool, p: Profile, limit: Limit, white: Pixels, x: nat, y: nat, v: byte)
    requires IsPrepared(out, img, true, Ordered, turn, p, limit) && x + 8 <= out.Length1 && y + 8 <= out.Length0
    requires forall i: nat, j: nat :: x <= i < x + 8 && y <= j < y + 8 ==>
               Across(img, turn, p.width, i, j + p.LeadRows()) == v && white(i, j) == (out[j, i] == 255)
    ensures InBlock(white, x, y, 8) == (v + 1) / 4
  {
    hide Across, Cell, Profile.LeadRows, InBlock;
    WindowTone((_, _) => v, white, x, y, v);
  }
}
