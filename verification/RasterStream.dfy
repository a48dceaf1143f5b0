/**
 * The print job as a byte stream and its band table (`Printer._build_raster_stream`,
 * `_rows_before`), and what the print head makes of it.
 */
module RasterStream {
  import opened Bytes
  import opened Commands
  import opened PrintHead

  /** The two profile fields the stream depends on. */
  datatype Geometry = Geometry(widthBytes: nat, bandHeight: nat) {
    ghost predicate Valid() {
      1 <= widthBytes < 0x1_0000 && 1 <= bandHeight < 0x1_0000
    }

    /** Bytes of `rows` rows. */
    function Bytes(rows: nat): nat {
      MulSplit(rows, 0, widthBytes);
      rows * widthBytes
    }
  }

  lemma BytesSplit(g: Geometry, a: nat, b: nat)
    requires b <= a
    ensures g.Bytes(a) == g.Bytes(b) + g.Bytes(a - b)
  {
    MulSplit(a, b, g.widthBytes);
  }

  datatype Settings = Settings(geometry: Geometry, mode: byte, density: Option<byte>, feedLines: int)

  /** Offsets of one band within the stream. */
  datatype Band = Band(headerStart: nat, dataStart: nat, dataEnd: nat, rows: nat)

  function Prefix(s: Settings): seq<byte> {
    EncodeInit() + if s.density.Some? then EncodeDensity(s.density.value) else []
  }

  function Trailer(feedLines: int): seq<byte> {
    if feedLines > 0 then EncodeFeedLines(Min(feedLines, 255)).value else []
  }

  function BandRows(g: Geometry, rows: nat): (n: nat)
    requires g.Valid()
    ensures n <= rows && (rows > 0 ==> n >= 1) && n < 0x1_0000
  {
    Min(g.bandHeight, rows)
  }

  /** Every band of a bitmap of `rows` rows, header and data. */
  function Body(g: Geometry, mode: byte, bitmap: seq<byte>, rows: nat): seq<byte>
    requires g.Valid() && |bitmap| == g.Bytes(rows)
    decreases rows
  {
    if rows == 0 then [] else
      var n := BandRows(g, rows);
      BytesSplit(g, rows, n);
      var cut := g.Bytes(n);
      EncodeRasterHeader(g.widthBytes, n, mode) + bitmap[..cut] + Body(g, mode, bitmap[cut..], rows - n)
  }

  /** The band table of `rows` rows whose first header is at `base`. */
  function Table(g: Geometry, rows: nat, base: nat): seq<Band>
    requires g.Valid()
    decreases rows
  {
    if rows == 0 then [] else
      var n := BandRows(g, rows);
      BytesSplit(g, rows, n);
      var end := base + 8 + g.Bytes(n);
      [Band(base, base + 8, end, n)] + Table(g, rows - n, end)
  }

  function Stream(s: Settings, bitmap: seq<byte>, height: nat): seq<byte>
    requires s.geometry.Valid() && |bitmap| == s.geometry.Bytes(height)
  {
    Prefix(s) + Body(s.geometry, s.mode, bitmap, height) + Trailer(s.feedLines)
  }

  // ------------------------------------------------------------------
  // What the print head reads
  // ------------------------------------------------------------------

  function PrefixCommands(s: Settings): seq<Command> {
    [Init] + if s.density.Some? then [Setting(0x04, s.density.value)] else []
  }

  function BandCommands(g: Geometry, mode: byte, bitmap: seq<byte>, rows: nat): seq<Command>
    requires g.Valid() && |bitmap| == g.Bytes(rows)
    decreases rows
  {
    if rows == 0 then [] else
      var n := BandRows(g, rows);
      BytesSplit(g, rows, n);
      var cut := g.Bytes(n);
      [Raster(mode, g.widthBytes, n, bitmap[..cut])] + BandCommands(g, mode, bitmap[cut..], rows - n)
  }

  function FeedCommands(feedLines: int): seq<Command> {
    if feedLines > 0 then [Feed(Min(feedLines, 255))] else []
  }

  function PageCommands(s: Settings, bitmap: seq<byte>, height: nat): seq<Command>
    requires s.geometry.Valid() && |bitmap| == s.geometry.Bytes(height)
  {
    PrefixCommands(s) + BandCommands(s.geometry, s.mode, bitmap, height) + FeedCommands(s.feedLines)
  }

  function RasterData(cs: seq<Command>): seq<byte> {
    if cs == [] then [] else (if cs[0].Raster? then cs[0].data else []) + RasterData(cs[1..])
  }

  function RasterRows(cs: seq<Command>): nat {
    if cs == [] then 0 else (if cs[0].Raster? then cs[0].rows else 0) + RasterRows(cs[1..])
  }

  lemma RunPrefix(s: Settings, done: seq<Command>)
    ensures Run(Head(Ground, done), Prefix(s)) == Head(Ground, done + PrefixCommands(s))
  {
    RunInit(done);
    if s.density.Some? {
      var d := EncodeDensity(s.density.value);
      var h := Head(Ground, done + [Init]);
      RunAppend(Head(Ground, done), EncodeInit(), d);
      RunSetting(done + [Init], s.density.value);
      assert done + [Init] + [Setting(0x04, s.density.value)] == done + PrefixCommands(s);
    } else {
      assert Prefix(s) == EncodeInit();
    }
  }

  lemma RunInit(done: seq<Command>)
    ensures Run(Head(Ground, done), EncodeInit()) == Head(Ground, done + [Init])
  {
    var h := Head(Ground, done);
    assert EncodeInit() == [0x1b] + [0x40];
    RunAppend(h, [0x1b], [0x40]);
    RunOne(h, 0x1b);
    RunOne(Head(Escape, done), 0x40);
  }

  /** The head's states inside `ESC N 04 v`, and its return to ground at the end. */
  lemma RunSetting(done: seq<Command>, v: byte)
    ensures Run(Head(Ground, done), EncodeDensity(v)[..1]) == Head(Escape, done)
    ensures Run(Head(Ground, done), EncodeDensity(v)[..2]) == Head(EscapeN([]), done)
    ensures Run(Head(Ground, done), EncodeDensity(v)[..3]) == Head(EscapeN([0x04]), done)
    ensures Run(Head(Ground, done), EncodeDensity(v)) == Head(Ground, done + [Setting(0x04, v)])
  {
    var h := Head(Ground, done);
    var d := EncodeDensity(v);
    assert d[..1] == [0x1b];
    RunOne(h, 0x1b);
    assert d[..2] == d[..1] + [0x4e];
    RunAppend(h, d[..1], [0x4e]);
    RunOne(Head(Escape, done), 0x4e);
    assert d[..3] == d[..2] + [0x04];
    RunAppend(h, d[..2], [0x04]);
    RunOne(Head(EscapeN([]), done), 0x04);
    assert d == d[..3] + [v];
    RunAppend(h, d[..3], [v]);
    RunOne(Head(EscapeN([0x04]), done), v);
  }

  lemma RunTrailer(feedLines: int, done: seq<Command>)
    ensures Run(Head(Ground, done), Trailer(feedLines)) == Head(Ground, done + FeedCommands(feedLines))
    ensures feedLines > 0 ==> |Trailer(feedLines)| == 3
    ensures feedLines > 0 ==> Run(Head(Ground, done), Trailer(feedLines)[..1]) == Head(Escape, done)
    ensures feedLines > 0 ==> Run(Head(Ground, done), Trailer(feedLines)[..2]) == Head(EscapeD, done)
  {
    var h := Head(Ground, done);
    if feedLines > 0 {
      var t := Trailer(feedLines);
      var n: byte := Min(feedLines, 255);
      assert t == [0x1b, 0x64, n];
      assert t[..1] == [0x1b];
      RunOne(h, 0x1b);
      assert t[..2] == t[..1] + [0x64];
      RunAppend(h, t[..1], [0x64]);
      RunOne(Head(Escape, done), 0x64);
      assert t == t[..2] + [n];
      RunAppend(h, t[..2], [n]);
      RunOne(Head(EscapeD, done), n);
    } else {
      assert done + FeedCommands(feedLines) == done;
    }
  }

  /** A band with any data of the announced length is one raster command. */
  lemma RunBand(g: Geometry, mode: byte, n: nat, data: seq<byte>, done: seq<Command>)
    requires g.Valid() && n < 0x1_0000 && |data| == g.Bytes(n)
    ensures Run(Head(Ground, done), EncodeRasterHeader(g.widthBytes, n, mode) + data)
         == Head(Ground, done + [Raster(mode, g.widthBytes, n, data)])
  {
    var header := EncodeRasterHeader(g.widthBytes, n, mode);
    HeaderWords(g.widthBytes, n, mode, done);
    RunAppend(Head(Ground, done), header, data);
    if data != [] {
      RunPixels(mode, g.widthBytes, n, [], data, done);
      assert [] + data == data;
    }
  }

  /** The little-endian words of the header give back the width and the row count. */
  lemma HeaderWords(width: nat, n: nat, mode: byte, done: seq<Command>)
    requires width < 0x1_0000 && n < 0x1_0000
    ensures Run(Head(Ground, done), EncodeRasterHeader(width, n, mode))
            == StepPixels(Head(Ground, done), mode, width, n, [])
    ensures forall k :: 1 <= k <= 7 ==>
              Run(Head(Ground, done), EncodeRasterHeader(width, n, mode)[..k]).state.Group?
    ensures |EncodeRasterHeader(width, n, mode)| == 8
  {
    var wl: byte, wh: byte, hl: byte, hh: byte := width % 256, width / 256, n % 256, n / 256;
    assert EncodeRasterHeader(width, n, mode) == [0x1d, 0x76, 0x30, mode, wl, wh, hl, hh];
    RunHeader(mode, wl, wh, hl, hh, done);
    forall k | 1 <= k <= 7
      ensures Run(Head(Ground, done), EncodeRasterHeader(width, n, mode)[..k]).state.Group?
    {
      RunHeaderPart(mode, wl, wh, hl, hh, done, k);
    }
  }

  lemma {:induction false} RunBody(g: Geometry, mode: byte, bitmap: seq<byte>, rows: nat, done: seq<Command>)
    requires g.Valid() && |bitmap| == g.Bytes(rows)
    ensures Run(Head(Ground, done), Body(g, mode, bitmap, rows))
         == Head(Ground, done + BandCommands(g, mode, bitmap, rows))
    decreases rows
  {
    if rows == 0 {
      assert done + BandCommands(g, mode, bitmap, rows) == done;
    } else {
      var n := BandRows(g, rows);
      BytesSplit(g, rows, n);
      var cut := g.Bytes(n);
      var band := EncodeRasterHeader(g.widthBytes, n, mode) + bitmap[..cut];
      var here := [Raster(mode, g.widthBytes, n, bitmap[..cut])];
      var rest := Body(g, mode, bitmap[cut..], rows - n);
      RunAppend(Head(Ground, done), band, rest);
      RunBand(g, mode, n, bitmap[..cut], done);
      RunBody(g, mode, bitmap[cut..], rows - n, done + here);
      assert done + here + BandCommands(g, mode, bitmap[cut..], rows - n)
          == done + BandCommands(g, mode, bitmap, rows);
    }
  }

  /** The whole stream, read from ground, is the page and nothing else, and ends at ground. */
  lemma StreamRoundTrip(s: Settings, bitmap: seq<byte>, height: nat, done: seq<Command>)
    requires s.geometry.Valid() && |bitmap| == s.geometry.Bytes(height)
    ensures Run(Head(Ground, done), Stream(s, bitmap, height))
         == Head(Ground, done + PageCommands(s, bitmap, height))
  {
    PrefixAndBody(s, bitmap, height, done);
    var pb := Prefix(s) + Body(s.geometry, s.mode, bitmap, height);
    var cs := PrefixCommands(s) + BandCommands(s.geometry, s.mode, bitmap, height);
    RunAppend(Head(Ground, done), pb, Trailer(s.feedLines));
    RunTrailer(s.feedLines, done + cs);
    assert done + cs + FeedCommands(s.feedLines) == done + PageCommands(s, bitmap, height);
  }

  lemma PrefixAndBody(s: Settings, bitmap: seq<byte>, height: nat, done: seq<Command>)
    requires s.geometry.Valid() && |bitmap| == s.geometry.Bytes(height)
    ensures Run(Head(Ground, done), Prefix(s) + Body(s.geometry, s.mode, bitmap, height))
         == Head(Ground, done + (PrefixCommands(s) + BandCommands(s.geometry, s.mode, bitmap, height)))
  {
    hide Body, BandCommands, Run;
    var body := Body(s.geometry, s.mode, bitmap, height);
    RunAppend(Head(Ground, done), Prefix(s), body);
    RunPrefix(s, done);
    RunBody(s.geometry, s.mode, bitmap, height, done + PrefixCommands(s));
    assert done + PrefixCommands(s) + BandCommands(s.geometry, s.mode, bitmap, height)
        == done + (PrefixCommands(s) + BandCommands(s.geometry, s.mode, bitmap, height));
  }

  /** The bands carry the bitmap, whole and in order, in pieces of at most `bandHeight` rows. */
  lemma {:induction false} BandsCarryBitmap(g: Geometry, mode: byte, bitmap: seq<byte>, rows: nat)
    requires g.Valid() && |bitmap| == g.Bytes(rows)
    ensures RasterData(BandCommands(g, mode, bitmap, rows)) == bitmap
    ensures RasterRows(BandCommands(g, mode, bitmap, rows)) == rows
    ensures forall c :: c in BandCommands(g, mode, bitmap, rows) ==>
              c.Raster? && c.mode == mode && c.width == g.widthBytes &&
              1 <= c.rows <= g.bandHeight && |c.data| == c.rows * c.width
    decreases rows
  {
    if rows != 0 {
      var n := BandRows(g, rows);
      BytesSplit(g, rows, n);
      var cut := g.Bytes(n);
      BandsCarryBitmap(g, mode, bitmap[cut..], rows - n);
      assert bitmap == bitmap[..cut] + bitmap[cut..];
      assert BandCommands(g, mode, bitmap, rows)[1..] == BandCommands(g, mode, bitmap[cut..], rows - n);
    }
  }

  // ------------------------------------------------------------------
  // The band table
  // ------------------------------------------------------------------

  /** The bands of `t` lie end to end from `from` to `to`. */
  ghost predicate Tiles(t: seq<Band>, from: nat, to: nat) {
    if t == [] then from == to
    else t[0].headerStart == from && t[0].dataStart == from + 8 && t[0].dataStart <= t[0].dataEnd
         && Tiles(t[1..], t[0].dataEnd, to)
  }

  predicate InRange(b: Band, length: nat) {
    b.headerStart <= b.dataStart <= b.dataEnd <= length
  }

  predicate AllInRange(t: seq<Band>, length: nat) {
    t == [] || (InRange(t[0], length) && AllInRange(t[1..], length))
  }

  /** Entry `b` delimits, in `stream`, a header announcing its rows and then their data. */
  ghost predicate Delimited(b: Band, stream: seq<byte>, g: Geometry, mode: byte)
    requires g.Valid()
  {
    && InRange(b, |stream|)
    && 1 <= b.rows <= g.bandHeight
    && stream[b.headerStart..b.dataStart] == EncodeRasterHeader(g.widthBytes, b.rows, mode)
    && b.dataEnd - b.dataStart == g.Bytes(b.rows)
  }

  function TableData(t: seq<Band>, stream: seq<byte>): seq<byte>
    requires AllInRange(t, |stream|)
  {
    if t == [] then [] else
      stream[t[0].dataStart..t[0].dataEnd] + TableData(t[1..], stream)
  }

  function TableRows(t: seq<Band>): nat {
    if t == [] then 0 else t[0].rows + TableRows(t[1..])
  }

  lemma {:induction false} TableTiles(g: Geometry, mode: byte, bitmap: seq<byte>, rows: nat, base: nat)
    requires g.Valid() && |bitmap| == g.Bytes(rows)
    ensures Tiles(Table(g, rows, base), base, base + |Body(g, mode, bitmap, rows)|)
    ensures TableRows(Table(g, rows, base)) == rows
    decreases rows
  {
    if rows != 0 {
      var n := BandRows(g, rows);
      BytesSplit(g, rows, n);
      var cut := g.Bytes(n);
      HeaderWords(g.widthBytes, n, mode, []);
      TableTiles(g, mode, bitmap[cut..], rows - n, base + 8 + cut);
      assert Table(g, rows, base)[1..] == Table(g, rows - n, base + 8 + cut);
    }
  }

  lemma SliceMiddle(pre: seq<byte>, header: seq<byte>, data: seq<byte>, rest: seq<byte>)
    ensures var s := pre + (header + data) + rest;
            s[|pre|..|pre| + |header|] == header && s[|pre| + |header|..|pre| + |header| + |data|] == data
  {
  }

  /** The first band of a nonempty body, and what follows it. */
  lemma Unfold(g: Geometry, mode: byte, bitmap: seq<byte>, rows: nat, base: nat)
      returns (n: nat, header: seq<byte>, data: seq<byte>, next: seq<byte>)
    requires g.Valid() && |bitmap| == g.Bytes(rows) && rows > 0
    ensures n == BandRows(g, rows) && 1 <= n <= rows && n <= g.bandHeight
    ensures header == EncodeRasterHeader(g.widthBytes, n, mode) && |header| == 8
    ensures |data| == g.Bytes(n) && bitmap == data + next && |next| == g.Bytes(rows - n)
    ensures Body(g, mode, bitmap, rows) == (header + data) + Body(g, mode, next, rows - n)
    ensures Table(g, rows, base) == [Band(base, base + 8, base + 8 + |data|, n)] + Table(g, rows - n, base + 8 + |data|)
    ensures BandCommands(g, mode, bitmap, rows)
            == [Raster(mode, g.widthBytes, n, data)] + BandCommands(g, mode, next, rows - n)
  {
    n := BandRows(g, rows);
    BytesSplit(g, rows, n);
    var cut := g.Bytes(n);
    header, data, next := EncodeRasterHeader(g.widthBytes, n, mode), bitmap[..cut], bitmap[cut..];
    HeaderWords(g.widthBytes, n, mode, []);
  }

  /** The table delimits the bands in any stream that holds the body at its base. */
  lemma {:induction false} TableDelimits(g: Geometry, mode: byte, bitmap: seq<byte>, rows: nat, pre: seq<byte>,
                                         post: seq<byte>, stream: seq<byte>)
    requires g.Valid() && |bitmap| == g.Bytes(rows)
    requires stream == pre + Body(g, mode, bitmap, rows) + post
    ensures forall b :: b in Table(g, rows, |pre|) ==> Delimited(b, stream, g, mode)
    ensures AllInRange(Table(g, rows, |pre|), |stream|)
    decreases rows
  {
    if rows != 0 {
      var n, header, data, next := Unfold(g, mode, bitmap, rows, |pre|);
      var pre' := pre + (header + data);
      Shift(pre, header + data, Body(g, mode, next, rows - n), post);
      TableDelimits(g, mode, next, rows - n, pre', post, stream);
      SliceMiddle(pre, header, data, Body(g, mode, next, rows - n) + post);
    }
  }

  lemma Shift(pre: seq<byte>, band: seq<byte>, rest: seq<byte>, post: seq<byte>)
    ensures pre + (band + rest) + post == (pre + band) + rest + post == pre + band + (rest + post)
  {
  }

  /** The first band of a stream's raster part, with the stream split behind it. */
  lemma Peel(g: Geometry, mode: byte, bitmap: seq<byte>, rows: nat, pre: seq<byte>, post: seq<byte>, stream: seq<byte>)
      returns (b: Band, header: seq<byte>, data: seq<byte>, next: seq<byte>)
    requires g.Valid() && |bitmap| == g.Bytes(rows) && rows > 0
    requires stream == pre + Body(g, mode, bitmap, rows) + post
    ensures 1 <= b.rows <= rows && b.rows == BandRows(g, rows) && b.rows <= g.bandHeight
    ensures header == EncodeRasterHeader(g.widthBytes, b.rows, mode) && |header| == 8
    ensures |data| == g.Bytes(b.rows) && bitmap == data + next && |next| == g.Bytes(rows - b.rows)
    ensures b == Band(|pre|, |pre| + 8, |pre| + 8 + |data|, b.rows) && |pre + (header + data)| == b.dataEnd
    ensures Table(g, rows, |pre|) == [b] + Table(g, rows - b.rows, b.dataEnd)
    ensures |Body(g, mode, bitmap, rows)| == |header + data| + |Body(g, mode, next, rows - b.rows)|
    ensures stream == (pre + (header + data)) + Body(g, mode, next, rows - b.rows) + post
    ensures stream == pre + (header + data) + (Body(g, mode, next, rows - b.rows) + post)
    ensures AllInRange(Table(g, rows, |pre|), |stream|) && AllInRange(Table(g, rows - b.rows, b.dataEnd), |stream|)
  {
    var n: nat;
    n, header, data, next := Unfold(g, mode, bitmap, rows, |pre|);
    hide Body, Table;
    b := Band(|pre|, |pre| + 8, |pre| + 8 + |data|, n);
    var rest := Body(g, mode, next, rows - n);
    Shift(pre, header + data, rest, post);
    TableDelimits(g, mode, bitmap, rows, pre, post, stream);
    TableDelimits(g, mode, next, rows - n, pre + (header + data), post, stream);
  }

  /** Read through the table, the stream's data is the bitmap. */
  lemma {:induction false} TableReadsBitmap(g: Geometry, mode: byte, bitmap: seq<byte>, rows: nat, pre: seq<byte>,
                                            post: seq<byte>, stream: seq<byte>)
    requires g.Valid() && |bitmap| == g.Bytes(rows)
    requires stream == pre + Body(g, mode, bitmap, rows) + post
    ensures AllInRange(Table(g, rows, |pre|), |stream|)
    ensures TableData(Table(g, rows, |pre|), stream) == bitmap
    decreases rows
  {
    TableDelimits(g, mode, bitmap, rows, pre, post, stream);
    if rows == 0 {
      assert bitmap == [];
    } else {
      hide Body, Table, AllInRange;
      var b, header, data, next := Peel(g, mode, bitmap, rows, pre, post, stream);
      TableReadsBitmap(g, mode, next, rows - b.rows, pre + (header + data), post, stream);
      SliceMiddle(pre, header, data, Body(g, mode, next, rows - b.rows) + post);
      assert Table(g, rows, |pre|)[1..] == Table(g, rows - b.rows, b.dataEnd);
    }
  }

  // ------------------------------------------------------------------
  // Rows sent
  // ------------------------------------------------------------------

  /** One band's share of `_rows_before`. */
  function RowsInBand(offset: nat, b: Band, width: nat): int
    requires width >= 1
  {
    if offset >= b.dataEnd then b.rows
    else if offset > b.dataStart then (offset - b.dataStart) / width
    else 0
  }

  /** `_rows_before`. */
  function RowsBefore(offset: nat, t: seq<Band>, width: nat): int
    requires width >= 1
  {
    if t == [] then 0 else RowsInBand(offset, t[0], width) + RowsBefore(offset, t[1..], width)
  }

  /** Stream offset just behind row `r`: its band's header and all rows up to it lie before. */
  function RowEnd(g: Geometry, base: nat, r: nat): int
    requires g.Valid()
  {
    base + 8 * (r / g.bandHeight + 1) + (r + 1) * g.widthBytes
  }

  lemma {:induction false} TableBounds(g: Geometry, rows: nat, base: nat)
    requires g.Valid()
    ensures forall b :: b in Table(g, rows, base) ==>
              base <= b.headerStart && b.dataStart == b.headerStart + 8 && b.dataStart <= b.dataEnd
    decreases rows
  {
    if rows != 0 {
      var n := BandRows(g, rows);
      BytesSplit(g, rows, n);
      TableBounds(g, rows - n, base + 8 + g.Bytes(n));
    }
  }

  lemma DivCounts(x: nat, w: nat, r: nat)
    requires w >= 1
    ensures r < x / w <==> (r + 1) * w <= x
  {
    var q := x / w;
    assert x == q * w + x % w;
    if r + 1 <= q {
      MulMonotone(r + 1, q, w);
    } else {
      MulMonotone(q + 1, r + 1, w);
      assert (q + 1) * w == q * w + w;
    }
  }

  lemma RowEndInFirstBand(g: Geometry, base: nat, r: nat)
    requires g.Valid() && r < g.bandHeight
    ensures RowEnd(g, base, r) == base + 8 + (r + 1) * g.widthBytes
  {
    assert r / g.bandHeight == 0;
  }

  lemma RowEndBehindBand(g: Geometry, base: nat, r: nat)
    requires g.Valid() && r >= g.bandHeight
    ensures RowEnd(g, base, r) == RowEnd(g, base + 8 + g.bandHeight * g.widthBytes, r - g.bandHeight)
  {
    var bh := g.bandHeight;
    DivStep(r - bh, bh);
    assert r / bh == (r - bh) / bh + 1;
    assert (r + 1) * g.widthBytes == (r - bh + 1) * g.widthBytes + bh * g.widthBytes by {
      BytesSplit(g, r + 1, bh);
    }
  }

  lemma RowEndBound(g: Geometry, base: nat, r: nat)
    requires g.Valid()
    ensures RowEnd(g, base, r) >= base + 8 + g.widthBytes
  {
    MulMonotone(1, r + 1, g.widthBytes);
  }

  lemma {:induction false} NoRowsBefore(g: Geometry, rows: nat, base: nat, offset: nat)
    requires g.Valid() && offset <= base
    ensures RowsBefore(offset, Table(g, rows, base), g.widthBytes) == 0
    decreases rows
  {
    if rows != 0 {
      var n := BandRows(g, rows);
      BytesSplit(g, rows, n);
      assert Table(g, rows, base)[1..] == Table(g, rows - n, base + 8 + g.Bytes(n));
      NoRowsBefore(g, rows - n, base + 8 + g.Bytes(n), offset);
    }
  }

  lemma RowsInBandCounts(w: nat, n: nat, base: nat, offset: nat, r: nat)
    requires w >= 1
    ensures base + 8 + n * w >= 0
    ensures var k := RowsInBand(offset, Band(base, base + 8, base + 8 + n * w, n), w);
            0 <= k <= n && (r < n ==> (r < k <==> base + 8 + (r + 1) * w <= offset))
  {
    if r < n {
      MulMonotone(r + 1, n, w);
    }
    if base + 8 < offset < base + 8 + n * w {
      DivCounts(offset - base - 8, w, r);
      DivCounts(offset - base - 8, w, n);
      MulMonotone(n, n + 1, w);
    }
  }

  lemma TableUnfold(g: Geometry, rows: nat, base: nat) returns (n: nat, end: nat)
    requires g.Valid() && rows > 0
    ensures n == BandRows(g, rows) && end == base + 8 + g.Bytes(n) && 1 <= n <= rows
    ensures Table(g, rows, base) == [Band(base, base + 8, end, n)] + Table(g, rows - n, end)
    ensures Table(g, rows, base)[1..] == Table(g, rows - n, end)
  {
    n := BandRows(g, rows);
    BytesSplit(g, rows, n);
    end := base + 8 + g.Bytes(n);
  }

  lemma {:induction false} RowsBeforeBounds(g: Geometry, rows: nat, base: nat, offset: nat)
    requires g.Valid()
    ensures 0 <= RowsBefore(offset, Table(g, rows, base), g.widthBytes) <= rows
    decreases rows
  {
    if rows != 0 {
      var n, end := TableUnfold(g, rows, base);
      RowsBeforeBounds(g, rows - n, end, offset);
      RowsInBandCounts(g.widthBytes, n, base, offset, 0);
    }
  }

  /** `_rows_before` counts row `r` exactly when the row's last byte lies before the offset. */
  lemma {:induction false} RowCounted(g: Geometry, rows: nat, base: nat, offset: nat, r: nat)
    requires g.Valid() && r < rows
    ensures r < RowsBefore(offset, Table(g, rows, base), g.widthBytes) <==> RowEnd(g, base, r) <= offset
    decreases rows
  {
    var n, end := TableUnfold(g, rows, base);
    RowsBeforeBounds(g, rows - n, end, offset);
    RowsInBandCounts(g.widthBytes, n, base, offset, r);
    if offset < end {
      NoRowsBefore(g, rows - n, end, offset);
    }
    if r < n {
      RowEndInFirstBand(g, base, r);
    } else {
      RowEndBehindBand(g, base, r);
      RowEndBound(g, end, r - n);
      RowCounted(g, rows - n, end, offset, r - n);
    }
  }

  /** More bytes, never fewer rows; and all rows exactly from the end of the last row on. */
  lemma RowsBeforeMonotone(g: Geometry, rows: nat, base: nat, a: nat, b: nat)
    requires g.Valid() && a <= b
    ensures RowsBefore(a, Table(g, rows, base), g.widthBytes) <= RowsBefore(b, Table(g, rows, base), g.widthBytes)
    ensures rows >= 1 ==>
              (RowsBefore(b, Table(g, rows, base), g.widthBytes) == rows <==> RowEnd(g, base, rows - 1) <= b)
  {
    RowsBeforeBounds(g, rows, base, a);
    RowsBeforeBounds(g, rows, base, b);
    var ra := RowsBefore(a, Table(g, rows, base), g.widthBytes);
    if ra > 0 {
      RowCounted(g, rows, base, a, ra - 1);
      RowCounted(g, rows, base, b, ra - 1);
    }
    if rows >= 1 {
      RowCounted(g, rows, base, b, rows - 1);
    }
  }

  /** The last row ends where the raster part ends. */
  lemma {:induction false} LastRowEnd(g: Geometry, mode: byte, bitmap: seq<byte>, rows: nat, base: nat)
    requires g.Valid() && |bitmap| == g.Bytes(rows) && rows >= 1
    ensures RowEnd(g, base, rows - 1) == base + |Body(g, mode, bitmap, rows)|
    decreases rows
  {
    var n, header, data, next := Unfold(g, mode, bitmap, rows, base);
    if n == rows {
      RowEndInFirstBand(g, base, rows - 1);
      assert Body(g, mode, next, 0) == [];
    } else {
      RowEndBehindBand(g, base, rows - 1);
      LastRowEnd(g, mode, next, rows - n, base + 8 + |data|);
    }
  }

  /** The `to - from` bytes of `s` before `end` are those of `bitmap` from `from` to `to`. */
  predicate Stands(s: seq<byte>, end: int, bitmap: seq<byte>, from: int, to: int) {
    0 <= from <= to <= |bitmap| && to - from <= end <= |s| && s[end - (to - from)..end] == bitmap[from..to]
  }

  lemma StandsInFirst(header: seq<byte>, data: seq<byte>, rest: seq<byte>, next: seq<byte>, from: nat, to: nat)
    requires from <= to <= |data|
    ensures Stands(header + data + rest, |header| + to, data + next, from, to)
  {
    assert (header + data + rest)[|header| + from..|header| + to] == data[from..to] == (data + next)[from..to];
  }

  lemma StandsBehind(band: seq<byte>, rest: seq<byte>, end: int, data: seq<byte>, next: seq<byte>, from: int, to: int)
    requires Stands(rest, end, next, from, to)
    ensures Stands(band + rest, |band| + end, data + next, |data| + from, |data| + to)
  {
    assert (band + rest)[|band| + end - (to - from)..|band| + end] == rest[end - (to - from)..end];
    assert (data + next)[|data| + from..|data| + to] == next[from..to];
  }

  lemma StandsBefore(s: seq<byte>, tail: seq<byte>, end: int, bitmap: seq<byte>, from: int, to: int)
    requires Stands(s, end, bitmap, from, to)
    ensures Stands(s + tail, end, bitmap, from, to)
  {
    assert (s + tail)[end - (to - from)..end] == s[end - (to - from)..end];
  }

  /** A row of the bitmap stands in the raster part directly before its end. */
  lemma {:induction false} RowInBody(g: Geometry, mode: byte, bitmap: seq<byte>, rows: nat, r: nat)
    requires g.Valid() && |bitmap| == g.Bytes(rows) && r < rows
    ensures Stands(Body(g, mode, bitmap, rows), RowEnd(g, 0, r), bitmap, g.Bytes(r), g.Bytes(r + 1))
    decreases rows
  {
    hide Body, Table, BandCommands, EncodeRasterHeader, Stands, RowEnd, Geometry.Bytes;
    var n, header, data, next := Unfold(g, mode, bitmap, rows, 0);
    var rest := Body(g, mode, next, rows - n);
    if r < n {
      RowAtStart(g, n, r);
      StandsInFirst(header, data, rest, next, g.Bytes(r), g.Bytes(r + 1));
    } else {
      RowFurtherOn(g, n, r, rows);
      RowInBody(g, mode, next, rows - n, r - n);
      StandsBehind(header + data, rest, RowEnd(g, 0, r - n), data, next, g.Bytes(r - n), g.Bytes(r - n + 1));
    }
  }

  lemma RowAtStart(g: Geometry, n: nat, r: nat)
    requires g.Valid() && r < n <= g.bandHeight
    ensures g.Bytes(r) <= g.Bytes(r + 1) <= g.Bytes(n) && RowEnd(g, 0, r) == 8 + g.Bytes(r + 1)
  {
    RowEndInFirstBand(g, 0, r);
    BytesSplit(g, n, r + 1);
    BytesSplit(g, r + 1, r);
  }

  lemma RowFurtherOn(g: Geometry, n: nat, r: nat, rows: nat)
    requires g.Valid() && n == BandRows(g, rows) && n <= r < rows
    ensures RowEnd(g, 0, r) == 8 + g.Bytes(n) + RowEnd(g, 0, r - n)
    ensures g.Bytes(r) == g.Bytes(n) + g.Bytes(r - n) && g.Bytes(r + 1) == g.Bytes(n) + g.Bytes(r - n + 1)
  {
    RowEndBehindBand(g, 0, r);
    BytesSplit(g, r, n);
    BytesSplit(g, r + 1, n);
  }

  /** Where row `r` of the bitmap stands in the stream. */
  lemma RowInStream(s: Settings, bitmap: seq<byte>, height: nat, r: nat)
    requires s.geometry.Valid() && |bitmap| == s.geometry.Bytes(height) && r < height
    ensures Stands(Stream(s, bitmap, height), RowEnd(s.geometry, |Prefix(s)|, r), bitmap,
                   s.geometry.Bytes(r), s.geometry.Bytes(r + 1))
  {
    hide Stands, Body;
    var g, body := s.geometry, Body(s.geometry, s.mode, bitmap, height);
    RowInBody(g, s.mode, bitmap, height, r);
    assert RowEnd(g, |Prefix(s)|, r) == |Prefix(s)| + RowEnd(g, 0, r);
    hide RowEnd, Geometry.Bytes;
    StandsBehind(Prefix(s), body, RowEnd(g, 0, r), [], bitmap, g.Bytes(r), g.Bytes(r + 1));
    assert [] + bitmap == bitmap;
    StandsBefore(Prefix(s) + body, Trailer(s.feedLines), RowEnd(g, |Prefix(s)|, r), bitmap, g.Bytes(r), g.Bytes(r + 1));
  }
}
