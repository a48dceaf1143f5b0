/**
 * What `_pad_band` owes the printer when a transfer stops at a stream offset, and why
 * paying it leaves the print head exactly where a shorter page would have left it.
 */
module Interruption {
  import opened Bytes
  import opened Commands
  import opened PrintHead
  import opened RasterStream

  /** The bytes `_pad_band` writes: the rest of the header, then white up to the band's end. */
  function Filler(stream: seq<byte>, offset: nat, t: seq<Band>): seq<byte>
    requires AllInRange(t, |stream|)
  {
    if t == [] then [] else
      var b := t[0];
      if b.headerStart < offset < b.dataEnd then
        (if offset < b.dataStart then stream[offset..b.dataStart] else []) + Zeros(b.dataEnd - Max(offset, b.dataStart))
      else Filler(stream, offset, t[1..])
  }

  /** Raster data bytes lying before `offset`. */
  function DataBefore(offset: nat, t: seq<Band>): nat {
    if t == [] then 0
    else Max(0, Min(offset, t[0].dataEnd) - t[0].dataStart) + DataBefore(offset, t[1..])
  }

  /** Rows of the bands of which at least one byte lies before `offset`. */
  function RowsStarted(offset: nat, t: seq<Band>): nat {
    if t == [] then 0
    else (if t[0].headerStart < offset then t[0].rows else 0) + RowsStarted(offset, t[1..])
  }

  /** The first `d` bytes of a bitmap and white after them, `size` bytes in all. */
  function Whitened(bitmap: seq<byte>, d: nat, size: nat): seq<byte>
    requires d <= |bitmap| && d <= size
  {
    bitmap[..d] + Zeros(size - d)
  }

  /** Bands that begin at or behind `offset` have no part in it. */
  lemma {:induction false} NotStarted(g: Geometry, rows: nat, base: nat, stream: seq<byte>, offset: nat)
    requires g.Valid() && offset <= base
    requires AllInRange(Table(g, rows, base), |stream|)
    ensures RowsStarted(offset, Table(g, rows, base)) == 0
    ensures DataBefore(offset, Table(g, rows, base)) == 0
    ensures Filler(stream, offset, Table(g, rows, base)) == []
    decreases rows
  {
    if rows != 0 {
      var n := BandRows(g, rows);
      BytesSplit(g, rows, n);
      var t := Table(g, rows, base);
      assert t[1..] == Table(g, rows - n, base + 8 + g.Bytes(n));
      NotStarted(g, rows - n, base + 8 + g.Bytes(n), stream, offset);
    }
  }

  /** Completing the band in progress: header as sent, data as sent, then white. */
  lemma BandCompleted(pre: seq<byte>, header: seq<byte>, data: seq<byte>, tail: seq<byte>, k: nat)
    requires |pre| < k < |pre| + |header| + |data|
    ensures var stream := pre + (header + data) + tail;
            var ds := |pre| + |header|;
            var de := ds + |data|;
            var d := Max(0, k - ds);
            stream[..k] + ((if k < ds then stream[k..ds] else []) + Zeros(de - Max(k, ds)))
              == pre + (header + Whitened(data, d, |data|))
  {
    var stream := pre + (header + data) + tail;
    var ds := |pre| + |header|;
    if k < ds {
      assert stream[..k] + stream[k..ds] == stream[..ds] == pre + header;
      assert Whitened(data, 0, |data|) == Zeros(|data|);
    } else {
      assert stream[..k] == pre + header + data[..k - ds];
    }
  }

  lemma WhitenedAppend(data: seq<byte>, next: seq<byte>, d: nat, size: nat)
    requires d <= |next| && d <= size
    ensures Whitened(data + next, |data| + d, |data| + size) == data + Whitened(next, d, size)
  {
  }

  /** A band followed by a body of later rows is the body of them all. */
  lemma Refold(g: Geometry, mode: byte, rows: nat, n: nat, data: seq<byte>, r: nat, next: seq<byte>)
    requires g.Valid() && rows > 0 && n == BandRows(g, rows) && r <= rows - n
    requires |data| == g.Bytes(n) && |next| == g.Bytes(r)
    ensures |data + next| == g.Bytes(n + r)
    ensures Body(g, mode, data + next, n + r)
         == (EncodeRasterHeader(g.widthBytes, n, mode) + data) + Body(g, mode, next, r)
  {
    BytesSplit(g, n + r, n);
    assert BandRows(g, n + r) == n;
    assert (data + next)[..|data|] == data && (data + next)[|data|..] == next;
  }

  /** A band that ends at or before `k` is complete, and the rest of the table decides. */
  lemma BehindBand(b: Band, t: seq<Band>, stream: seq<byte>, k: nat)
    requires b.headerStart <= b.dataStart <= b.dataEnd <= k && b.headerStart < k
    requires AllInRange([b] + t, |stream|)
    requires AllInRange(t, |stream|)
    ensures RowsStarted(k, [b] + t) == b.rows + RowsStarted(k, t)
    ensures DataBefore(k, [b] + t) == b.dataEnd - b.dataStart + DataBefore(k, t)
    ensures Filler(stream, k, [b] + t) == Filler(stream, k, t)
  {
    assert ([b] + t)[1..] == t;
  }

  lemma InsideBand(b: Band, t: seq<Band>, stream: seq<byte>, k: nat)
    requires InRange(b, |stream|) && b.headerStart < k < b.dataEnd
    requires AllInRange([b] + t, |stream|)
    requires RowsStarted(k, t) == DataBefore(k, t) == 0
    ensures RowsStarted(k, [b] + t) == b.rows
    ensures DataBefore(k, [b] + t) == Max(0, k - b.dataStart)
    ensures Filler(stream, k, [b] + t)
         == (if k < b.dataStart then stream[k..b.dataStart] else []) + Zeros(b.dataEnd - Max(k, b.dataStart))
  {
    assert ([b] + t)[1..] == t;
  }

  /**
   * The first `k` bytes of `stream` and the filler owed there are, behind `pre`, the raster part
   * of a shorter page: the rows started by then, with the data sent by then and white after it.
   */
  ghost predicate Completed(g: Geometry, mode: byte, bitmap: seq<byte>, rows: nat, t: seq<Band>, pre: seq<byte>,
                            stream: seq<byte>, k: nat)
    requires g.Valid() && k <= |stream|
    requires AllInRange(t, |stream|)
  {
    var r, d := RowsStarted(k, t), DataBefore(k, t);
    && r <= rows && d <= |bitmap| && d <= g.Bytes(r)
    && stream[..k] + Filler(stream, k, t) == pre + Body(g, mode, Whitened(bitmap, d, g.Bytes(r)), r)
  }

  lemma OneBand(g: Geometry, mode: byte, n: nat, data: seq<byte>)
    requires g.Valid() && 1 <= n <= g.bandHeight && |data| == g.Bytes(n)
    ensures Body(g, mode, data, n) == EncodeRasterHeader(g.widthBytes, n, mode) + data
  {
    assert data[..g.Bytes(n)] == data;
    assert Body(g, mode, data[g.Bytes(n)..], 0) == [];
  }

  /** Stopping inside the first band: the filler completes that band and no other is begun. */
  lemma CompletedInside(g: Geometry, mode: byte, b: Band, t: seq<Band>, header: seq<byte>, data: seq<byte>,
                        next: seq<byte>, rows: nat, pre: seq<byte>, tail: seq<byte>, stream: seq<byte>, k: nat)
    requires g.Valid() && 1 <= b.rows <= rows && b.rows <= g.bandHeight && |data| == g.Bytes(b.rows)
    requires header == EncodeRasterHeader(g.widthBytes, b.rows, mode) && |header| == 8
    requires b == Band(|pre|, |pre| + 8, |pre| + 8 + |data|, b.rows) && |pre| < k < b.dataEnd
    requires stream == pre + (header + data) + tail
    requires AllInRange([b] + t, |stream|)
    requires RowsStarted(k, t) == DataBefore(k, t) == 0
    ensures Completed(g, mode, data + next, rows, [b] + t, pre, stream, k)
  {
    InsideBand(b, t, stream, k);
    var d: nat := Max(0, k - b.dataStart);
    BandCompleted(pre, header, data, tail, k);
    assert Whitened(data + next, d, |data|) == Whitened(data, d, |data|);
    OneBand(g, mode, b.rows, Whitened(data, d, |data|));
  }

  /** Stopping behind the first band: it stands in front of whatever the rest amounts to. */
  lemma CompletedBehind(g: Geometry, mode: byte, b: Band, t: seq<Band>, header: seq<byte>, data: seq<byte>,
                        next: seq<byte>, rows: nat, pre: seq<byte>, stream: seq<byte>, k: nat)
    requires g.Valid() && rows > 0 && b.rows == BandRows(g, rows) && |data| == g.Bytes(b.rows)
    requires header == EncodeRasterHeader(g.widthBytes, b.rows, mode) && |header| == 8
    requires b == Band(|pre|, |pre| + 8, |pre| + 8 + |data|, b.rows) && b.dataEnd <= k <= |stream|
    requires AllInRange([b] + t, |stream|)
    requires AllInRange(t, |stream|)
    requires Completed(g, mode, next, rows - b.rows, t, pre + (header + data), stream, k)
    ensures Completed(g, mode, data + next, rows, [b] + t, pre, stream, k)
  {
    hide Geometry.Bytes, Body, BandRows, EncodeRasterHeader, Filler, RowsStarted, DataBefore, AllInRange;
    BehindBand(b, t, stream, k);
    var r, d := RowsStarted(k, t), DataBefore(k, t);
    var size := g.Bytes(r);
    assert g.Bytes(b.rows + r) == |data| + size by {
      BytesSplit(g, b.rows + r, b.rows);
    }
    var rest := Whitened(next, d, size);
    assert |rest| == size;
    hide Whitened;
    WhitenedAppend(data, next, d, size);
    Refold(g, mode, rows, b.rows, data, r, rest);
    ConcatAssociates(pre, header + data, Body(g, mode, rest, r));
  }

  /** Stopping before the first band: nothing is owed. */
  lemma CompletedAtStart(g: Geometry, mode: byte, bitmap: seq<byte>, rows: nat, pre: seq<byte>, stream: seq<byte>)
    requires g.Valid() && pre <= stream && AllInRange(Table(g, rows, |pre|), |stream|)
    ensures Completed(g, mode, bitmap, rows, Table(g, rows, |pre|), pre, stream, |pre|)
  {
    NotStarted(g, rows, |pre|, stream, |pre|);
    assert stream[..|pre|] + [] == pre + [];
  }

  lemma ConcatAssociates(a: seq<byte>, b: seq<byte>, c: seq<byte>)
    ensures (a + b) + c == a + (b + c)
  {
  }

  /** The heart of the matter: `_pad_band` completes the page at every offset of its raster part. */
  lemma {:induction false} PaddedBody(g: Geometry, mode: byte, bitmap: seq<byte>, rows: nat,
                                      pre: seq<byte>, post: seq<byte>, stream: seq<byte>, k: nat)
    requires g.Valid() && |bitmap| == g.Bytes(rows)
    requires stream == pre + Body(g, mode, bitmap, rows) + post
    requires |pre| <= k <= |pre| + |Body(g, mode, bitmap, rows)|
    ensures AllInRange(Table(g, rows, |pre|), |stream|)
    ensures Completed(g, mode, bitmap, rows, Table(g, rows, |pre|), pre, stream, k)
    decreases rows
  {
    assert rows == 0 ==> k == |pre|;
    hide Completed, Body, Table;
    if k == |pre| {
      TableDelimits(g, mode, bitmap, rows, pre, post, stream);
      CompletedAtStart(g, mode, bitmap, rows, pre, stream);
    } else {
      var b, header, data, next := Peel(g, mode, bitmap, rows, pre, post, stream);
      if k < b.dataEnd {
        NotStarted(g, rows - b.rows, b.dataEnd, stream, k);
        CompletedInside(g, mode, b, Table(g, rows - b.rows, b.dataEnd), header, data, next, rows, pre,
                        Body(g, mode, next, rows - b.rows) + post, stream, k);
      } else {
        PaddedBody(g, mode, next, rows - b.rows, pre + (header + data), post, stream, k);
        CompletedBehind(g, mode, b, Table(g, rows - b.rows, b.dataEnd), header, data, next, rows, pre, stream, k);
      }
    }
  }

  // ------------------------------------------------------------------
  // The print head after an interruption
  // ------------------------------------------------------------------

  function BandTable(s: Settings, height: nat): seq<Band>
    requires s.geometry.Valid()
  {
    Table(s.geometry, height, |Prefix(s)|)
  }

  /** What is on paper once a transfer of this page stopped at `k` and was padded. */
  function InterruptedCommands(s: Settings, bitmap: seq<byte>, height: nat, k: nat): seq<Command>
    requires s.geometry.Valid()
    requires DataBefore(k, BandTable(s, height)) <= |bitmap|
    requires DataBefore(k, BandTable(s, height)) <= s.geometry.Bytes(RowsStarted(k, BandTable(s, height)))
  {
    var rows := RowsStarted(k, BandTable(s, height));
    var d := DataBefore(k, BandTable(s, height));
    PrefixCommands(s)
    + BandCommands(s.geometry, s.mode, Whitened(bitmap, d, s.geometry.Bytes(rows)), rows)
  }

  lemma StreamInRange(s: Settings, bitmap: seq<byte>, height: nat)
    requires s.geometry.Valid() && |bitmap| == s.geometry.Bytes(height)
    ensures AllInRange(BandTable(s, height), |Stream(s, bitmap, height)|)
  {
    TableDelimits(s.geometry, s.mode, bitmap, height, Prefix(s), Trailer(s.feedLines), Stream(s, bitmap, height));
  }

  /**
   * Stopping anywhere from the end of the prefix to the end of the last band, then padding: the
   * head is back at ground and has read a page of the rows started, holding exactly the bitmap
   * bytes sent and white after them. Nothing of any later band, and no pixel taken for a command.
   */
  lemma InterruptedInSync(s: Settings, bitmap: seq<byte>, height: nat, k: nat, done: seq<Command>)
    requires s.geometry.Valid() && |bitmap| == s.geometry.Bytes(height)
    requires |Prefix(s)| <= k <= |Prefix(s)| + |Body(s.geometry, s.mode, bitmap, height)|
    ensures k <= |Stream(s, bitmap, height)|
    ensures AllInRange(BandTable(s, height), |Stream(s, bitmap, height)|)
    ensures DataBefore(k, BandTable(s, height)) <= |bitmap|
    ensures DataBefore(k, BandTable(s, height)) <= s.geometry.Bytes(RowsStarted(k, BandTable(s, height)))
    ensures var stream := Stream(s, bitmap, height);
            Run(Head(Ground, done), stream[..k] + Filler(stream, k, BandTable(s, height)))
              == Head(Ground, done + InterruptedCommands(s, bitmap, height, k))
  {
    var stream := Stream(s, bitmap, height);
    PaddedBody(s.geometry, s.mode, bitmap, height, Prefix(s), Trailer(s.feedLines), stream, k);
    var t := BandTable(s, height);
    var rows, d := RowsStarted(k, t), DataBefore(k, t);
    PrefixAndBody(s, Whitened(bitmap, d, s.geometry.Bytes(rows)), rows, done);
  }

  // ------------------------------------------------------------------
  // Where a bare stop leaves the head in sync
  // ------------------------------------------------------------------

  predicate EndsBand(t: seq<Band>, k: nat) { exists b :: b in t && b.dataEnd == k }

  /** The ends of the commands of the stream. */
  predicate AtBoundary(s: Settings, bitmap: seq<byte>, height: nat, k: nat)
    requires s.geometry.Valid() && |bitmap| == s.geometry.Bytes(height)
  {
    k == 0 || k == 2 || k == |Prefix(s)| || EndsBand(BandTable(s, height), k) || k == |Stream(s, bitmap, height)|
  }

  lemma InsideBandOutOfSync(g: Geometry, mode: byte, n: nat, data: seq<byte>, j: nat, done: seq<Command>)
    requires g.Valid() && n < 0x1_0000 && |data| == g.Bytes(n)
    requires 0 < j < |EncodeRasterHeader(g.widthBytes, n, mode) + data|
    ensures !Run(Head(Ground, done), (EncodeRasterHeader(g.widthBytes, n, mode) + data)[..j]).state.Ground?
  {
    var header := EncodeRasterHeader(g.widthBytes, n, mode);
    HeaderWords(g.widthBytes, n, mode, done);
    if j < 8 {
      assert (header + data)[..j] == header[..j];
    } else {
      assert (header + data)[..j] == header + data[..j - 8];
      RunAppend(Head(Ground, done), header, data[..j - 8]);
      RunPixels(mode, g.widthBytes, n, [], data[..j - 8], done);
      assert [] + data[..j - 8] == data[..j - 8];
    }
  }

  lemma EndsBandCons(b: Band, t: seq<Band>, k: nat)
    ensures EndsBand([b] + t, k) <==> b.dataEnd == k || EndsBand(t, k)
  {
    if b.dataEnd == k {
      assert b in [b] + t;
    }
    if EndsBand(t, k) {
      var x :| x in t && x.dataEnd == k;
      assert x in [b] + t;
    }
  }

  lemma NoBandEndsEarly(g: Geometry, rows: nat, base: nat, k: nat)
    requires g.Valid() && k <= base
    ensures !EndsBand(Table(g, rows, base), k)
  {
    TableBounds(g, rows, base);
  }

  /** Reading into a band, up to its end, and beyond it. */
  lemma AcrossBand(g: Geometry, mode: byte, n: nat, data: seq<byte>, rest: seq<byte>, j: nat, done: seq<Command>)
    requires g.Valid() && n < 0x1_0000 && |data| == g.Bytes(n)
    requires 0 < j <= 8 + |data| + |rest|
    ensures var band := EncodeRasterHeader(g.widthBytes, n, mode) + data;
            && |band| == 8 + |data|
            && (j <= |band| ==> (Run(Head(Ground, done), (band + rest)[..j]).state.Ground? <==> j == |band|))
            && (j >= |band| ==>
                  Run(Head(Ground, done), (band + rest)[..j])
                  == Run(Head(Ground, done + [Raster(mode, g.widthBytes, n, data)]), rest[..j - |band|]))
  {
    var band := EncodeRasterHeader(g.widthBytes, n, mode) + data;
    if j < |band| {
      assert (band + rest)[..j] == band[..j];
      InsideBandOutOfSync(g, mode, n, data, j, done);
    } else {
      assert (band + rest)[..j] == band + rest[..j - |band|];
      RunAppend(Head(Ground, done), band, rest[..j - |band|]);
      RunBand(g, mode, n, data, done);
    }
  }

  lemma SomeRows(g: Geometry, mode: byte, bitmap: seq<byte>, rows: nat)
    requires g.Valid() && |bitmap| == g.Bytes(rows) && |Body(g, mode, bitmap, rows)| > 0
    ensures rows > 0
  {
  }

  lemma {:induction false} BodyBoundaries(g: Geometry, mode: byte, bitmap: seq<byte>, rows: nat, base: nat, j: nat,
                                          done: seq<Command>)
    requires g.Valid() && |bitmap| == g.Bytes(rows)
    requires 0 < j <= |Body(g, mode, bitmap, rows)|
    ensures Run(Head(Ground, done), Body(g, mode, bitmap, rows)[..j]).state.Ground?
       <==> EndsBand(Table(g, rows, base), base + j)
    decreases rows
  {
    hide Geometry.Bytes, Body, Table, EndsBand, Run;
    SomeRows(g, mode, bitmap, rows);
    var n, header, data, next := Unfold(g, mode, bitmap, rows, base);
    var end := base + 8 + |data|;
    EndsBandCons(Band(base, base + 8, end, n), Table(g, rows - n, end), base + j);
    AcrossBand(g, mode, n, data, Body(g, mode, next, rows - n), j, done);
    if base + j <= end {
      NoBandEndsEarly(g, rows - n, end, base + j);
    } else {
      BodyBoundaries(g, mode, next, rows - n, end, base + j - end, done + [Raster(mode, g.widthBytes, n, data)]);
    }
  }

  lemma PrefixBoundaries(s: Settings, k: nat, done: seq<Command>)
    requires k <= |Prefix(s)|
    ensures Run(Head(Ground, done), Prefix(s)[..k]).state.Ground? <==> k == 0 || k == 2 || k == |Prefix(s)|
  {
    var h := Head(Ground, done);
    RunPrefix(s, done);
    RunInit(done);
    if k == |Prefix(s)| {
      assert Prefix(s)[..k] == Prefix(s);
    } else if k == 1 {
      assert Prefix(s)[..1] == [0x1b];
      RunOne(h, 0x1b);
    } else if k == 2 {
      assert Prefix(s)[..2] == EncodeInit();
    } else if k > 2 {
      var d := EncodeDensity(s.density.value);
      assert Prefix(s)[..k] == EncodeInit() + d[..k - 2];
      RunAppend(h, EncodeInit(), d[..k - 2]);
      RunSetting(done + [Init], s.density.value);
    }
  }

  /** Bands end inside the raster part, and the last one where it ends. */
  lemma {:induction false} BandEndsInBody(g: Geometry, mode: byte, bitmap: seq<byte>, rows: nat, base: nat)
    requires g.Valid() && |bitmap| == g.Bytes(rows)
    ensures forall b :: b in Table(g, rows, base) ==> base + 8 <= b.dataEnd <= base + |Body(g, mode, bitmap, rows)|
    ensures rows > 0 ==> Table(g, rows, base) != [] &&
                         Table(g, rows, base)[|Table(g, rows, base)| - 1].dataEnd
                         == base + |Body(g, mode, bitmap, rows)|
    ensures rows == 0 ==> Table(g, rows, base) == []
    decreases rows
  {
    if rows > 0 {
      var n, header, data, next := Unfold(g, mode, bitmap, rows, base);
      BandEndsInBody(g, mode, next, rows - n, base + 8 + |data|);
      if rows == n {
        assert Body(g, mode, next, 0) == [];
      }
    }
  }

  lemma StopInBody(s: Settings, bitmap: seq<byte>, height: nat, j: nat, done: seq<Command>)
    requires s.geometry.Valid() && |bitmap| == s.geometry.Bytes(height)
    requires 0 < j <= |Body(s.geometry, s.mode, bitmap, height)|
    ensures Run(Head(Ground, done), Prefix(s) + Body(s.geometry, s.mode, bitmap, height)[..j]).state.Ground?
       <==> EndsBand(BandTable(s, height), |Prefix(s)| + j)
  {
    RunAppend(Head(Ground, done), Prefix(s), Body(s.geometry, s.mode, bitmap, height)[..j]);
    RunPrefix(s, done);
    BodyBoundaries(s.geometry, s.mode, bitmap, height, |Prefix(s)|, j, done + PrefixCommands(s));
  }

  lemma StopInTrailer(s: Settings, bitmap: seq<byte>, height: nat, j: nat, done: seq<Command>)
    requires s.geometry.Valid() && |bitmap| == s.geometry.Bytes(height)
    requires 0 < j <= |Trailer(s.feedLines)|
    ensures Run(Head(Ground, done), Prefix(s) + Body(s.geometry, s.mode, bitmap, height)
                + Trailer(s.feedLines)[..j]).state.Ground?
       <==> j == |Trailer(s.feedLines)|
  {
    var pb := Prefix(s) + Body(s.geometry, s.mode, bitmap, height);
    RunAppend(Head(Ground, done), pb, Trailer(s.feedLines)[..j]);
    PrefixAndBody(s, bitmap, height, done);
    RunTrailer(s.feedLines, done + (PrefixCommands(s) + BandCommands(s.geometry, s.mode, bitmap, height)));
    if j == |Trailer(s.feedLines)| {
      assert Trailer(s.feedLines)[..j] == Trailer(s.feedLines);
    }
  }

  lemma EndsBandBounds(s: Settings, bitmap: seq<byte>, height: nat, k: nat)
    requires s.geometry.Valid() && |bitmap| == s.geometry.Bytes(height)
    requires EndsBand(BandTable(s, height), k)
    ensures |Prefix(s)| + 8 <= k <= |Prefix(s)| + |Body(s.geometry, s.mode, bitmap, height)|
  {
    BandEndsInBody(s.geometry, s.mode, bitmap, height, |Prefix(s)|);
  }

  /** The raster part ends a band, unless there is none. */
  lemma BodyEndsBand(s: Settings, bitmap: seq<byte>, height: nat)
    requires s.geometry.Valid() && |bitmap| == s.geometry.Bytes(height)
    ensures height > 0 ==> EndsBand(BandTable(s, height), |Prefix(s)| + |Body(s.geometry, s.mode, bitmap, height)|)
  {
    BandEndsInBody(s.geometry, s.mode, bitmap, height, |Prefix(s)|);
    if height > 0 {
      var t := BandTable(s, height);
      assert t[|t| - 1] in t;
    }
  }

  /** A stop that sends nothing more leaves the head in sync exactly at the end of a command. */
  lemma BareStopInSync(s: Settings, bitmap: seq<byte>, height: nat, k: nat, done: seq<Command>)
    requires s.geometry.Valid() && |bitmap| == s.geometry.Bytes(height)
    requires k <= |Stream(s, bitmap, height)|
    ensures Run(Head(Ground, done), Stream(s, bitmap, height)[..k]).state.Ground?
       <==> AtBoundary(s, bitmap, height, k)
  {
    var stream := Stream(s, bitmap, height);
    var p, body, tail := Prefix(s), Body(s.geometry, s.mode, bitmap, height), Trailer(s.feedLines);
    if EndsBand(BandTable(s, height), k) {
      EndsBandBounds(s, bitmap, height, k);
    }
    BodyEndsBand(s, bitmap, height);
    if k <= |p| {
      assert stream[..k] == p[..k];
      PrefixBoundaries(s, k, done);
    } else if k <= |p| + |body| {
      assert stream[..k] == p + body[..k - |p|];
      StopInBody(s, bitmap, height, k - |p|, done);
    } else {
      assert stream[..k] == p + body + tail[..k - |p| - |body|];
      StopInTrailer(s, bitmap, height, k - |p| - |body|, done);
    }
  }

  // ------------------------------------------------------------------
  // A filler cut short
  // ------------------------------------------------------------------

  /** What has been sent once a transfer stopped at `k` and paid what it owed there. */
  function Padded(stream: seq<byte>, k: nat, t: seq<Band>): seq<byte>
    requires k <= |stream| && AllInRange(t, |stream|)
  {
    stream[..k] + Filler(stream, k, t)
  }

  /** Having read `s` from `from` to `m`, the head is inside a command. */
  predicate MidCommand(s: seq<byte>, from: nat, m: nat, done: seq<Command>) {
    from <= m <= |s| && !Run(Head(Ground, done), s[from..m]).state.Ground?
  }

  /** Cutting the filler of the first band short leaves the head inside that band. */
  lemma CutInside(g: Geometry, mode: byte, b: Band, t: seq<Band>, header: seq<byte>, data: seq<byte>, pre: seq<byte>,
                  tail: seq<byte>, stream: seq<byte>, k: nat, m: nat, done: seq<Command>)
    requires g.Valid() && b.rows < 0x1_0000 && |data| == g.Bytes(b.rows)
    requires header == EncodeRasterHeader(g.widthBytes, b.rows, mode) && |header| == 8
    requires b == Band(|pre|, |pre| + 8, |pre| + 8 + |data|, b.rows) && |pre| < k < b.dataEnd
    requires stream == pre + (header + data) + tail && AllInRange([b] + t, |stream|)
    requires RowsStarted(k, t) == DataBefore(k, t) == 0
    ensures |Padded(stream, k, [b] + t)| == b.dataEnd
    ensures k <= m < b.dataEnd ==> MidCommand(Padded(stream, k, [b] + t), |pre|, m, done)
  {
    InsideBand(b, t, stream, k);
    BandCompleted(pre, header, data, tail, k);
    hide Filler, EncodeRasterHeader, AllInRange, Geometry.Bytes, Run, RowsStarted, DataBefore;
    var d: nat := Max(0, k - b.dataStart);
    var white := Whitened(data, d, |data|);
    var band := header + white;
    assert |white| == |data|;
    hide Whitened;
    if k <= m < b.dataEnd {
      assert (pre + band)[|pre|..m] == band[..m - |pre|];
      InsideBandOutOfSync(g, mode, b.rows, white, m - |pre|, done);
    }
  }

  lemma SentFirst(pre: seq<byte>, band: seq<byte>, rest: seq<byte>, k: nat, filler: seq<byte>)
    requires |pre + band| <= k <= |pre + band + rest|
    ensures pre + band <= (pre + band + rest)[..k] + filler
  {
  }

  /** A complete band in front of the cut is read and done with. */
  lemma CutBehind(g: Geometry, mode: byte, b: Band, t: seq<Band>, header: seq<byte>, data: seq<byte>, pre: seq<byte>,
                  tail: seq<byte>, stream: seq<byte>, k: nat, m: nat, done: seq<Command>)
    requires g.Valid() && b.rows < 0x1_0000 && |data| == g.Bytes(b.rows)
    requires header == EncodeRasterHeader(g.widthBytes, b.rows, mode) && |header| == 8
    requires b == Band(|pre|, |pre| + 8, |pre| + 8 + |data|, b.rows) && b.dataEnd <= k <= |stream|
    requires stream == pre + (header + data) + tail && AllInRange([b] + t, |stream|) && AllInRange(t, |stream|)
    requires MidCommand(Padded(stream, k, t), b.dataEnd, m, done + [Raster(mode, g.widthBytes, b.rows, data)])
    ensures MidCommand(Padded(stream, k, [b] + t), |pre|, m, done)
  {
    BehindBand(b, t, stream, k);
    hide Filler, EncodeRasterHeader, AllInRange, Geometry.Bytes, Run;
    var padded, next := stream[..k] + Filler(stream, k, t), pre + (header + data);
    SentFirst(pre, header + data, tail, k, Filler(stream, k, t));
    assert padded[|pre|..|next|] == next[|pre|..] == header + data;
    SliceSplit(padded, |pre|, |next|, m);
    RunAppend(Head(Ground, done), header + data, padded[|next|..m]);
    RunBand(g, mode, b.rows, data, done);
  }

  lemma PaddedLength(b: Band, t: seq<Band>, stream: seq<byte>, k: nat)
    requires b.headerStart <= b.dataStart <= b.dataEnd <= k <= |stream| && b.headerStart < k
    requires AllInRange([b] + t, |stream|) && AllInRange(t, |stream|)
    ensures |Padded(stream, k, [b] + t)| == |Padded(stream, k, t)|
  {
    BehindBand(b, t, stream, k);
  }

  /** A filler that is cut short leaves the head inside the band in progress, wherever it is cut. */
  lemma {:induction false} CutPadding(g: Geometry, mode: byte, bitmap: seq<byte>, rows: nat, pre: seq<byte>,
                                      post: seq<byte>, stream: seq<byte>, k: nat, m: nat, done: seq<Command>)
    requires g.Valid() && |bitmap| == g.Bytes(rows)
    requires stream == pre + Body(g, mode, bitmap, rows) + post
    requires |pre| <= k <= |pre| + |Body(g, mode, bitmap, rows)|
    requires AllInRange(Table(g, rows, |pre|), |stream|)
    requires k <= m < |Padded(stream, k, Table(g, rows, |pre|))|
    ensures MidCommand(Padded(stream, k, Table(g, rows, |pre|)), |pre|, m, done)
    decreases rows
  {
    assert rows == 0 ==> k == |pre|;
    if k == |pre| {
      NotStarted(g, rows, |pre|, stream, k);
    } else {
      hide Body, Table, Padded, MidCommand, AllInRange, RowsStarted, DataBefore, EncodeRasterHeader, Geometry.Bytes,
           BandRows;
      var b, header, data, next := Peel(g, mode, bitmap, rows, pre, post, stream);
      var t, rest := Table(g, rows - b.rows, b.dataEnd), Body(g, mode, next, rows - b.rows);
      if k < b.dataEnd {
        NotStarted(g, rows - b.rows, b.dataEnd, stream, k);
        CutInside(g, mode, b, t, header, data, pre, rest + post, stream, k, m, done);
      } else {
        PaddedLength(b, t, stream, k);
        CutPadding(g, mode, next, rows - b.rows, pre + (header + data), post, stream, k, m,
                   done + [Raster(mode, g.widthBytes, b.rows, data)]);
        CutBehind(g, mode, b, t, header, data, pre, rest + post, stream, k, m, done);
      }
    }
  }
}
