/** The printer client: `phomemo/printer.py` over the contract of `phomemo/transport.py`. */
module PrinterClient {
  import opened Bytes
  import opened Commands
  import opened PrintHead
  import opened RasterStream
  import opened Interruption
  import opened Transfer
  import opened Printing
  import opened Progress

  /** `BleTransport.write`: append the bytes, or fail and count as disconnected. */
  class Transport {
    const chunkBytes: nat
    var connected: bool
    var written: seq<seq<byte>>

    constructor (chunk: nat)
      ensures chunkBytes == chunk && connected && written == []
    {
      chunkBytes := chunk;
      connected := true;
      written := [];
    }

    method Write(data: seq<byte>) returns (ok: bool)
      requires |data| <= chunkBytes
      modifies this
      ensures ok ==> old(connected) && connected && written == old(written) + [data]
      ensures !ok ==> !connected && written == old(written)
    {
      var fails: bool := *;
      if !connected || fails {
        connected := false;
        return false;
      }
      written := written + [data];
      return true;
    }
  }

  class Printer {
    const geometry: Geometry
    const transport: Transport
    var rowsSent: nat

    constructor (g: Geometry, t: Transport)
      ensures geometry == g && transport == t && rowsSent == 0
    {
      geometry := g;
      transport := t;
      rowsSent := 0;
    }

    method BuildRasterStream(bitmap: seq<byte>, height: nat, s: Settings) returns (stream: seq<byte>, bands: seq<Band>)
      requires s.geometry == geometry && geometry.Valid() && |bitmap| == geometry.Bytes(height)
      ensures stream == Stream(s, bitmap, height)
      ensures bands == BandTable(s, height)
    {
      var parts := [EncodeInit()];
      if s.density.Some? {
        parts := parts + [EncodeDensity(s.density.value)];
      }
      PrefixJoins(s);
      parts, bands := AppendBands(bitmap, height, s, parts);
      hide Body, Table, Join, Geometry.Bytes, Prefix;
      if s.feedLines > 0 {
        JoinSnoc(parts, Trailer(s.feedLines));
        parts := parts + [EncodeFeedLines(Min(s.feedLines, 255)).value];
      }
      stream := Join(parts);
    }

    /** The band loop of `_build_raster_stream`. */
    method AppendBands(bitmap: seq<byte>, height: nat, s: Settings, prefix: seq<seq<byte>>)
        returns (parts: seq<seq<byte>>, bands: seq<Band>)
      requires s.geometry == geometry && geometry.Valid() && |bitmap| == geometry.Bytes(height)
      ensures Join(parts) == Join(prefix) + Body(geometry, s.mode, bitmap, height)
      ensures bands == Table(geometry, height, |Join(prefix)|)
    {
      parts := prefix;
      var offset := |Join(prefix)|;
      bands := [];
      var row := 0;
      assert bitmap[geometry.Bytes(0)..] == bitmap;
      while row < height
        invariant 0 <= row <= height && offset == |Join(parts)|
        invariant Building(geometry, s.mode, bitmap, height, row, parts, bands, prefix)
      {
        var bandRows := Min(geometry.bandHeight, height - row);
        var header := EncodeRasterHeader(geometry.widthBytes, bandRows, s.mode);
        RowSlice(geometry, bitmap, height, row, bandRows);
        var data := bitmap[geometry.Bytes(row)..geometry.Bytes(row + bandRows)];
        var dataStart := offset + |header|;
        StepBuild(geometry, s.mode, bitmap, height, row, parts, bands, prefix, header, data);
        hide Building;
        parts := parts + [header];
        parts := parts + [data];
        bands := bands + [Band(offset, dataStart, dataStart + |data|, bandRows)];
        offset := dataStart + |data|;
        row := row + bandRows;
      }
      assert Body(geometry, s.mode, bitmap[geometry.Bytes(height)..], 0) == [] && Table(geometry, 0, offset) == [];
    }

    static lemma RowSlice(g: Geometry, bitmap: seq<byte>, height: nat, row: nat, n: nat)
      requires |bitmap| == g.Bytes(height) && row + n <= height
      ensures g.Bytes(row) <= g.Bytes(row + n) <= |bitmap|
      ensures |bitmap[g.Bytes(row)..]| == g.Bytes(height - row)
      ensures |bitmap[g.Bytes(row)..g.Bytes(row + n)]| == g.Bytes(n)
      ensures bitmap[g.Bytes(row)..][..g.Bytes(n)] == bitmap[g.Bytes(row)..g.Bytes(row + n)]
      ensures bitmap[g.Bytes(row)..][g.Bytes(n)..] == bitmap[g.Bytes(row + n)..]
    {
      BytesSplit(g, height, row);
      BytesSplit(g, height, row + n);
      BytesSplit(g, row + n, row);
      SliceTwice(bitmap, g.Bytes(row), g.Bytes(row + n));
    }

    /** Built so far plus still to build is the whole. */
    static ghost predicate Building(g: Geometry, mode: byte, bitmap: seq<byte>, height: nat, row: nat,
                                    parts: seq<seq<byte>>, bands: seq<Band>, prefix: seq<seq<byte>>)
      requires g.Valid() && |bitmap| == g.Bytes(height)
    {
      && row <= height
      && g.Bytes(row) <= |bitmap| && |bitmap[g.Bytes(row)..]| == g.Bytes(height - row)
      && Join(parts) + Body(g, mode, bitmap[g.Bytes(row)..], height - row)
      == Join(prefix) + Body(g, mode, bitmap, height)
      && bands + Table(g, height - row, |Join(parts)|) == Table(g, height, |Join(prefix)|)
    }

    /** Appending one band keeps it so. */
    static lemma StepBuild(g: Geometry, mode: byte, bitmap: seq<byte>, height: nat, row: nat, parts: seq<seq<byte>>,
                           bands: seq<Band>, prefix: seq<seq<byte>>, header: seq<byte>, data: seq<byte>)
      requires g.Valid() && |bitmap| == g.Bytes(height) && row < height
      requires Building(g, mode, bitmap, height, row, parts, bands, prefix)
      requires header == EncodeRasterHeader(g.widthBytes, BandRows(g, height - row), mode)
      requires g.Bytes(row) <= g.Bytes(row + BandRows(g, height - row)) <= |bitmap|
      requires data == bitmap[g.Bytes(row)..g.Bytes(row + BandRows(g, height - row))]
      ensures |header| == 8 && |Join(parts + [header] + [data])| == |Join(parts)| + 8 + |data|
      ensures Building(g, mode, bitmap, height, row + BandRows(g, height - row), parts + [header] + [data],
                       bands + [Band(|Join(parts)|, |Join(parts)| + 8, |Join(parts)| + 8 + |data|,
                                     BandRows(g, height - row))],
                       prefix)
    {
      hide Body, Table, Join, Geometry.Bytes, EncodeRasterHeader;
      var n, h, d, next := Unfold(g, mode, bitmap[g.Bytes(row)..], height - row, |Join(parts)|);
      RowSlice(g, bitmap, height, row, n);
      RowSlice(g, bitmap, height, row + n, 0);
      assert next == (d + next)[|d|..] && d == (d + next)[..|d|];
      JoinTwo(parts, header, data);
      ConcatAssociates(Join(parts), header, data);
      ConcatAssociates(Join(parts), header + data, Body(g, mode, next, height - row - n));
      BandsAssociate(bands, Band(|Join(parts)|, |Join(parts)| + 8, |Join(parts)| + 8 + |data|, n),
                     Table(g, height - row - n, |Join(parts)| + 8 + |data|));
    }

    static lemma BandsAssociate(a: seq<Band>, b: Band, c: seq<Band>)
      ensures a + ([b] + c) == (a + [b]) + c
    {
    }

    static lemma PrefixJoins(s: Settings)
      ensures Join([EncodeInit()]) == EncodeInit()
      ensures s.density.Some? ==> Join([EncodeInit()] + [EncodeDensity(s.density.value)]) == Prefix(s)
      ensures s.density.None? ==> EncodeInit() == Prefix(s)
    {
      JoinSnoc<byte>([], EncodeInit());
      assert [] + [EncodeInit()] == [EncodeInit()];
      if s.density.Some? {
        JoinSnoc([EncodeInit()], EncodeDensity(s.density.value));
      }
    }

    static lemma JoinTwo(parts: seq<seq<byte>>, header: seq<byte>, data: seq<byte>)
      ensures Join(parts + [header] + [data]) == Join(parts) + header + data
    {
      JoinSnoc(parts, header);
      JoinSnoc(parts + [header], data);
    }

    /** `_rows_before`, as the accumulating loop it is. */
    method RowsBeforeOffset(offset: nat, bands: seq<Band>) returns (rows: int)
      requires geometry.widthBytes >= 1
      ensures rows == RowsBefore(offset, bands, geometry.widthBytes)
    {
      rows := 0;
      var i := 0;
      while i < |bands|
        invariant 0 <= i <= |bands|
        invariant rows + RowsBefore(offset, bands[i..], geometry.widthBytes)
                  == RowsBefore(offset, bands, geometry.widthBytes)
      {
        var b := bands[i];
        assert bands[i..][1..] == bands[i + 1..];
        if offset >= b.dataEnd {
          rows := rows + b.rows;
        } else if offset > b.dataStart {
          rows := rows + (offset - b.dataStart) / geometry.widthBytes;
        }
        i := i + 1;
      }
    }

    /** `_pad_band`: writes the filler in chunks; a failing write cuts it short. */
    method PadBand(stream: seq<byte>, offset: nat, bands: seq<Band>) returns (ok: bool)
      requires AllInRange(bands, |stream|) && transport.chunkBytes >= 1
      modifies transport
      ensures ok ==>
                && (old(transport.connected) ==> transport.connected)
                && transport.written
                == old(transport.written) + Chunked(Filler(stream, offset, bands), transport.chunkBytes)
      ensures !ok ==>
                !transport.connected &&
                CutShort(transport.written, old(transport.written),
                         Chunked(Filler(stream, offset, bands), transport.chunkBytes))
    {
      var i := 0;
      while i < |bands|
        invariant 0 <= i <= |bands| && AllInRange(bands[i..], |stream|)
        invariant Filler(stream, offset, bands[i..]) == Filler(stream, offset, bands)
        invariant transport.written == old(transport.written) && transport.connected == old(transport.connected)
      {
        var b := bands[i];
        assert bands[i..][1..] == bands[i + 1..];
        if b.headerStart < offset < b.dataEnd {
          var filler := (if offset < b.dataStart then stream[offset..b.dataStart] else [])
                        + Zeros(b.dataEnd - Max(offset, b.dataStart));
          ok := WriteChunked(filler);
          return;
        }
        i := i + 1;
      }
      ok := true;
    }

    method WriteChunked(filler: seq<byte>) returns (ok: bool)
      requires transport.chunkBytes >= 1
      modifies transport
      ensures ok ==>
                && (old(transport.connected) ==> transport.connected)
                && transport.written == old(transport.written) + Chunked(filler, transport.chunkBytes)
      ensures !ok ==>
                !transport.connected &&
                CutShort(transport.written, old(transport.written), Chunked(filler, transport.chunkBytes))
    {
      var chunk := transport.chunkBytes;
      ghost var pieces := Chunked(filler, chunk);
      ghost var k := 0;
      var start := 0;
      while start < |filler|
        invariant 0 <= start <= |filler| && 0 <= k <= |pieces|
        invariant pieces[k..] == Chunked(filler[start..], chunk)
        invariant transport.written == old(transport.written) + pieces[..k]
        invariant old(transport.connected) ==> transport.connected
        decreases |filler| - start
      {
        var end := Min(start + chunk, |filler|);
        var rest := filler[start..];
        assert rest[..Min(chunk, |rest|)] == filler[start..end] && rest[Min(chunk, |rest|)..] == filler[end..];
        assert pieces[k..][0] == filler[start..end] && pieces[k..][1..] == pieces[k + 1..];
        var sent := transport.Write(filler[start..end]);
        if !sent {
          return false;
        }
        k := k + 1;
        start := end;
      }
      assert k == |pieces|;
      ok := true;
    }

    /** The two flags that end the transfer with a padded band. */
    method StopIfAsked(p: Page, tick: Tick, offset: nat) returns (asked: bool, outcome: Outcome)
      requires p.Valid() && transport.chunkBytes >= 1
      modifies transport
      ensures asked == ((tick.abort || tick.lidOpen) && offset < p.TailStart())
      ensures !asked ==> transport.written == old(transport.written) && transport.connected == old(transport.connected)
      ensures asked && outcome != LinkLost ==>
                && outcome == (if tick.abort then Cancelled else LidOpened)
                && (old(transport.connected) ==> transport.connected)
                && transport.written
                == old(transport.written) + Chunked(Filler(p.stream, offset, p.bands), transport.chunkBytes)
      ensures asked && outcome == LinkLost ==>
                !transport.connected &&
                CutShort(transport.written, old(transport.written),
                         Chunked(Filler(p.stream, offset, p.bands), transport.chunkBytes))
    {
      if tick.abort && offset < p.TailStart() {
        var padded := PadBand(p.stream, offset, p.bands);
        return true, if padded then Cancelled else LinkLost;
      }
      if tick.lidOpen && offset < p.TailStart() {
        var padded := PadBand(p.stream, offset, p.bands);
        return true, if padded then LidOpened else LinkLost;
      }
      return false, Complete;
    }

    /** Bookkeeping after a piece: the row count and the progress callback. */
    method CountRows(p: Page, before: nat, offset: nat, reporter: Reporter)
      requires p.Valid() && p.width == geometry.widthBytes && before <= offset && RowsGrow(p)
      requires rowsSent == RowsBefore(before, p.bands, p.width) && rowsSent <= p.height
      requires reporter.Valid() && reporter.last <= Percent(rowsSent, p.height)
      modifies this, reporter
      ensures rowsSent == RowsBefore(offset, p.bands, p.width) && rowsSent <= p.height
      ensures reporter.Valid() && reporter.last == Percent(rowsSent, p.height)
    {
      var rows := RowsBeforeOffset(offset, p.bands);
      RowsGrowAt(p, before, offset);
      PercentMonotone(rowsSent, rows, p.height);
      rowsSent := rows;
      reporter.OnProgress(rowsSent, p.height);
    }

    /** One iteration: stop for a flag, or write the next piece and count its rows. */
    method SendOne(p: Page, schedule: nat -> Tick, offset: nat, n: nat, reporter: Reporter)
        returns (ended: Option<Outcome>, next: nat)
      requires p.Valid() && transport.chunkBytes >= 1 && p.width == geometry.widthBytes && RowsGrow(p)
      requires offset < |p.stream|
      requires rowsSent == RowsBefore(offset, p.bands, p.width) && rowsSent <= p.height
      requires reporter.Valid() && reporter.last <= Percent(rowsSent, p.height)
      modifies this, transport, reporter
      ensures offset <= next <= |p.stream|
      ensures ended.Some? ==>
                && ended.value != Complete && next == offset && rowsSent == old(rowsSent)
                && reporter.last == old(reporter.last) && reporter.Valid()
      ensures ended != Some(LinkLost) && old(transport.connected) ==> transport.connected
      ensures ended.Some? && ended.value != LinkLost ==>
                Send(p, transport.chunkBytes, schedule, offset, n).outcome == ended.value
                && Send(p, transport.chunkBytes, schedule, offset, n).stop == offset
                && transport.written
                == old(transport.written) + Send(p, transport.chunkBytes, schedule, offset, n).writes
      ensures ended == Some(LinkLost) ==>
                !transport.connected
                && CutShort(transport.written, old(transport.written),
                            Send(p, transport.chunkBytes, schedule, offset, n).writes)
      ensures ended.None? ==>
                next > offset && rowsSent == RowsBefore(next, p.bands, p.width) && rowsSent <= p.height
                && reporter.Valid() && reporter.last == Percent(rowsSent, p.height)
                && transport.written == old(transport.written) + [p.stream[offset..next]]
                && var rest := Send(p, transport.chunkBytes, schedule, next, n + 1);
                   Send(p, transport.chunkBytes, schedule, offset, n)
                   == rest.(writes := [p.stream[offset..next]] + rest.writes)
    {
      var tick := schedule(n);
      if MustStop(p, tick, offset) {
        SendStop(p, transport.chunkBytes, schedule, offset, n);
      }
      var asked, why := StopIfAsked(p, tick, offset);
      if asked {
        return Some(why), offset;
      }
      if tick.absent && p.TooMuchUnsent(rowsSent) {
        return Some(SheetRanOut), offset;
      }
      hide RowsGrow, RowsBefore, AllInRange, Page.TooMuchUnsent, Percent;
      var piece := p.stream[offset..Min(offset + transport.chunkBytes, |p.stream|)];
      ghost var again, rest := SendStep(p, transport.chunkBytes, schedule, offset, n);
      next := offset + |piece|;
      var ok := transport.Write(piece);
      if !ok {
        return Some(LinkLost), offset;
      }
      CountRows(p, offset, next, reporter);
      ended := None;
    }

    /**
     * `_transfer`. With a working transport it does what `Send` says; a failing write ends it
     * with a proper prefix of those writes. Progress only ever grows.
     */
    method SendPage(p: Page, schedule: nat -> Tick, reporter: Reporter) returns (outcome: Outcome)
      requires p.Valid() && transport.chunkBytes >= 1 && p.width == geometry.widthBytes
      requires rowsSent == RowsBefore(0, p.bands, p.width) == 0 && RowsGrow(p)
      requires reporter.Valid() && reporter.last <= Percent(0, p.height)
      modifies this, transport, reporter
      ensures outcome != LinkLost ==>
                && outcome == Send(p, transport.chunkBytes, schedule, 0, 0).outcome
                && transport.written == old(transport.written) + Send(p, transport.chunkBytes, schedule, 0, 0).writes
                && rowsSent == RowsBefore(Send(p, transport.chunkBytes, schedule, 0, 0).stop, p.bands, p.width)
                && (old(transport.connected) ==> transport.connected)
      ensures outcome == LinkLost ==>
                !transport.connected &&
                CutShort(transport.written, old(transport.written),
                         Send(p, transport.chunkBytes, schedule, 0, 0).writes)
      ensures reporter.Valid() && rowsSent <= p.height && reporter.last <= Percent(rowsSent, p.height)
      ensures outcome == Complete && p.stream != [] ==> reporter.last == Percent(rowsSent, p.height)
    {
      var chunk := transport.chunkBytes;
      ghost var whole := Send(p, chunk, schedule, 0, 0);
      var offset, sent := 0, 0;
      hide Send, Filler, RowsBefore, RowsGrow, Percent, AllInRange, Chunked, Page.TooMuchUnsent;
      while offset < |p.stream|
        invariant 0 <= offset <= |p.stream| && 0 <= sent <= |whole.writes|
        invariant Send(p, chunk, schedule, offset, sent) == whole.(writes := whole.writes[sent..])
        invariant transport.written == old(transport.written) + whole.writes[..sent]
        invariant old(transport.connected) ==> transport.connected
        invariant rowsSent == RowsBefore(offset, p.bands, p.width) && rowsSent <= p.height
        invariant reporter.Valid() && reporter.last <= Percent(rowsSent, p.height)
        invariant offset > 0 ==> reporter.last == Percent(rowsSent, p.height)
        decreases |p.stream| - offset
      {
        var ended, next := SendOne(p, schedule, offset, sent, reporter);
        if ended.Some? {
          SplitAt(old(transport.written), whole.writes, sent);
          if ended.value == LinkLost {
            CutShortLater(transport.written, old(transport.written), whole.writes, sent);
          }
          return ended.value;
        }
        assert whole.writes[sent..][0] == p.stream[offset..next]
               && whole.writes[sent + 1..] == whole.writes[sent..][1..];
        TakeNext(old(transport.written), whole.writes, sent);
        offset := next;
        sent := sent + 1;
      }
      SendDone(p, chunk, schedule, sent);
      assert whole.writes[sent..] == [];
      outcome := Complete;
    }

    static lemma SplitAt<T>(a: seq<T>, s: seq<T>, k: nat)
      requires k <= |s|
      ensures a + s[..k] + s[k..] == a + s
    {
    }

    /** What `RowsBeforeMonotone` gives for a real page. */
    static ghost predicate RowsGrow(p: Page)
      requires p.width >= 1
    {
      forall a: nat, b: nat :: a <= b ==>
        0 <= RowsBefore(a, p.bands, p.width) <= RowsBefore(b, p.bands, p.width) <= p.height
    }

    static lemma RowsGrowAt(p: Page, a: nat, b: nat)
      requires p.width >= 1 && RowsGrow(p) && a <= b
      ensures 0 <= RowsBefore(a, p.bands, p.width) <= RowsBefore(b, p.bands, p.width) <= p.height
    {
    }

    static lemma PageRowsGrow(s: Settings, bitmap: seq<byte>, height: nat, fraction: real)
      requires s.geometry.Valid() && |bitmap| == s.geometry.Bytes(height)
      ensures RowsGrow(PageOf(s, bitmap, height, fraction))
      ensures RowsBefore(0, BandTable(s, height), s.geometry.widthBytes) == 0
      ensures RowsBefore(|Stream(s, bitmap, height)|, BandTable(s, height), s.geometry.widthBytes) == height
    {
      var g, base := s.geometry, |Prefix(s)|;
      NoRowsBefore(g, height, base, 0);
      forall a: nat, b: nat | a <= b
        ensures 0 <= RowsBefore(a, BandTable(s, height), g.widthBytes)
                  <= RowsBefore(b, BandTable(s, height), g.widthBytes) <= height
      {
        RowsBeforeBounds(g, height, base, a);
        RowsBeforeBounds(g, height, base, b);
        RowsBeforeMonotone(g, height, base, a, b);
      }
      if height >= 1 {
        LastRowEnd(g, s.mode, bitmap, height, base);
        RowsBeforeMonotone(g, height, base, 0, |Stream(s, bitmap, height)|);
      }
    }

    /**
     * `print_bitmap`. A working transport is given exactly the planned writes, and the outcome follows
     * from the transfer, the motor and the lid; a failing write cuts them short and is a lost link.
     * A page reported printed is on paper, whole, its progress ended at 100. A link lost leaves the
     * head at ground exactly if what was sent ends a command of the page, never in a filler.
     */
    method PrintBitmap(bitmap: seq<byte>, height: nat, s: Settings, fraction: real, schedule: nat -> Tick,
                       wait: bool, motorStops: bool, lid: LidAnswer, reporter: Reporter)
        returns (outcome: PrintOutcome, told: Option<LidAnswer>)
      requires s.geometry == geometry && geometry.Valid() && |bitmap| == geometry.Bytes(height)
      requires transport.chunkBytes >= (if wait then 3 else 1) && reporter.Valid() && reporter.pushed == []
      modifies this, transport, reporter
      ensures !old(transport.connected) <==> outcome == NotConnected
      ensures outcome == NotConnected ==>
                transport.written == old(transport.written) && !transport.connected && told == None
      ensures outcome != NotConnected ==>
                var r := Send(PageOf(s, bitmap, height, fraction), transport.chunkBytes, schedule, 0, 0);
                var planned := Planned(r, wait && motorStops);
                && rowsSent == 0
                && (fraction >= 0.0 ==>
                      r.outcome == Complete || r.stop < PageOf(s, bitmap, height, fraction).TailStart())
                && (outcome == Stopped(LinkLost) ==>
                      && !transport.connected && CutShort(transport.written, old(transport.written), planned)
                      && var sent := transport.written[|old(transport.written)|..];
                         (HeadAfter(sent).state.Ground?
                          <==> |Join(sent)| <= r.stop && AtBoundary(s, bitmap, height, |Join(sent)|)))
                && (outcome != Stopped(LinkLost) ==>
                      && transport.connected && transport.written == old(transport.written) + planned
                      && (r.outcome != Complete ==> outcome == Stopped(r.outcome))
                      && (r.outcome == Complete && !wait ==> outcome == Printed)
                      && (r.outcome == Complete && wait && !motorStops ==> outcome == NoMotorStop)
                      && (r.outcome == Complete && wait && motorStops ==>
                            told == Some(lid) && (outcome == Printed <==> lid == LidClosed)
                            && (outcome == Stopped(LidOpened) <==> lid == LidOpen)
                            && (outcome == Stopped(SheetRanOut) <==> lid == LidSilent)))
                && (told.Some? ==> r.outcome == Complete && wait && motorStops && outcome != Stopped(LinkLost))
      ensures outcome == Printed && wait ==> motorStops && lid == LidClosed && told == Some(LidClosed)
      ensures outcome == Printed ==>
                && reporter.last == 100
                && HeadAfter(transport.written[|old(transport.written)|..])
                == Head(Ground, PaperOf(s, bitmap, height, wait))
      ensures height >= 1 && outcome in {Printed, NoMotorStop, Stopped(Cancelled), Stopped(LidOpened)}
              && transport.chunkBytes >= |Prefix(s)| ==>
                HeadAfter(transport.written[|old(transport.written)|..]).state.Ground?
      ensures reporter.Valid() && Increasing(reporter.pushed)
    {
      if !transport.connected {
        return NotConnected, None;
      }
      TailOfPage(s, bitmap, height, fraction);
      PageRowsGrow(s, bitmap, height, fraction);
      TrailerCompleted(s, bitmap, height, fraction, transport.chunkBytes, schedule);
      var stream, bands := BuildRasterStream(bitmap, height, s);
      var page := Page(stream, bands, height, geometry.widthBytes, fraction);
      assert page == PageOf(s, bitmap, height, fraction);
      rowsSent := 0;
      ghost var before := transport.written;
      ghost var r := Send(page, transport.chunkBytes, schedule, 0, 0);
      var sent := SendPage(page, schedule, reporter);
      hide Stream, BandTable, Run, Join, PageCommands, Body, RowsBefore, Send, AtBoundary, Prefix, Page.TailStart,
           Planned, CutShort, Asked, RowsGrow;
      if sent == Complete {
        WholePage(s, bitmap, height, fraction, transport.chunkBytes, schedule);
        outcome, told := Conclude(wait, motorStops, lid);
      } else {
        outcome, told := Stopped(sent), None;
      }
      PlannedWrites(r, wait && motorStops, before, transport.written);
      if outcome == Stopped(LinkLost) {
        LostHead(s, bitmap, height, fraction, transport.chunkBytes, schedule, wait && motorStops, before,
                 transport.written);
      } else {
        PlannedHead(s, bitmap, height, fraction, transport.chunkBytes, schedule, wait && motorStops);
      }
      rowsSent := 0;
    }

    /** Behind a complete transfer: the motor, and then the lid. */
    method Conclude(wait: bool, motorStops: bool, lid: LidAnswer)
        returns (outcome: PrintOutcome, told: Option<LidAnswer>)
      requires wait ==> transport.chunkBytes >= 3
      modifies transport
      ensures !wait ==> outcome == Printed
      ensures wait && !motorStops ==> outcome == NoMotorStop
      ensures wait && motorStops && outcome != Stopped(LinkLost) ==>
                && told == Some(lid) && (outcome == Printed <==> lid == LidClosed)
                && (outcome == Stopped(LidOpened) <==> lid == LidOpen)
                && (outcome == Stopped(SheetRanOut) <==> lid == LidSilent)
      ensures told.Some? ==> wait && motorStops && outcome != Stopped(LinkLost)
      ensures outcome != Stopped(LinkLost) ==>
                && (old(transport.connected) ==> transport.connected)
                && transport.written == old(transport.written) + Asked(wait && motorStops)
      ensures outcome == Stopped(LinkLost) ==>
                !transport.connected && wait && motorStops && transport.written == old(transport.written)
    {
      if !wait {
        return Printed, None;
      }
      if !motorStops {
        return NoMotorStop, None;
      }
      var asked := transport.Write(EncodeQuery(LID_STATE));
      if !asked {
        return Stopped(LinkLost), None;
      }
      told := Some(lid);
      outcome := match lid
                 case LidClosed => Printed
                 case LidOpen => Stopped(LidOpened)
                 case LidSilent => Stopped(SheetRanOut);
    }

    static lemma WholePage(s: Settings, bitmap: seq<byte>, height: nat, fraction: real, chunk: nat,
                           schedule: nat -> Tick)
      requires s.geometry.Valid() && |bitmap| == s.geometry.Bytes(height) && chunk >= 1
      requires Send(PageOf(s, bitmap, height, fraction), chunk, schedule, 0, 0).outcome == Complete
      ensures Send(PageOf(s, bitmap, height, fraction), chunk, schedule, 0, 0).stop == |Stream(s, bitmap, height)|
      ensures |Stream(s, bitmap, height)| > 0
      ensures RowsBefore(|Stream(s, bitmap, height)|, BandTable(s, height), s.geometry.widthBytes) == height
      ensures Percent(height, height) == 100
    {
      SendShape(PageOf(s, bitmap, height, fraction), chunk, schedule, 0, 0);
      PageRowsGrow(s, bitmap, height, fraction);
      PercentMonotone(height, height, height);
    }
  }
}
