/**
 * The raster job of the printer application (`printer-app/job.c`): rows are copied into a buffer of
 * 64, sent as `lines` messages and accumulated by the session at the other end of the socket.
 */
module RasterJob {
  import opened Bytes
  import opened Framing
  import opened PageSession

  const ROWS_PER_MESSAGE := 64

  function LinesMessage(count: nat): Message {
    Message(false, Some("lines"), None, None, count, Absent, Absent, "")
  }

  /** Bytes of `rows` rows. */
  function RowsBytes(rows: nat, rowBytes: nat): nat {
    MulSplit(rows, 0, rowBytes);
    rows * rowBytes
  }

  lemma SizeNext(rows: nat, rowBytes: nat)
    ensures RowsBytes(rows + 1, rowBytes) == RowsBytes(rows, rowBytes) + rowBytes
    ensures RowsBytes(0, rowBytes) == 0
  {
  }

  lemma SizeMonotone(a: nat, b: nat, rowBytes: nat)
    requires a <= b
    ensures RowsBytes(a, rowBytes) <= RowsBytes(b, rowBytes)
  {
    MulMonotone(a, b, rowBytes);
  }

  /** A `lines` message of so many rows keeps to the limits of the wire. */
  predicate LinesFit(encode: Message -> seq<byte>, count: nat, rowBytes: nat) {
    var size := RowsBytes(count, rowBytes);
    |encode(LinesMessage(count).(size := Integer(size), cSize := Integer(size)))| + 1 <= MAX_LINE && size <= MAX_PAYLOAD
  }

  class Job {
    const pages: Pages
    const rowBytes: nat
    var buffer: array<byte>
    var buffered: nat
    var pageOpen: bool
    var failed: bool
    ghost var written: seq<seq<byte>>  // rows handed over since the page was opened

    /** Rows at the session and rows in the buffer are, in order, all the rows written. */
    ghost predicate Valid()
      reads this, buffer, pages, pages.page
    {
      && pages.Valid() && rowBytes >= 1
      && buffer.Length == RowsBytes(ROWS_PER_MESSAGE, rowBytes) && buffered < ROWS_PER_MESSAGE
      && (forall r :: r in written ==> |r| == rowBytes)
      && RowsBytes(buffered, rowBytes) <= buffer.Length
      && (pageOpen && !failed ==>
            && pages.page != null && pages.page.spec.RowBytes() == rowBytes
            && pages.page.rows + buffered == |written| && buffered == |written| % ROWS_PER_MESSAGE
            && pages.page.data + buffer[..RowsBytes(buffered, rowBytes)] == Join(written))
    }

    /** The page has been opened at the bridge (`phomemo_rstartpage_cb` after its two calls). */
    constructor (p: Pages, bytes: nat)
      requires p.Valid() && p.page != null && p.page.rows == 0 && p.page.data == []
      requires bytes >= 1 && p.page.spec.RowBytes() == bytes
      ensures Valid() && fresh(buffer) && pages == p && rowBytes == bytes && pageOpen && !failed && written == []
    {
      pages := p;
      rowBytes := bytes;
      buffer := new byte[RowsBytes(ROWS_PER_MESSAGE, bytes)];
      buffered := 0;
      pageOpen := true;
      failed := false;
      written := [];
      new;
      assert pages.page.data + buffer[..0] == [];
    }

    /** A `lines` call: framed, read by the other end, answered by the session. */
    method CallLines(encode: Message -> seq<byte>, decode: seq<byte> -> Json, count: nat, payload: seq<byte>)
      returns (ok: bool)
      requires pages.Valid() && JsonLaws(encode, decode) && pages.page != null
      requires count >= 1 && |payload| == RowsBytes(count, pages.page.spec.RowBytes()) && payload != []
      modifies pages.page
      ensures pages.Valid() && pages.page == old(pages.page)
      ensures ok <==> LinesFit(encode, count, pages.page.spec.RowBytes())
                      && old(pages.page.rows) + count <= pages.page.spec.lengthRows
      ensures ok ==>
                pages.page.data == old(pages.page.data) + payload && pages.page.rows == old(pages.page.rows) + count
      ensures !ok ==> pages.page.data == old(pages.page.data) && pages.page.rows == old(pages.page.rows)
    {
      var wire := Encode(encode, LinesMessage(count), payload);
      FrameRoundTrip(encode, decode, LinesMessage(count), payload, []);
      assert wire + [] == wire;
      var read := PyRead(decode, wire);
      if !read.item.Got? {
        return false;
      }
      var reply := pages.Lines(read.item.m.count, read.item.payload);
      ok := reply.Ok?;
    }

    /** `flush_rows`. */
    method FlushRows(encode: Message -> seq<byte>, decode: seq<byte> -> Json, rows: nat) returns (ok: bool)
      requires pages.Valid() && JsonLaws(encode, decode) && rowBytes >= 1 && rows <= ROWS_PER_MESSAGE
      requires buffer.Length == RowsBytes(ROWS_PER_MESSAGE, rowBytes) && RowsBytes(rows, rowBytes) <= buffer.Length
      requires buffered == rows
      requires !failed ==> pages.page != null && pages.page.spec.RowBytes() == rowBytes
      modifies this, pages.page
      ensures pages.Valid() && pages.page == old(pages.page) && buffer == old(buffer)
      ensures pageOpen == old(pageOpen) && written == old(written)
      ensures old(failed) ==> !ok && failed && buffered == rows
      ensures !old(failed) ==> buffered == 0 && failed == !ok
      ensures !old(failed) ==>
                (ok <==> rows == 0 || (LinesFit(encode, rows, rowBytes)
                                       && old(pages.page.rows) + rows <= pages.page.spec.lengthRows))
      ensures !old(failed) && ok ==> pages.page.rows == old(pages.page.rows) + rows
                                     && pages.page.data == old(pages.page.data) + buffer[..RowsBytes(rows, rowBytes)]
    {
      if buffered == 0 || failed {
        if !failed {
          assert buffer[..RowsBytes(0, rowBytes)] == [];
        }
        return !failed;
      }
      var payload := buffer[..RowsBytes(buffered, rowBytes)];
      SizeNext(0, rowBytes);
      SizeMonotone(1, rows, rowBytes);
      ok := CallLines(encode, decode, buffered, payload);
      buffered := 0;
      if !ok {
        failed := true;
      }
    }

    /** The `memcpy` of one row behind the rows buffered. */
    method CopyRow(line: seq<byte>)
      requires |line| == rowBytes && buffered < ROWS_PER_MESSAGE
               && buffer.Length == RowsBytes(ROWS_PER_MESSAGE, rowBytes)
      requires 0 <= RowsBytes(buffered, rowBytes) && RowsBytes(buffered, rowBytes) + rowBytes <= buffer.Length
      modifies buffer
      ensures buffer[..RowsBytes(buffered, rowBytes) + rowBytes] == old(buffer[..RowsBytes(buffered, rowBytes)]) + line
    {
      var start := RowsBytes(buffered, rowBytes);
      var i := 0;
      while i < rowBytes
        invariant 0 <= i <= rowBytes
        invariant buffer[..start] == old(buffer[..start]) && buffer[start..start + i] == line[..i]
      {
        buffer[start + i] := line[i];
        i := i + 1;
      }
      assert line[..rowBytes] == line;
      assert buffer[..start + rowBytes] == buffer[..start] + buffer[start..start + rowBytes];
    }

    /** `phomemo_rwriteline_cb`: one row into the buffer, and the buffer out when it is full. */
    method WriteLine(encode: Message -> seq<byte>, decode: seq<byte> -> Json, line: seq<byte>, cancelled: bool)
      requires Valid() && JsonLaws(encode, decode) && |line| == rowBytes
      modifies this, buffer, pages.page
      ensures Valid() && buffer == old(buffer) && pages.page == old(pages.page) && pageOpen == old(pageOpen)
      ensures !old(pageOpen) || old(failed) || cancelled ==> written == old(written) && failed == old(failed)
      ensures old(pageOpen) && !old(failed) && !cancelled ==>
                && written == old(written) + [line]
                && (failed <==> |written| % ROWS_PER_MESSAGE == 0 &&
                                (!LinesFit(encode, ROWS_PER_MESSAGE, rowBytes)
                                 || |written| > pages.page.spec.lengthRows))
    {
      if !pageOpen || failed || cancelled {
        return;
      }
      hide PageSpec.RowBytes, PageBuffer.Valid, Join, JsonLaws;
      PushRow(line);
      SizeNext(0, rowBytes);
      hide RowsBytes;
      ModNext(|old(written)|);
      if buffered == ROWS_PER_MESSAGE {
        var ok := FlushRows(encode, decode, ROWS_PER_MESSAGE);
        EmptyTail(pages.page.data, buffer[..RowsBytes(0, rowBytes)]);
      }
    }

    static lemma ModNext(n: nat)
      ensures n % ROWS_PER_MESSAGE + 1 == ROWS_PER_MESSAGE ==> (n + 1) % ROWS_PER_MESSAGE == 0
      ensures n % ROWS_PER_MESSAGE + 1 < ROWS_PER_MESSAGE ==> (n + 1) % ROWS_PER_MESSAGE == n % ROWS_PER_MESSAGE + 1
    {
    }

    static lemma EmptyTail(a: seq<byte>, b: seq<byte>)
      requires |b| == 0
      ensures a + b == a
    {
    }

    /** The row at the end of the buffer, counted. */
    method PushRow(line: seq<byte>)
      requires Valid() && |line| == rowBytes && pageOpen && !failed
      modifies this, buffer
      ensures buffer == old(buffer) && pageOpen && !failed && pages.page == old(pages.page)
      ensures pages.page.data == old(pages.page.data) && pages.page.rows == old(pages.page.rows)
      ensures written == old(written) + [line] && buffered == old(buffered) + 1
      ensures 0 <= RowsBytes(buffered, rowBytes) <= buffer.Length
      ensures pages.page.data + buffer[..RowsBytes(buffered, rowBytes)] == Join(written)
    {
      var n := buffered;
      SizeNext(n, rowBytes);
      SizeMonotone(n + 1, ROWS_PER_MESSAGE, rowBytes);
      JoinSnoc(written, line);
      hide Join, RowsBytes;
      ghost var sent, stored := pages.page.data, buffer[..RowsBytes(n, rowBytes)];
      CopyRow(line);
      assert sent + (stored + line) == sent + stored + line;
      written := written + [line];
      buffered := n + 1;
    }

    /**
     * `phomemo_rendpage_cb` up to the `page_end` command, and the row check with which
     * `_cmd_page_end` receives it. None: the page was dropped or a `lines` call failed.
     */
    method EndPage(encode: Message -> seq<byte>, decode: seq<byte> -> Json, cancelled: bool) returns (accepted: bool)
      requires Valid() && JsonLaws(encode, decode)
      modifies this, pages.page
      ensures !pageOpen && pages.page == old(pages.page) && pages.Valid()
      ensures accepted ==>
                && pages.page != null && pages.page.data == Join(written)
                && pages.page.rows == |written| == pages.page.spec.lengthRows
      ensures !old(pageOpen) || old(failed) || cancelled ==> !accepted
      ensures old(pageOpen) && !old(failed) && !cancelled ==>
                (accepted <==> RestFits(encode, |written|, rowBytes) && |written| == pages.page.spec.lengthRows)
      ensures written == old(written)
    {
      if !pageOpen {
        return false;
      }
      pageOpen := false;
      if cancelled {
        return false;
      }
      var ok := FlushRows(encode, decode, buffered);
      if !ok {
        return false;
      }
      accepted := pages.page.rows == pages.page.spec.lengthRows;
    }
  }

  /** What is left over behind the full messages fits. */
  predicate RestFits(encode: Message -> seq<byte>, n: nat, rowBytes: nat) {
    n % ROWS_PER_MESSAGE == 0 || LinesFit(encode, n % ROWS_PER_MESSAGE, rowBytes)
  }

  /** Every `lines` message of a page of `n` rows keeps to the limits of the wire. */
  predicate FitsWire(encode: Message -> seq<byte>, n: nat, rowBytes: nat) {
    FullFit(encode, n, rowBytes) && RestFits(encode, n, rowBytes)
  }

  /**
   * A page as the raster driver delivers it, row by row, to a freshly opened page. Not cancelled,
   * it is accepted exactly when it has the rows announced and its messages fit; and then the
   * session holds exactly the rows written, in order.
   */
  method DeliverPage(encode: Message -> seq<byte>, decode: seq<byte> -> Json, pages: Pages, rowBytes: nat,
                     rows: seq<seq<byte>>) returns (accepted: bool)
    requires JsonLaws(encode, decode) && pages.Valid() && pages.page != null && pages.page.rows == 0
             && pages.page.data == []
    requires rowBytes >= 1 && pages.page.spec.RowBytes() == rowBytes
    requires forall r :: r in rows ==> |r| == rowBytes
    modifies pages.page
    ensures pages.page == old(pages.page) && pages.Valid()
    ensures accepted <==> |rows| == pages.page.spec.lengthRows && FitsWire(encode, |rows|, rowBytes)
    ensures accepted ==> pages.page.data == Join(rows) && pages.page.rows == |rows|
  {
    hide PageSpec.RowBytes, PageBuffer.Valid, JsonLaws;
    var job := new Job(pages, rowBytes);
    hide Job.Valid, Pages.Valid, RowsBytes, Join, Unfit, FullFit, FitsWire, LinesFit, RestFits;
    var y := 0;
    RowFits(encode, 0, pages.page.spec.lengthRows, rowBytes, false);
    while y < |rows|
      invariant 0 <= y <= |rows|
      invariant job.Valid() && job.pages == pages && job.rowBytes == rowBytes && job.pageOpen && fresh(job)
                && fresh(job.buffer)
      invariant pages.page == old(pages.page) && pages.page != null
      invariant !job.failed ==> job.written == rows[..y] && FullFit(encode, y, rowBytes)
      invariant job.failed ==> Unfit(encode, y, pages.page.spec.lengthRows, rowBytes)
    {
      assert rows[y] in rows && rows[..y] + [rows[y]] == rows[..y + 1];
      job.WriteLine(encode, decode, rows[y], false);
      RowFits(encode, y, pages.page.spec.lengthRows, rowBytes, job.failed);
      y := y + 1;
    }
    assert rows[..|rows|] == rows;
    accepted := job.EndPage(encode, decode, false);
    PageFits(encode, |rows|, pages.page.spec.lengthRows, rowBytes);
  }

  /** Bytes of a row as a request announces them. */
  function AnnouncedSize(a: PageArgs): nat {
    if a.width.Some? && a.bits.Some? && a.width.value >= 0 && a.bits.value >= 0 then a.width.value * a.bits.value / 8
    else 0
  }

  /**
   * A page from its request on. Begun, it is accepted at its end exactly when as many rows came as the
   * request said and their messages fit; and then the session holds exactly those rows, in order.
   */
  method RequestPage(encode: Message -> seq<byte>, decode: seq<byte> -> Json, pages: Pages, a: PageArgs,
                     rows: seq<seq<byte>>) returns (begun: Result<()>, accepted: bool)
    requires JsonLaws(encode, decode) && pages.Valid() && forall r :: r in rows ==> |r| == AnnouncedSize(a)
    modifies pages, pages.page
    ensures pages.Valid() && (begun.Ok? <==> BeginSpec(a).Ok?) && (begun.Err? ==> begun.error == BeginSpec(a).error)
    ensures begun.Err? ==> !accepted && pages.page == old(pages.page)
    ensures begun.Ok? ==>
              && pages.page != null && fresh(pages.page) && pages.page.spec == BeginSpec(a).value
              && (accepted <==>
                    |rows| == a.lengthRows.value && FitsWire(encode, |rows|, a.width.value * a.bits.value / 8))
    ensures accepted ==> begun.Ok? && pages.page.data == Join(rows) && pages.page.rows == |rows|
  {
    hide JsonLaws, FitsWire, Join;
    begun := pages.PageBegin(a);
    accepted := false;
    if begun.Ok? {
      accepted := DeliverPage(encode, decode, pages, AnnouncedSize(a), rows);
    }
  }

  /** The full messages among the first `y` rows fit. */
  predicate FullFit(encode: Message -> seq<byte>, y: nat, rowBytes: nat) {
    y < ROWS_PER_MESSAGE || LinesFit(encode, ROWS_PER_MESSAGE, rowBytes)
  }

  /** A message has failed within the first `y` rows. */
  predicate Unfit(encode: Message -> seq<byte>, y: nat, lengthRows: nat, rowBytes: nat) {
    y >= ROWS_PER_MESSAGE && (!LinesFit(encode, ROWS_PER_MESSAGE, rowBytes) || y > lengthRows)
  }

  lemma RowFits(encode: Message -> seq<byte>, y: nat, lengthRows: nat, rowBytes: nat, failed: bool)
    ensures FullFit(encode, 0, rowBytes)
    ensures FullFit(encode, y, rowBytes) && failed ==>
              (y + 1) % ROWS_PER_MESSAGE == 0 && (!LinesFit(encode, ROWS_PER_MESSAGE, rowBytes) || y + 1 > lengthRows)
              ==> Unfit(encode, y + 1, lengthRows, rowBytes)
    ensures FullFit(encode, y, rowBytes) && !failed ==>
              !((y + 1) % ROWS_PER_MESSAGE == 0
                && (!LinesFit(encode, ROWS_PER_MESSAGE, rowBytes) || y + 1 > lengthRows))
              ==> FullFit(encode, y + 1, rowBytes)
    ensures Unfit(encode, y, lengthRows, rowBytes) ==> Unfit(encode, y + 1, lengthRows, rowBytes)
  {
    hide LinesFit;
  }

  lemma PageFits(encode: Message -> seq<byte>, n: nat, lengthRows: nat, rowBytes: nat)
    ensures FullFit(encode, n, rowBytes) && RestFits(encode, n, rowBytes) <==> FitsWire(encode, n, rowBytes)
    ensures Unfit(encode, n, lengthRows, rowBytes) ==> !(n == lengthRows && FitsWire(encode, n, rowBytes))
  {
    hide LinesFit;
  }

  /**
   * Where the text of the messages is short, as it is, a page of 64 rows or more keeps to the limits
   * exactly if its rows have at most 262144 bytes.
   */
  lemma WideRowsIff(encode: Message -> seq<byte>, n: nat, rowBytes: nat)
    requires n >= 64
    requires forall c: nat, z: nat :: |encode(LinesMessage(c).(size := Integer(z), cSize := Integer(z)))| < 65536
    ensures FitsWire(encode, n, rowBytes) <==> rowBytes <= 262144
  {
    SizeMonotone(n % 64, 64, rowBytes);
    hide LinesMessage;
  }

  /** The width `phomemo_rstartpage_cb` announces gives the session the job's own row size. */
  lemma AnnouncedRowBytes(rowBytes: nat, bits: nat, a: PageArgs)
    requires bits in {1, 8} && a.width == Some(rowBytes * 8 / bits) && a.bits == Some(bits)
    ensures BeginSpec(a).Ok? ==> BeginSpec(a).value.RowBytes() == rowBytes
    ensures BeginSpec(a) != Err(WidthNotMultipleOf8) && BeginSpec(a) != Err(BadBits)
  {
  }

  /** The row-splitting loop of the Python client's `print_image`, to the same session. */
  method SendImage(pages: Pages, raw: seq<byte>, width: nat, height: nat) returns (ok: bool)
    requires pages.Valid() && pages.page != null && pages.page.rows == 0 && pages.page.data == []
    requires width >= 1 && pages.page.spec.RowBytes() == width && |raw| == RowsBytes(height, width)
    modifies pages.page
    ensures pages.Valid() && pages.page == old(pages.page)
    ensures ok <==> height <= pages.page.spec.lengthRows
    ensures ok ==> pages.page.data == raw && pages.page.rows == height
  {
    hide PageSpec.RowBytes, PageBuffer.Valid;
    var start := 0;
    RowsBytesSplit(height, 0, width);
    while start < height
      invariant 0 <= start <= height && pages.Valid() && pages.page == old(pages.page) && pages.page != null
      invariant RowsBytes(start, width) <= |raw|
      invariant pages.page.rows == start && pages.page.data == raw[..RowsBytes(start, width)]
      invariant start <= pages.page.spec.lengthRows
    {
      var count := Min(ROWS_PER_MESSAGE, height - start);
      RowsBytesSplit(start + count, start, width);
      RowsBytesSplit(height, start + count, width);
      var payload := raw[RowsBytes(start, width)..RowsBytes(start + count, width)];
      assert |payload| == count * width;
      var reply := pages.Lines(count, payload);
      if reply.Err? {
        return false;
      }
      assert raw[..RowsBytes(start, width)] + payload == raw[..RowsBytes(start + count, width)];
      start := start + count;
    }
    assert raw[..RowsBytes(height, width)] == raw;
    ok := true;
  }

  lemma RowsBytesSplit(a: nat, b: nat, rowBytes: nat)
    requires b <= a
    ensures RowsBytes(a, rowBytes) == RowsBytes(b, rowBytes) + RowsBytes(a - b, rowBytes)
  {
    MulSplit(a, b, rowBytes);
  }
}
