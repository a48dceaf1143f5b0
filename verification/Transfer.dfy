/**
 * `Printer._transfer` as a function of the schedule of its flags, and what every run of it
 * amounts to: which bytes go out, how the run ends, and where it leaves the print head.
 */
module Transfer {
  import opened Bytes
  import opened PrintHead
  import opened RasterStream
  import opened Interruption

  /** The three events as the loop finds them at the start of one iteration. */
  datatype Tick = Tick(abort: bool, lidOpen: bool, absent: bool)

  datatype Outcome = Complete | Cancelled | LidOpened | SheetRanOut | LinkLost

  datatype Sending = Sending(writes: seq<seq<byte>>, outcome: Outcome, stop: nat)

  /** One page ready to send: `_transfer`'s arguments. */
  datatype Page = Page(stream: seq<byte>, bands: seq<Band>, height: nat, width: nat, fraction: real) {
    ghost predicate Valid() {
      AllInRange(bands, |stream|) && width >= 1
    }

    /** Past the last band only the trailing feed remains. */
    function TailStart(): nat {
      if bands == [] then |stream| else bands[|bands| - 1].dataEnd
    }

    /** `unsent / height > short_sheet_fraction`. */
    predicate TooMuchUnsent(rowsSent: int) {
      height > 0 && (height - rowsSent) as real / height as real > fraction
    }
  }

  /** The loop of `_transfer` from `offset` on, over a transport that does not fail. */
  function Send(p: Page, chunk: nat, schedule: nat -> Tick, offset: nat, n: nat): Sending
    requires p.Valid() && chunk >= 1
    decreases |p.stream| - offset
  {
    if offset >= |p.stream| then Sending([], Complete, offset)
    else if schedule(n).abort && offset < p.TailStart() then
      Sending(Chunked(Filler(p.stream, offset, p.bands), chunk), Cancelled, offset)
    else if schedule(n).lidOpen && offset < p.TailStart() then
      Sending(Chunked(Filler(p.stream, offset, p.bands), chunk), LidOpened, offset)
    else if schedule(n).absent && p.TooMuchUnsent(RowsBefore(offset, p.bands, p.width)) then
      Sending([], SheetRanOut, offset)
    else
      var piece := p.stream[offset..Min(offset + chunk, |p.stream|)];
      var rest := Send(p, chunk, schedule, offset + |piece|, n + 1);
      rest.(writes := [piece] + rest.writes)
  }

  predicate Interrupted(o: Outcome) { o == Cancelled || o == LidOpened }

  /** What makes `_transfer` stop before the piece at `k`. */
  predicate MustStop(p: Page, t: Tick, k: nat)
    requires p.Valid()
  {
    ((t.abort || t.lidOpen) && k < p.TailStart())
    || (t.absent && p.TooMuchUnsent(RowsBefore(k, p.bands, p.width)))
  }

  /** One iteration that sends a piece. */
  lemma SendStep(p: Page, chunk: nat, schedule: nat -> Tick, offset: nat, n: nat)
      returns (piece: seq<byte>, rest: Sending)
    requires p.Valid() && chunk >= 1 && offset < |p.stream|
    requires !MustStop(p, schedule(n), offset)
    ensures |piece| == Min(chunk, |p.stream| - offset)
    ensures piece == p.stream[offset..offset + |piece|]
    ensures rest == Send(p, chunk, schedule, offset + |piece|, n + 1)
    ensures Send(p, chunk, schedule, offset, n) == rest.(writes := [piece] + rest.writes)
  {
    piece := p.stream[offset..Min(offset + chunk, |p.stream|)];
    rest := Send(p, chunk, schedule, offset + |piece|, n + 1);
  }

  lemma SendDone(p: Page, chunk: nat, schedule: nat -> Tick, n: nat)
    requires p.Valid() && chunk >= 1
    ensures Send(p, chunk, schedule, |p.stream|, n) == Sending([], Complete, |p.stream|)
  {
  }

  /** The iteration that stops. */
  lemma SendStop(p: Page, chunk: nat, schedule: nat -> Tick, offset: nat, n: nat)
    requires p.Valid() && chunk >= 1 && offset < |p.stream|
    requires MustStop(p, schedule(n), offset)
    ensures var r := Send(p, chunk, schedule, offset, n);
            && r.stop == offset && r.outcome != Complete
            && r.writes == (if Interrupted(r.outcome) then Chunked(Filler(p.stream, offset, p.bands), chunk) else [])
  {
  }

  /** The `n`-th iteration starts at `n` chunks, or at the end. */
  predicate AtChunk(offset: nat, n: nat, chunk: nat, length: nat) {
    offset == Min(n * chunk, length)
  }

  lemma NextChunk(offset: nat, n: nat, chunk: nat, length: nat)
    requires AtChunk(offset, n, chunk, length) && offset < length
    ensures offset == n * chunk && AtChunk(offset + Min(chunk, length - offset), n + 1, chunk, length)
  {
    assert (n + 1) * chunk == n * chunk + chunk;
  }

  /**
   * Every run sends the stream up to its stop, unchanged and in order, in pieces that fit, and
   * then exactly the filler owed there if a flag interrupted it. It stops at a chunk boundary.
   */
  lemma {:induction false} SendShape(p: Page, chunk: nat, schedule: nat -> Tick, offset: nat, n: nat)
    requires p.Valid() && chunk >= 1 && offset <= |p.stream|
    ensures var r := Send(p, chunk, schedule, offset, n);
            && offset <= r.stop <= |p.stream|
            && Join(r.writes) == p.stream[offset..r.stop]
                 + (if Interrupted(r.outcome) then Filler(p.stream, r.stop, p.bands) else [])
            && (forall w :: w in r.writes ==> |w| <= chunk)
            && (r.outcome == Complete <==> r.stop == |p.stream|)
    decreases |p.stream| - offset
  {
    hide Send, MustStop, AllInRange, Filler, Join, Chunked;
    if offset == |p.stream| {
      SendDone(p, chunk, schedule, n);
      JoinNone<byte>();
      assert p.stream[offset..] + [] == [];
    } else if MustStop(p, schedule(n), offset) {
      SendStop(p, chunk, schedule, offset, n);
      JoinNone<byte>();
      ChunkedJoins(Filler(p.stream, offset, p.bands), chunk);
      assert forall x: seq<byte> :: p.stream[offset..offset] + x == x;
    } else {
      var piece, rest := SendStep(p, chunk, schedule, offset, n);
      SendShape(p, chunk, schedule, offset + |piece|, n + 1);
      JoinCons(piece, rest.writes);
      SliceSplit(p.stream, offset, offset + |piece|, rest.stop);
      var tail := if Interrupted(rest.outcome) then Filler(p.stream, rest.stop, p.bands) else [];
      ConcatAssociates(piece, p.stream[offset + |piece|..rest.stop], tail);
    }
  }

  /** A run that is not stopped sends the pieces of the stream, one write each. */
  lemma {:induction false} CompletePieces(p: Page, chunk: nat, schedule: nat -> Tick, offset: nat, n: nat)
    requires p.Valid() && chunk >= 1 && offset <= |p.stream|
    requires Send(p, chunk, schedule, offset, n).outcome == Complete
    ensures Send(p, chunk, schedule, offset, n).writes == Chunked(p.stream[offset..], chunk)
    decreases |p.stream| - offset
  {
    if offset < |p.stream| {
      var piece, rest := SendStep(p, chunk, schedule, offset, n);
      CompletePieces(p, chunk, schedule, offset + |piece|, n + 1);
      var tail := p.stream[offset..];
      assert tail[..|piece|] == piece && tail[|piece|..] == p.stream[offset + |piece|..];
    }
  }

  /** A stopped run stopped at a chunk boundary, for the reason it reports. */
  lemma {:induction false} StopReason(p: Page, chunk: nat, schedule: nat -> Tick, offset: nat, n: nat) returns (m: nat)
    requires p.Valid() && chunk >= 1 && AtChunk(offset, n, chunk, |p.stream|)
    requires Send(p, chunk, schedule, offset, n).outcome != Complete
    ensures var r := Send(p, chunk, schedule, offset, n);
            r.stop == m * chunk && StopsAt(p, schedule(m), r.stop, r.outcome)
    decreases |p.stream| - offset
  {
    if offset < |p.stream| {
      NextChunk(offset, n, chunk, |p.stream|);
    }
    if MustStop(p, schedule(n), offset) {
      m := n;
    } else {
      var piece, rest := SendStep(p, chunk, schedule, offset, n);
      m := StopReason(p, chunk, schedule, offset + |piece|, n + 1);
    }
  }

  /** Why a run may stop at `k` with these flags up. */
  predicate StopsAt(p: Page, t: Tick, k: nat, o: Outcome)
    requires p.Valid()
  {
    match o
    case Cancelled => t.abort && k < p.TailStart()
    case LidOpened => t.lidOpen && !t.abort && k < p.TailStart()
    case SheetRanOut => t.absent && (k < p.TailStart() ==> !t.abort && !t.lidOpen)
                        && p.TooMuchUnsent(RowsBefore(k, p.bands, p.width))
    case _ => false
  }

  /** No flag is overlooked: every piece that went out went out with nothing asking to stop. */
  lemma {:induction false} NoFlagOverlooked(p: Page, chunk: nat, schedule: nat -> Tick, offset: nat, n: nat, i: nat)
    requires p.Valid() && chunk >= 1 && AtChunk(offset, n, chunk, |p.stream|)
    requires n <= i && i * chunk < Send(p, chunk, schedule, offset, n).stop
    ensures !MustStop(p, schedule(i), i * chunk)
    decreases |p.stream| - offset
  {
    hide Send, MustStop, AllInRange;
    MulMonotone(n, i, chunk);
    SendShape(p, chunk, schedule, offset, n);
    NextChunk(offset, n, chunk, |p.stream|);
    if MustStop(p, schedule(n), offset) {
      SendStop(p, chunk, schedule, offset, n);
    }
    if n < i {
      var piece, rest := SendStep(p, chunk, schedule, offset, n);
      NoFlagOverlooked(p, chunk, schedule, offset + |piece|, n + 1, i);
    }
  }

  /** In flags: up to the end of the last band no piece goes out with the abort or the open lid noticed. */
  lemma SentOnlyUnasked(p: Page, chunk: nat, schedule: nat -> Tick, i: nat)
    requires p.Valid() && chunk >= 1
    requires i * chunk < Send(p, chunk, schedule, 0, 0).stop && i * chunk < p.TailStart()
    ensures !schedule(i).abort && !schedule(i).lidOpen
  {
    NoFlagOverlooked(p, chunk, schedule, 0, 0, i);
    hide Send;
  }

  /**
   * The three ways a run on a working transport ends: the whole stream in ceil(len / chunk)
   * pieces; a prefix and the filler owed at its end; or a bare prefix, possible only while more
   * than the given fraction of the rows was unsent.
   */
  lemma TransferOutcomes(p: Page, chunk: nat, schedule: nat -> Tick)
    requires p.Valid() && chunk >= 1
    ensures var r := Send(p, chunk, schedule, 0, 0);
            && r.stop <= |p.stream|
            && (forall w :: w in r.writes ==> |w| <= chunk)
            && match r.outcome
               case Complete =>
                 Join(r.writes) == p.stream && |r.writes| == (|p.stream| + chunk - 1) / chunk
               case Cancelled =>
                 r.stop < p.TailStart() && Join(r.writes) == p.stream[..r.stop] + Filler(p.stream, r.stop, p.bands)
               case LidOpened =>
                 r.stop < p.TailStart() && Join(r.writes) == p.stream[..r.stop] + Filler(p.stream, r.stop, p.bands)
               case SheetRanOut =>
                 Join(r.writes) == p.stream[..r.stop] && p.TooMuchUnsent(RowsBefore(r.stop, p.bands, p.width))
               case LinkLost => false
  {
    SendShape(p, chunk, schedule, 0, 0);
    var r := Send(p, chunk, schedule, 0, 0);
    assert p.stream[0..] == p.stream;
    ChunkedCount(p.stream, chunk);
    if r.outcome == Complete {
      CompletePieces(p, chunk, schedule, 0, 0);
      assert p.stream[0..r.stop] == p.stream;
    } else {
      var m := StopReason(p, chunk, schedule, 0, 0);
    }
    hide Send, Join, Chunked, Filler, RowsBefore, Page.Valid, Page.TooMuchUnsent, Page.TailStart;
  }

  lemma CompleteStopsAtEnd(p: Page, chunk: nat, schedule: nat -> Tick)
    requires p.Valid() && chunk >= 1
    ensures Send(p, chunk, schedule, 0, 0).outcome == Complete ==> Send(p, chunk, schedule, 0, 0).stop == |p.stream|
  {
    SendShape(p, chunk, schedule, 0, 0);
    hide Send, Join, Chunked, Filler, Page.Valid;
  }

  // ------------------------------------------------------------------
  // The print head after a transfer
  // ------------------------------------------------------------------

  function PageOf(s: Settings, bitmap: seq<byte>, height: nat, fraction: real): (p: Page)
    requires s.geometry.Valid() && |bitmap| == s.geometry.Bytes(height)
    ensures p.Valid()
  {
    StreamInRange(s, bitmap, height);
    Page(Stream(s, bitmap, height), BandTable(s, height), height, s.geometry.widthBytes, fraction)
  }

  lemma TailOfPage(s: Settings, bitmap: seq<byte>, height: nat, fraction: real)
    requires s.geometry.Valid() && |bitmap| == s.geometry.Bytes(height)
    ensures height >= 1 ==> PageOf(s, bitmap, height, fraction).TailStart()
                            == |Prefix(s)| + |Body(s.geometry, s.mode, bitmap, height)|
    ensures height == 0 ==> PageOf(s, bitmap, height, fraction).TailStart() == |Stream(s, bitmap, height)|
  {
    StreamInRange(s, bitmap, height);
    BandEndsInBody(s.geometry, s.mode, bitmap, height, |Prefix(s)|);
  }

  /** Of the rows of the bitmap exactly the first `n` end in the stream at or before `k`. */
  ghost predicate RowsSent(s: Settings, height: nat, k: nat, n: nat)
    requires s.geometry.Valid()
  {
    n <= height && forall r: nat :: r < height ==> (r < n <==> RowEnd(s.geometry, |Prefix(s)|, r) <= k)
  }

  lemma SharesAgree(height: nat, unsent: int, fraction: real)
    requires height > 0
    ensures unsent as real / height as real > fraction <==> unsent as real > fraction * height as real
  {
    var h, u := height as real, unsent as real;
    assert u / h * h == u;
    if u / h > fraction {
      assert (u / h - fraction) * h > 0.0;
    } else {
      assert (fraction - u / h) * h >= 0.0;
    }
  }

  lemma RowsSentCount(s: Settings, height: nat, k: nat) returns (n: nat)
    requires s.geometry.Valid()
    ensures RowsSent(s, height, k, n) && n == RowsBefore(k, BandTable(s, height), s.geometry.widthBytes)
  {
    var g, base := s.geometry, |Prefix(s)|;
    RowsBeforeBounds(g, height, base, k);
    n := RowsBefore(k, BandTable(s, height), g.widthBytes);
    forall r: nat | r < height
      ensures r < n <==> RowEnd(g, base, r) <= k
    {
      RowCounted(g, height, base, k, r);
    }
  }

  /**
   * When a sheet is too short, in rows of the bitmap: a transfer that ran out of paper had more than
   * the fraction of them unsent at its stop, with the paper-absent flag up.
   */
  lemma RanOutOnlyIfShort(s: Settings, bitmap: seq<byte>, height: nat, fraction: real, chunk: nat,
                          schedule: nat -> Tick) returns (n: nat, i: nat)
    requires s.geometry.Valid() && |bitmap| == s.geometry.Bytes(height) && chunk >= 1
    requires Send(PageOf(s, bitmap, height, fraction), chunk, schedule, 0, 0).outcome == SheetRanOut
    ensures var stop := Send(PageOf(s, bitmap, height, fraction), chunk, schedule, 0, 0).stop;
            && stop == i * chunk && schedule(i).absent && RowsSent(s, height, stop, n)
            && height > 0 && (height - n) as real > fraction * height as real
  {
    hide Send, BandTable, RowsBefore, RowsSent, Stream;
    i := StopReason(PageOf(s, bitmap, height, fraction), chunk, schedule, 0, 0);
    n := RowsSentCount(s, height, i * chunk);
    SharesAgree(height, height - n, fraction);
  }

  /** And every piece that went out with that flag up had at most this share unsent. */
  lemma SentOnlyIfLong(s: Settings, bitmap: seq<byte>, height: nat, fraction: real, chunk: nat, schedule: nat -> Tick,
                       i: nat, n: nat)
    requires s.geometry.Valid() && |bitmap| == s.geometry.Bytes(height) && chunk >= 1 && height > 0
    requires i * chunk < Send(PageOf(s, bitmap, height, fraction), chunk, schedule, 0, 0).stop
    requires schedule(i).absent && RowsSent(s, height, i * chunk, n)
    ensures (height - n) as real <= fraction * height as real
  {
    hide Send, BandTable, RowsBefore, RowsSent, Stream;
    NoFlagOverlooked(PageOf(s, bitmap, height, fraction), chunk, schedule, 0, 0, i);
    var m := RowsSentCount(s, height, i * chunk);
    OneCount(s, height, i * chunk, n, m);
    SharesAgree(height, height - n, fraction);
  }

  lemma CountAt(s: Settings, height: nat, k: nat, n: nat, r: nat)
    requires s.geometry.Valid() && RowsSent(s, height, k, n)
    ensures n <= height && (r < height ==> (r < n <==> RowEnd(s.geometry, |Prefix(s)|, r) <= k))
  {
  }

  lemma OneCount(s: Settings, height: nat, k: nat, n: nat, m: nat)
    requires s.geometry.Valid() && RowsSent(s, height, k, n) && RowsSent(s, height, k, m)
    ensures n == m
  {
    hide RowsSent, RowEnd;
    var least := Min(n, m);
    CountAt(s, height, k, n, least);
    CountAt(s, height, k, m, least);
  }

  /** Behind the last band no row is unsent, so no fraction of them is too large. */
  lemma AllSentBehindBands(s: Settings, bitmap: seq<byte>, height: nat, fraction: real, k: nat)
    requires s.geometry.Valid() && |bitmap| == s.geometry.Bytes(height)
    requires PageOf(s, bitmap, height, fraction).TailStart() <= k && fraction >= 0.0
    ensures !PageOf(s, bitmap, height, fraction).TooMuchUnsent(
              RowsBefore(k, BandTable(s, height), s.geometry.widthBytes))
  {
    if height >= 1 {
      TailOfPage(s, bitmap, height, fraction);
      LastRowEnd(s.geometry, s.mode, bitmap, height, |Prefix(s)|);
      RowsBeforeMonotone(s.geometry, height, |Prefix(s)|, 0, k);
    }
  }

  /** Past the last band the trailing feed is always completed. */
  lemma TrailerCompleted(s: Settings, bitmap: seq<byte>, height: nat, fraction: real, chunk: nat, schedule: nat -> Tick)
    requires s.geometry.Valid() && |bitmap| == s.geometry.Bytes(height) && chunk >= 1
    ensures var p := PageOf(s, bitmap, height, fraction);
            var r := Send(p, chunk, schedule, 0, 0);
            fraction >= 0.0 ==> r.outcome == Complete || r.stop < p.TailStart()
  {
    var p := PageOf(s, bitmap, height, fraction);
    TransferOutcomes(p, chunk, schedule);
    hide Send, Page.TailStart, Page.TooMuchUnsent, RowsBefore, Filler, Join;
    var r := Send(p, chunk, schedule, 0, 0);
    if fraction >= 0.0 && r.stop >= p.TailStart() && r.outcome == SheetRanOut {
      AllSentBehindBands(s, bitmap, height, fraction, r.stop);
    }
  }

  /**
   * What every run leaves on paper and in the head. A complete run is the page. An interrupted
   * one that stopped behind the prefix is the interrupted page, with the head back at ground.
   * One that ran out of paper, or interrupted a page without rows, has the head at ground exactly
   * if it stopped at a command's end. Past the last band the trailing feed is always completed.
   */
  lemma HeadAfterTransfer(s: Settings, bitmap: seq<byte>, height: nat, fraction: real, chunk: nat,
                          schedule: nat -> Tick, done: seq<Command>)
    requires s.geometry.Valid() && |bitmap| == s.geometry.Bytes(height) && chunk >= 1
    ensures var r := Send(PageOf(s, bitmap, height, fraction), chunk, schedule, 0, 0);
            var head := Run(Head(Ground, done), Join(r.writes));
            && r.stop <= |Stream(s, bitmap, height)|
            && DataBefore(r.stop, BandTable(s, height)) <= |bitmap|
            && DataBefore(r.stop, BandTable(s, height)) <= s.geometry.Bytes(RowsStarted(r.stop, BandTable(s, height)))
            && (r.outcome == Complete ==> head == Head(Ground, done + PageCommands(s, bitmap, height)))
            && (Interrupted(r.outcome) && height >= 1 && r.stop >= |Prefix(s)| ==>
                  head == Head(Ground, done + InterruptedCommands(s, bitmap, height, r.stop)))
            && (Interrupted(r.outcome) && r.stop < |Prefix(s)| ==>
                  (head.state.Ground? <==> r.stop == 0 || r.stop == 2))
            && (r.outcome == SheetRanOut || (Interrupted(r.outcome) && height == 0) ==>
                  (head.state.Ground? <==> AtBoundary(s, bitmap, height, r.stop)))
            && (fraction >= 0.0 ==>
                  r.outcome == Complete || r.stop < PageOf(s, bitmap, height, fraction).TailStart())
  {
    var p := PageOf(s, bitmap, height, fraction);
    TailOfPage(s, bitmap, height, fraction);
    TransferOutcomes(p, chunk, schedule);
    TrailerCompleted(s, bitmap, height, fraction, chunk, schedule);
    hide Stream, PageCommands, Run, Send, Join, Body, InterruptedCommands, BandTable, AtBoundary, Page.TooMuchUnsent,
         Filler, RowsBefore;
    var r := Send(p, chunk, schedule, 0, 0);
    DataBounds(s, bitmap, height, r.stop);
    match r.outcome
    case Complete => StreamRoundTrip(s, bitmap, height, done);
    case SheetRanOut => BareStopInSync(s, bitmap, height, r.stop, done);
    case _ =>
      if height == 0 {
        NoRowsOwed(s, bitmap, r.stop);
        BareStopInSync(s, bitmap, height, r.stop, done);
      }
      if r.stop >= |Prefix(s)| {
        if height == 0 {
          return;
        }
        InterruptedInSync(s, bitmap, height, r.stop, done);
      } else {
        StoppedInPrefix(s, bitmap, height, r.stop, done);
      }
  }

  /**
   * A run whose writes break off after `n` of them, or which ended without a filler: the head is at
   * ground exactly if what was sent ends at a command's end and no part of a filler was sent.
   */
  lemma HeadWhereCut(s: Settings, bitmap: seq<byte>, height: nat, fraction: real, chunk: nat, schedule: nat -> Tick,
                     n: nat, done: seq<Command>)
    requires s.geometry.Valid() && |bitmap| == s.geometry.Bytes(height) && chunk >= 1
    requires var r := Send(PageOf(s, bitmap, height, fraction), chunk, schedule, 0, 0);
             n < |r.writes| || (n == |r.writes| && !Interrupted(r.outcome))
    ensures var r := Send(PageOf(s, bitmap, height, fraction), chunk, schedule, 0, 0);
            var sent := Join(r.writes[..n]);
            Run(Head(Ground, done), sent).state.Ground?
            <==> |sent| <= r.stop && AtBoundary(s, bitmap, height, |sent|)
  {
    var p := PageOf(s, bitmap, height, fraction);
    var r := Send(p, chunk, schedule, 0, 0);
    var sent := Join(r.writes[..n]);
    SendShape(p, chunk, schedule, 0, 0);
    TailOfPage(s, bitmap, height, fraction);
    TransferOutcomes(p, chunk, schedule);
    NoWriteEmpty(p, chunk, schedule, 0, 0);
    hide Send, Run, Join, Filler, Stream, BandTable, Body, Page.TooMuchUnsent, Page.TailStart, AtBoundary, RowsBefore,
         AllInRange;
    JoinFront(r.writes, n);
    var filler := if Interrupted(r.outcome) then Filler(p.stream, r.stop, p.bands) else [];
    FrontOfTwo(p.stream, r.stop, filler, sent);
    if |sent| <= r.stop {
      BareStopInSync(s, bitmap, height, |sent|, done);
    } else {
      CutInFiller(s, bitmap, height, r.stop, |sent|, done);
    }
  }

  lemma FrontOfTwo(stream: seq<byte>, stop: nat, filler: seq<byte>, sent: seq<byte>)
    requires stop <= |stream| && sent <= stream[0..stop] + filler
    ensures if |sent| <= stop then sent == stream[..|sent|] else sent == (stream[..stop] + filler)[..|sent|]
  {
  }

  /** Writes are never empty, so fewer of them are fewer bytes. */
  lemma JoinFront(parts: seq<seq<byte>>, n: nat)
    requires n <= |parts| && forall w :: w in parts ==> w != []
    ensures Join(parts[..n]) <= Join(parts) && (n < |parts| ==> |Join(parts[..n])| < |Join(parts)|)
  {
    assert parts == parts[..n] + parts[n..];
    JoinAppend(parts[..n], parts[n..]);
    if n < |parts| {
      assert parts[n..][0] in parts;
    }
  }

  lemma {:induction false} NoWriteEmpty(p: Page, chunk: nat, schedule: nat -> Tick, offset: nat, n: nat)
    requires p.Valid() && chunk >= 1 && offset <= |p.stream|
    ensures forall w :: w in Send(p, chunk, schedule, offset, n).writes ==> w != []
    decreases |p.stream| - offset
  {
    hide Send, MustStop, AllInRange, Filler, Chunked;
    if offset == |p.stream| {
      SendDone(p, chunk, schedule, n);
    } else if MustStop(p, schedule(n), offset) {
      SendStop(p, chunk, schedule, offset, n);
      ChunkedJoins(Filler(p.stream, offset, p.bands), chunk);
    } else {
      var piece, rest := SendStep(p, chunk, schedule, offset, n);
      NoWriteEmpty(p, chunk, schedule, offset + |piece|, n + 1);
    }
  }

  /** A filler owed at `k` and cut short at `m` leaves the head inside a band. */
  lemma CutInFiller(s: Settings, bitmap: seq<byte>, height: nat, k: nat, m: nat, done: seq<Command>)
    requires s.geometry.Valid() && |bitmap| == s.geometry.Bytes(height)
    requires k <= |Prefix(s)| + |Body(s.geometry, s.mode, bitmap, height)|
    requires AllInRange(BandTable(s, height), |Stream(s, bitmap, height)|)
    requires k <= |Stream(s, bitmap, height)|
    requires k <= m < |Padded(Stream(s, bitmap, height), k, BandTable(s, height))|
    ensures MidCommand(Padded(Stream(s, bitmap, height), k, BandTable(s, height)), 0, m, done)
  {
    var stream, pre := Stream(s, bitmap, height), Prefix(s);
    if k < |pre| {
      NotStarted(s.geometry, height, |pre|, stream, k);
    } else {
      hide Body, Table;
      var padded := Padded(stream, k, BandTable(s, height));
      CutPadding(s.geometry, s.mode, bitmap, height, pre, Trailer(s.feedLines), stream, k, m,
                 done + PrefixCommands(s));
      assert padded[..|pre|] == pre;
      SliceSplit(padded, 0, |pre|, m);
      RunAppend(Head(Ground, done), pre, padded[|pre|..m]);
      RunPrefix(s, done);
    }
  }

  /** A page without rows has no band to pad. */
  lemma NoRowsOwed(s: Settings, bitmap: seq<byte>, k: nat)
    requires s.geometry.Valid() && |bitmap| == s.geometry.Bytes(0) && k <= |Stream(s, bitmap, 0)|
    ensures Filler(Stream(s, bitmap, 0), k, BandTable(s, 0)) == []
    ensures Stream(s, bitmap, 0)[..k] + [] == Stream(s, bitmap, 0)[..k]
  {
  }

  lemma StoppedInPrefix(s: Settings, bitmap: seq<byte>, height: nat, k: nat, done: seq<Command>)
    requires s.geometry.Valid() && |bitmap| == s.geometry.Bytes(height) && k < |Prefix(s)|
    ensures AllInRange(BandTable(s, height), |Stream(s, bitmap, height)|) && k <= |Stream(s, bitmap, height)|
    ensures var stream := Stream(s, bitmap, height);
            Run(Head(Ground, done), stream[..k] + Filler(stream, k, BandTable(s, height))).state.Ground?
            <==> k == 0 || k == 2
  {
    var stream := Stream(s, bitmap, height);
    StreamInRange(s, bitmap, height);
    NotStarted(s.geometry, height, |Prefix(s)|, stream, k);
    assert stream[..k] + [] == Prefix(s)[..k];
    PrefixBoundaries(s, k, done);
  }

  lemma DataBounds(s: Settings, bitmap: seq<byte>, height: nat, k: nat)
    requires s.geometry.Valid() && |bitmap| == s.geometry.Bytes(height)
    requires k <= |Stream(s, bitmap, height)|
    ensures DataBefore(k, BandTable(s, height)) <= |bitmap|
    ensures DataBefore(k, BandTable(s, height)) <= s.geometry.Bytes(RowsStarted(k, BandTable(s, height)))
  {
    StartedBounds(s.geometry, height, |Prefix(s)|, k);
  }

  lemma {:induction false} StartedBounds(g: Geometry, rows: nat, base: nat, k: nat)
    requires g.Valid()
    ensures DataBefore(k, Table(g, rows, base)) <= g.Bytes(rows)
    ensures DataBefore(k, Table(g, rows, base)) <= g.Bytes(RowsStarted(k, Table(g, rows, base)))
    decreases rows
  {
    if rows != 0 {
      var n, end := TableUnfold(g, rows, base);
      StartedBounds(g, rows - n, end, k);
      BytesSplit(g, rows, n);
      BytesSplit(g, n + RowsStarted(k, Table(g, rows - n, end)), n);
    }
  }

  // ------------------------------------------------------------------
  // The chunk size the padding relies on
  // ------------------------------------------------------------------

  /** An interruption, if this schedule brings one, leaves the head at ground. */
  predicate SafeUnder(p: Page, chunk: nat, schedule: nat -> Tick, done: seq<Command>)
    requires p.Valid() && chunk >= 1
  {
    var r := Send(p, chunk, schedule, 0, 0);
    Interrupted(r.outcome) ==> Run(Head(Ground, done), Join(r.writes)).state.Ground?
  }

  /** An abort, or an open lid, from the `i`-th iteration on. */
  function FlagFrom(i: nat, lid: bool): nat -> Tick { n => Tick(n >= i && !lid, n >= i && lid, false) }

  lemma {:induction false} FlagStopsAt(p: Page, chunk: nat, i: nat, lid: bool, n: nat)
    requires p.Valid() && chunk >= 1 && n <= i && i * chunk < p.TailStart() && i * chunk < |p.stream|
    requires n * chunk <= i * chunk
    ensures Send(p, chunk, FlagFrom(i, lid), n * chunk, n).outcome == if lid then LidOpened else Cancelled
    ensures Send(p, chunk, FlagFrom(i, lid), n * chunk, n).stop == i * chunk
    decreases i - n
  {
    if n == i {
      SendStop(p, chunk, FlagFrom(i, lid), n * chunk, n);
    } else {
      var piece, rest := SendStep(p, chunk, FlagFrom(i, lid), n * chunk, n);
      MulMonotone(n + 1, i, chunk);
      assert (n + 1) * chunk == n * chunk + chunk;
      FlagStopsAt(p, chunk, i, lid, n + 1);
    }
  }

  /** With a chunk that holds the prefix no interruption can split a prefix command. */
  lemma LongChunkSafe(s: Settings, bitmap: seq<byte>, height: nat, fraction: real, chunk: nat, schedule: nat -> Tick,
                      done: seq<Command>)
    requires s.geometry.Valid() && |bitmap| == s.geometry.Bytes(height) && height >= 1
    requires chunk >= |Prefix(s)|
    ensures SafeUnder(PageOf(s, bitmap, height, fraction), chunk, schedule, done)
  {
    var p := PageOf(s, bitmap, height, fraction);
    HeadAfterTransfer(s, bitmap, height, fraction, chunk, schedule, done);
    hide Run, Join, Stream, InterruptedCommands, PageCommands;
    if Interrupted(Send(p, chunk, schedule, 0, 0).outcome) {
      var m := StopReason(p, chunk, schedule, 0, 0);
      if m > 0 {
        MulMonotone(1, m, chunk);
      }
    }
  }

  /** With a shorter chunk the flag can come where a prefix command is cut. */
  lemma CutInPrefix(s: Settings, bitmap: seq<byte>, height: nat, fraction: real, chunk: nat, lid: bool,
                    done: seq<Command>) returns (schedule: nat -> Tick)
    requires s.geometry.Valid() && |bitmap| == s.geometry.Bytes(height) && height >= 1
    requires 1 <= chunk < |Prefix(s)|
    ensures var r := Send(PageOf(s, bitmap, height, fraction), chunk, schedule, 0, 0);
            && r.outcome == (if lid then LidOpened else Cancelled)
            && !Run(Head(Ground, done), Join(r.writes)).state.Ground?
  {
    var p := PageOf(s, bitmap, height, fraction);
    TailOfPage(s, bitmap, height, fraction);
    var i: nat := if chunk == 2 then 2 else 1;
    assert |Prefix(s)| == 2 || |Prefix(s)| == 6;
    assert i * chunk < |Prefix(s)| && i * chunk != 0 && i * chunk != 2;
    schedule := FlagFrom(i, lid);
    FlagStopsAt(p, chunk, i, lid, 0);
    HeadAfterTransfer(s, bitmap, height, fraction, chunk, schedule, done);
  }

  /** So there is a schedule that leaves the head inside a prefix command. */
  lemma ShortChunkUnsafe(s: Settings, bitmap: seq<byte>, height: nat, fraction: real, chunk: nat, done: seq<Command>)
    requires s.geometry.Valid() && |bitmap| == s.geometry.Bytes(height) && height >= 1
    requires 1 <= chunk < |Prefix(s)|
    ensures exists schedule: nat -> Tick :: !SafeUnder(PageOf(s, bitmap, height, fraction), chunk, schedule, done)
  {
    hide Run, Send, Join;
    var schedule := CutInPrefix(s, bitmap, height, fraction, chunk, false, done);
    assert !SafeUnder(PageOf(s, bitmap, height, fraction), chunk, schedule, done);
  }

  /** `_pad_band` completes bands only, so it keeps the head in sync exactly from this chunk size on. */
  lemma PaddingSufficesIff(s: Settings, bitmap: seq<byte>, height: nat, fraction: real, chunk: nat, done: seq<Command>)
    requires s.geometry.Valid() && |bitmap| == s.geometry.Bytes(height) && height >= 1 && chunk >= 1
    ensures chunk >= |Prefix(s)|
       <==> forall schedule: nat -> Tick :: SafeUnder(PageOf(s, bitmap, height, fraction), chunk, schedule, done)
  {
    if chunk >= |Prefix(s)| {
      forall schedule: nat -> Tick
        ensures SafeUnder(PageOf(s, bitmap, height, fraction), chunk, schedule, done)
      {
        LongChunkSafe(s, bitmap, height, fraction, chunk, schedule, done);
      }
    } else {
      ShortChunkUnsafe(s, bitmap, height, fraction, chunk, done);
    }
  }
}
