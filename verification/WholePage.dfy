/** From the raster rows of a driver to the dots on paper: delivery, preparation, and the attempt loop, in one piece. */
module WholePage {
  import opened Bytes
  import opened Commands
  import opened Asides
  import opened PrintHead
  import opened RasterStream
  import opened Framing
  import opened PageSession
  import opened PageGeometry
  import opened PageBitmap
  import opened PageHistory
  import opened Reprint
  import opened PageEnd
  import PagePaper
  import Printing
  import RasterJob

  lemma {:induction false} RasterDataAppend(a: seq<Command>, b: seq<Command>)
    ensures RasterData(a + b) == RasterData(a) + RasterData(b)
  {
    if a == [] {
      assert a + b == b;
    } else {
      assert (a + b)[1..] == a[1..] + b;
      RasterDataAppend(a[1..], b);
    }
  }

  /** Commands that carry no dots. */
  predicate NoDots(cs: seq<Command>) { forall c <- cs :: !c.Raster? }

  lemma {:induction false} NoDotsNoData(cs: seq<Command>)
    requires NoDots(cs)
    ensures RasterData(cs) == []
  {
    if cs != [] {
      NoDotsNoData(cs[1..]);
      assert cs[0] in cs;
    }
  }

  lemma DotsBetween(a: seq<Command>, b: seq<Command>, c: seq<Command>, d: seq<Command>)
    requires NoDots(a) && NoDots(c) && NoDots(d)
    ensures RasterData(a + b + c + d) == RasterData(b)
  {
    hide RasterData, NoDots;
    NoDotsNoData(a);
    NoDotsNoData(c);
    NoDotsNoData(d);
    RasterDataAppend(a, b);
    RasterDataAppend(a + b, c);
    RasterDataAppend(a + b + c, d);
    assert [] + RasterData(b) + [] + [] == RasterData(b);
  }

  /** The dots of a page on paper are its bitmap, whatever the settings and the query behind it. */
  lemma PaperCarriesBitmap(s: Settings, bitmap: seq<byte>, height: nat, asked: bool)
    requires s.geometry.Valid() && |bitmap| == s.geometry.Bytes(height)
    ensures RasterData(Printing.PaperOf(s, bitmap, height, asked)) == bitmap
  {
    hide RasterData, BandCommands;
    BandsCarryBitmap(s.geometry, s.mode, bitmap, height);
    DotsBetween(PrefixCommands(s), BandCommands(s.geometry, s.mode, bitmap, height), FeedCommands(s.feedLines),
                if asked then [Query(LID_STATE)] else []);
  }

  /** What the last attempt but the eject has put on paper. */
  ghost function LastPaper(acts: seq<Act>): seq<Command>
    requires |acts| >= 2 && acts[|acts| - 2].Attempt?
  {
    var a := acts[|acts| - 2];
    var end := Run(a.start, Join(a.writes));
    if a.start.done <= end.done then end.done[|a.start.done|..] else []
  }

  lemma LastPaperIs(acts: seq<Act>, page: seq<Command>)
    requires |acts| >= 2 && acts[|acts| - 2].Attempt?
    requires var a := acts[|acts| - 2];
             Run(a.start, Join(a.writes)) == Head(Ground, a.start.done + page)
    ensures LastPaper(acts) == page
  {
    hide Run, Join;
  }

  /** A page reported as one impression: what the last attempt put on paper carries the job's bitmap. */
  lemma ImpressionCarriesBitmap(s: Scene, h: seq<Entry>, job: PageJob)
    requires PageStarts(s) && s.head.state.Ground? && LawfulRun(s, h) && Between(Play(s, h))
    requires job.Valid() && PageLog(job, Play(s, h).acts, Impression)
    requires job.Steady() || |Play(s, h).acts| == 2
    ensures var acts := Play(s, h).acts;
            && |acts| >= 2 && acts[|acts| - 2].Attempt?
            && LastPaper(acts) == Printing.PaperOf(job.settings, job.bitmap, job.height, true)
            && RasterData(LastPaper(acts)) == job.bitmap
  {
    hide PageLog, PageStarts, LawfulRun, Play, Run, Join, Printing.PaperOf, RasterData, SentBy, Reads, PageJob.Steady,
         LastPaper, Geometry.Bytes;
    var acts := Play(s, h).acts;
    var page := Printing.PaperOf(job.settings, job.bitmap, job.height, true);
    PagePaper.ImpressionIsOnPaper(s, h, job);
    LastPaperIs(acts, page);
    PaperCarriesBitmap(job.settings, job.bitmap, job.height, true);
  }

  /** The same of the page that a world object has been through. */
  lemma WorldCarriesBitmap(w: World, job: PageJob)
    requires job.Valid() && PageLog(job, w.now.acts, Impression) && (job.Steady() || |w.now.acts| == 2)
    requires PageStarts(w.origin) && w.origin.head.state.Ground? && Between(w.now) && w.Valid()
    ensures |w.now.acts| >= 2 && w.now.acts[|w.now.acts| - 2].Attempt?
    ensures RasterData(LastPaper(w.now.acts)) == job.bitmap
  {
    hide PageLog, PageStarts, LawfulRun, Play, RasterData, PageJob.Steady, PageJob.Valid, LastPaper, World.Accounts,
         Printing.PaperOf;
    ImpressionCarriesBitmap(w.origin, w.history, job);
  }

  /**
   * The dots that the last attempt put on paper are the job's bitmap: each is black exactly where the
   * page received is to be; and of a page whose pixels needed no conversion they are exactly the rows
   * written, from the end of the lead on, as many as the sheet takes.
   */
  ghost predicate DotsOnPaper(acts: seq<Act>, job: PageJob, spec: PageSpec, rows: nat, data: seq<byte>, p: Profile) {
    && |acts| >= 2 && acts[|acts| - 2].Attempt?
    && RasterData(LastPaper(acts)) == job.bitmap
    && (OnlyCut(spec, p) ==>
          var from := At(spec.RowBytes(), 0, p.LeadRows());
          var end := At(spec.RowBytes(), 0, p.LeadRows() + PrintedRows(spec, rows, p));
          from <= end <= |data| && RasterData(LastPaper(acts)) == data[from..end])
    && spec.Valid() && |data| == rows * spec.RowBytes()
    && (spec.bits == 1 || spec.tone != Diffusion ==>
          Shows(RasterData(LastPaper(acts)), spec, rows, data, p, PrintedRows(spec, rows, p)))
  }

  lemma DotsOfJob(acts: seq<Act>, job: PageJob, spec: PageSpec, rows: nat, data: seq<byte>, p: Profile,
                  densityOf: Density -> Option<byte>)
    requires JobOf(job, spec, rows, data, p, densityOf)
    requires |acts| >= 2 && acts[|acts| - 2].Attempt? && RasterData(LastPaper(acts)) == job.bitmap
    ensures DotsOnPaper(acts, job, spec, rows, data, p)
  {
    hide RasterData, LastPaper, PrintedRows, At, PageSpec.RowBytes, Profile.LeadRows, Shows;
  }

  /**
   * A page from its request to its reply: begun exactly if nothing is wrong with the request, accepted
   * exactly with as many rows as the request said and messages that fit, and reported as one
   * impression only with its dots on paper, printed behind a lid found closed.
   */
  method PrintPage(encode: Message -> seq<byte>, decode: seq<byte> -> Json, pages: Pages, a: PageArgs,
                   rows: seq<seq<byte>>, w: World, p: Profile, densityOf: Density -> Option<byte>)
    returns (accepted: bool, reply: Reply, ghost job: Option<PageJob>)
    requires JsonLaws(encode, decode) && pages.Valid()
    requires forall r :: r in rows ==> |r| == RasterJob.AnnouncedSize(a)
    requires w.Valid() && PageStarts(w.origin) && w.origin.head.state.Ground? && Between(w.now) && w.now.acts == []
    requires p.Valid() && w.printer.geometry.Valid() && w.printer.geometry.widthBytes == p.WidthBytes()
    modifies pages, pages.page, w`now, w`history, w`budget, w`tries, w.printer, w.printer.transport
    ensures w.Valid() && Between(w.now)
    ensures accepted <==>
              && BeginSpec(a).Ok? && |rows| == a.lengthRows.value
              && RasterJob.FitsWire(encode, |rows|, a.width.value * a.bits.value / 8)
    ensures !accepted ==> w.now == old(w.now)
    ensures accepted && reply == Impression ==>
              job.Some? && Behind(w.now.acts, job.value, BeginSpec(a).value, |rows|, Join(rows), p, densityOf)
  {
    hide World.Valid, PageStarts, PageLog, JsonLaws, RasterJob.FitsWire, Join, JobOf, PageSpec.RowBytes, DotsOnPaper,
         PageJob.Steady, PageJob.Valid, Pages.Valid, RasterJob.AnnouncedSize, Behind;
    var begun;
    begun, accepted := RasterJob.RequestPage(encode, decode, pages, a, rows);
    job, reply := None, StillWaiting;
    if accepted {
      reply, job := FinishPage(pages, w, p, densityOf);
    }
  }

  /** What stands behind a page of `data` reported as one impression. */
  ghost predicate Behind(acts: seq<Act>, job: PageJob, spec: PageSpec, rows: nat, data: seq<byte>, p: Profile,
                         densityOf: Density -> Option<byte>) {
    && job.Valid() && PageLog(job, acts, Impression) && JobOf(job, spec, rows, data, p, densityOf)
    && (job.Steady() || |acts| == 2 ==> DotsOnPaper(acts, job, spec, rows, data, p))
    && |acts| >= 2 && acts[|acts| - 2].Attempt? && acts[|acts| - 2].lid == Some(No)
  }

  /** `page_end` of a page that is complete. */
  method FinishPage(pages: Pages, w: World, p: Profile, densityOf: Density -> Option<byte>)
    returns (reply: Reply, ghost job: Option<PageJob>)
    requires pages.Valid() && pages.page != null && pages.page.rows == pages.page.spec.lengthRows
    requires w.Valid() && PageStarts(w.origin) && w.origin.head.state.Ground? && Between(w.now) && w.now.acts == []
    requires p.Valid() && w.printer.geometry.Valid() && w.printer.geometry.widthBytes == p.WidthBytes()
    modifies pages, w`now, w`history, w`budget, w`tries, w.printer, w.printer.transport
    ensures w.Valid() && Between(w.now)
    ensures reply == Impression ==>
              && job.Some?
              && Behind(w.now.acts, job.value, old(pages.page.spec), old(pages.page.rows), old(pages.page.data), p,
                        densityOf)
  {
    hide World.Valid, PageStarts, PageLog, JobOf, RasterData, LastPaper, Unprintable, DotsOnPaper, PageJob.Steady,
         PageJob.Valid, Written, Pages.Valid;
    ghost var spec, rows, data := pages.page.spec, pages.page.rows, pages.page.data;
    reply, job := EndPage(pages, w, p, densityOf);
    if reply == Impression {
      JobIsValid(job.value, spec, rows, data, p, densityOf);
      ImpressionAnswered(job.value, w.now.acts);
      if job.value.Steady() || |w.now.acts| == 2 {
        WorldCarriesBitmap(w, job.value);
        DotsOfJob(w.now.acts, job.value, spec, rows, data, p, densityOf);
      }
    }
  }

  lemma ImpressionAnswered(job: PageJob, acts: seq<Act>)
    requires job.Valid() && PageLog(job, acts, Impression)
    ensures |acts| >= 2 && acts[|acts| - 2].Attempt? && acts[|acts| - 2].lid == Some(No)
  {
    hide PageLog, AttemptHolds;
    ImpressionIff(job, acts, Impression);
    AttemptsRepeatThePage(job, acts, Impression, |acts| - 2);
    AttemptReads(job, acts[|acts| - 2]);
  }
}
