/** What is on paper over a whole page: the runs of the attempt loop, and one parser read through all of them. */
module PagePaper {
  import opened Bytes
  import opened Commands
  import opened Asides
  import opened PrintHead
  import opened PageHistory
  import opened PageHead
  import opened RasterStream
  import opened QueryAnswers
  import opened Reprint
  import Printing
  import Transfer

  /** The page is whole, or it was the first try. */
  predicate InStep(job: PageJob, acts: seq<Act>) { job.Steady() || (|acts| == 2 && EndsPrinted(acts)) }

  lemma AttemptKeepsSync(job: PageJob, a: Act)
    requires job.Valid() && a.Attempt? && AttemptHolds(job, a) && (job.Steady() || a.outcome == Printed)
    ensures KeepsSync(a)
  {
    AttemptReads(job, a);
    hide AttemptHolds, Run, Printing.PaperOf;
  }

  /** The runs of the attempt loop reconnect behind a short sheet before they do anything else. */
  lemma LogIsSteady(job: PageJob, log: seq<Act>, reply: Reply)
    requires job.Valid() && PageLog(job, log, reply) && InStep(job, log)
    ensures Steady(log)
  {
    hide PageLog, AttemptHolds, KeepsSync;
    forall n | 0 <= n < |log| && log[n].Attempt?
      ensures KeepsSync(log[n])
    {
      AttemptsRepeatThePage(job, log, reply, n);
      AttemptKeepsSync(job, log[n]);
    }
    forall n | 0 < n < |log| && EndsRanOut(log[..n])
      ensures Reopens(log[n])
    {
      assert log[..n][n - 1] == log[n - 1];
      ShortSheetSurvivedIff(job, log, reply, n - 1);
    }
  }

  /**
   * Over every run in every possible history of a page whose interruptions are padded to the end of a
   * command: each attempt over a link begins with the head at ground, and since the attempt before it
   * the head has read exactly the queries, feeds and timer settings sent meanwhile, whole.
   */
  lemma AttemptsBeginInSync(s: Scene, h: seq<Entry>, job: PageJob, reply: Reply, n: nat)
    requires PageStarts(s) && s.head.state.Ground? && LawfulRun(s, h)
    requires job.Valid() && job.Steady() && PageLog(job, Play(s, h).acts, reply)
    requires IsAttempt(Play(s, h).acts, n) && Play(s, h).acts[n].outcome != NotConnected
    ensures var acts := Play(s, h).acts;
            acts[n].start == Head(Ground, LastEnd(s.head, acts[..n]).done + Reads(AsidesSince(acts[..n])))
  {
    hide PageLog, LawfulRun, Play, PageStarts, Steady, Strays, Underway, Reading, LastEnd, AsidesSince;
    HeadOverHistory(s, h);
    LogIsSteady(job, Play(s, h).acts, reply);
  }

  /**
   * The chunk is what this rests on: a page with rows whose prefix does not fit one has an attempt,
   * ended by an open lid, that leaves the head inside a command, so that the lid query which follows
   * it is not read as one.
   */
  lemma SyncKeptIff(job: PageJob)
    requires job.Valid() && job.height >= 1
    ensures job.Steady()
       <==>
       forall a: Act :: a.Attempt? && a.outcome == LidOpened && AttemptHolds(job, a) ==> KeepsSync(a)
  {
    hide AttemptHolds, KeepsSync;
    if job.Steady() {
      forall a: Act | a.Attempt? && a.outcome == LidOpened && AttemptHolds(job, a)
        ensures KeepsSync(a)
      {
        AttemptKeepsSync(job, a);
      }
    } else {
      var a := AttemptOutOfSync(job);
      assert !KeepsSync(a);
    }
  }

  lemma AttemptOutOfSync(job: PageJob) returns (a: Act)
    requires job.Valid() && job.height >= 1 && !job.Steady()
    ensures a.Attempt? && a.outcome == LidOpened && AttemptHolds(job, a) && !KeepsSync(a)
    ensures var h := Printing.HeadAfter(a.writes);
            Run(h, EncodeQuery(LID_STATE)) != Head(Ground, h.done + [Query(LID_STATE)])
  {
    var schedule :=
      Transfer.CutInPrefix(job.settings, job.bitmap, job.height, SHORT_SHEET, job.chunk, true, []);
    hide Transfer.Send, Run, Join, Prefix;
    var p := Transfer.PageOf(job.settings, job.bitmap, job.height, SHORT_SHEET);
    var r := Transfer.Send(p, job.chunk, schedule, 0, 0);
    assert r.writes + [] == r.writes && Printing.Planned(r, true) == r.writes;
    a := Attempt(job.bitmap, {}, Head(Ground, []), LidOpened, r.writes, None);
    assert Performs(job, LidOpened, r.writes, None, schedule);
    QuerySwallowed(Printing.HeadAfter(r.writes), LID_STATE);
  }

  /** What is noted as a lid or a paper answer was asked as that question: the head read its query, and no other. */
  lemma AnswersWereAsked(s: Scene, e: Entry)
    requires Lawful(s, e) && s.head.state.Ground? && (e.Lid? || e.Paper?) && Reached(e.answer)
    ensures After(s, e).head ==
            Head(Ground, s.head.done + [Query((if e.Lid? then AskLid else AskPaper).Selector())])
  {
    var q := if e.Lid? then AskLid else AskPaper;
    RunAsides([Ask(q.Selector())], s.head.done);
    OneAside(Ask(q.Selector()));
  }

  /**
   * One impression is reported only for a page on paper: the head was at ground as the last attempt
   * began, and has since read the commands of the page, whole, the lid query behind them, and then
   * what the last eject sent, and nothing else.
   */
  lemma ImpressionIsOnPaper(s: Scene, h: seq<Entry>, job: PageJob)
    requires PageStarts(s) && s.head.state.Ground? && LawfulRun(s, h)
    requires Play(s, h).printing.None? && Play(s, h).seen == []
    requires job.Valid() && PageLog(job, Play(s, h).acts, Impression)
    requires job.Steady() || |Play(s, h).acts| == 2
    ensures var acts := Play(s, h).acts;
            && |acts| >= 2 && acts[|acts| - 2].Attempt? && acts[|acts| - 1].Eject?
            && acts[|acts| - 2].outcome == Printed
            && var a := acts[|acts| - 2];
               var page := Printing.PaperOf(job.settings, job.bitmap, job.height, true);
               && a.start.state.Ground?
               && Run(a.start, Join(a.writes)) == Head(Ground, a.start.done + page)
               && Play(s, h).head.done == a.start.done + page + Reads(SentBy(acts[|acts| - 1].seen))
  {
    var acts := Play(s, h).acts;
    ImpressionIff(job, acts, Impression);
    hide PageLog, LawfulRun, Play, PageStarts, Run, Join, Printing.PaperOf, AttemptHolds, Steady, HeadInv, SentBy,
         Reads, Geometry.Bytes;
    LogIsSteady(job, acts, Impression);
    HeadOverHistory(s, h);
    var k := |acts| - 2;
    var a := acts[k];
    AttemptsRepeatThePage(job, acts, Impression, k);
    AttemptReads(job, a);
    AtTheEnd(s, Play(s, h));
    RunFrom(a.start.done, Join(a.writes));
    assert a.outcome == Printed;
  }

  /** The last attempt and the eject behind it, as the head reads them. */
  lemma AtTheEnd(s: Scene, t: Scene)
    requires HeadInv(s.head, t) && Steady(t.acts) && EndsPrinted(t.acts) && t.printing.None? && t.seen == []
    ensures t.acts[|t.acts| - 2].start.state.Ground?
    ensures var a := t.acts[|t.acts| - 2];
            t.head.done == Run(a.start, Join(a.writes)).done + Reads(SentBy(t.acts[|t.acts| - 1].seen))
  {
    hide Run, Steady, Reads, SentBy;
    var acts := t.acts;
    var front := acts[..|acts| - 1];
    assert front[|front| - 1] == acts[|acts| - 2];
    assert LastEnd(s.head, acts) == LastEnd(s.head, front);
    assert AsidesSince(front) == [];
    assert AsidesSince(acts) + SentBy(t.seen) == SentBy(acts[|acts| - 1].seen) by {
      assert SentBy(t.seen) == [] by { NothingSent(); }
    }
    assert BeginsInSync(s.head, acts[..|acts| - 2], acts[|acts| - 2]);
  }

  lemma NothingSent()
    ensures SentBy([]) == []
  {
  }
}
