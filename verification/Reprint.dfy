/**
 * The end of a page (`Session._cmd_page_end`) as the acts it consists of: attempts repeated over
 * short sheets, open lids and dropped links, and the waits between them.
 */
module Reprint {
  import opened Bytes
  import opened PrintHead
  import opened RasterStream
  import opened PageSession
  import opened PageHistory
  import Asides
  import Printing
  import Transfer

  /** One prepared page and the printer's settings for it; `chunk` is the size of a write. */
  datatype PageJob = PageJob(settings: Settings, bitmap: seq<byte>, height: nat, chunk: nat) {
    ghost predicate Valid() {
      settings.geometry.Valid() && |bitmap| == settings.geometry.Bytes(height) && chunk >= 1
    }

    /** An interruption is padded to the end of a command, whenever it comes. */
    predicate Steady() { height >= 1 && chunk >= |Prefix(settings)| }
  }

  /** `StillWaiting` is a run observed only up to here. */
  datatype Reply = Impression | Error(error: PageError) | StillWaiting

  predicate Raised(e: EjectResult) { e == LinkDown || e == NoClient }

  predicate Interrupted(o: Outcome) { o == RanOut || o == LidOpened || o == LinkLost }

  // ------------------------------------------------------------------
  // What the program sees in an eject and in a wait
  // ------------------------------------------------------------------

  /** Feeds of `step_rows` while a sheet is at the sensor, one of `clear_rows` behind it, three of those blind. */
  const STEP_ROWS: byte := 120
  const CLEAR_ROWS: byte := 160
  const AHEAD := 2
  const MAX_FEEDS := 64

  function Steps(n: nat): seq<byte> { seq(n, _ => STEP_ROWS) }

  const BLIND_FEEDS: seq<byte> := [CLEAR_ROWS, CLEAR_ROWS, CLEAR_ROWS]

  /** The feeds of a trace, in order. */
  function Feeds(t: seq<Entry>): seq<byte> {
    if t == [] then [] else Feeds(t[..|t| - 1]) + if t[|t| - 1].FeedLines? then [t[|t| - 1].lines] else []
  }

  lemma FeedsSnoc(t: seq<Entry>, e: Entry)
    ensures Feeds(t + [e]) == Feeds(t) + if e.FeedLines? then [e.lines] else []
  {
    assert (t + [e])[..|t|] == t;
  }

  lemma {:induction false} FeedsAppend(a: seq<Entry>, b: seq<Entry>)
    ensures Feeds(a + b) == Feeds(a) + Feeds(b)
  {
    if b == [] {
      assert a + b == a;
    } else {
      var front, last := b[..|b| - 1], b[|b| - 1];
      FeedsAppend(a, front);
      FeedsSnoc(a + front, last);
      assert a + b == a + front + [last];
    }
  }

  /**
   * What `eject_paper` makes of the answer to its own question and of the paper-absent event, which
   * it watches for from the start: without a sheet, or without an answer, it feeds blind and reports
   * success; with a sheet it feeds until the event comes, and once more then.
   */
  predicate FeedsFit(a: Answer, gone: bool, feeds: seq<byte>, e: EjectResult) {
    match a
    case Yes =>
      (match e
       case Ejected =>
         gone && AHEAD < |feeds| <= MAX_FEEDS + 1 && feeds == Steps(|feeds| - 1) + [CLEAR_ROWS]
       case StillInside => !gone && feeds == Steps(MAX_FEEDS)
       case LinkDown => |feeds| <= MAX_FEEDS && feeds == Steps(|feeds|)
       case NoClient => false)
    case LinkError => e == LinkDown && feeds == []
    case ClientError => e == NoClient && feeds == [] && !gone
    case _ => (e == Ejected && feeds == BLIND_FEEDS) || (e == LinkDown && feeds < BLIND_FEEDS)
  }

  /** The feeds in numbers. */
  lemma FeedsInNumbers(a: Answer, gone: bool, feeds: seq<byte>, e: EjectResult)
    requires FeedsFit(a, gone, feeds, e) && (e == Ejected || e == StillInside)
    ensures a == Yes || (e == Ejected && feeds == [160, 160, 160])
    ensures a == Yes && e == StillInside ==> |feeds| == 64 && forall k :: 0 <= k < 64 ==> feeds[k] == 120
    ensures a == Yes && e == Ejected ==>
              && 3 <= |feeds| <= 65 && feeds[|feeds| - 1] == 160
              && forall k :: 0 <= k < |feeds| - 1 ==> feeds[k] == 120
  {
  }

  predicate OnlyGone(t: seq<Entry>) { forall e <- t :: e == Gone }

  /** The feeds of an eject: nothing else but paper-absent events. */
  predicate OnlyFeeds(t: seq<Entry>) { forall e <- t :: e == Gone || e.FeedLines? }

  /** An eject with its question at `q`: around it only feeds, behind it, and paper-absent events. */
  predicate EjectAsks(t: seq<Entry>, q: int, e: EjectResult) {
    && 0 <= q < |t| - 1 && t[q].Paper? && t[|t| - 1] == Ejecting(e)
    && OnlyGone(t[..q]) && OnlyFeeds(t[q + 1..|t| - 1]) && (|t| > q + 2 ==> Reached(t[q].answer))
    && FeedsFit(t[q].answer, Gone in t, Feeds(t), e)
  }

  ghost predicate EjectSeen(t: seq<Entry>, e: EjectResult) { exists q :: EjectAsks(t, q, e) }

  /** The entries behind the one at `i`, up to `j`, are an eject that did not raise. */
  ghost predicate EjectedBy(t: seq<Entry>, i: nat, j: int, e: EjectResult) {
    i < j <= |t| && !Raised(e) && EjectSeen(t[i + 1..j], e)
  }

  /** A connection being made. */
  predicate Reaching(e: Entry) { e.Connect? || e.Greet? }

  /**
   * The first look at the paper in a wait is at `i`: directly behind the answer that the lid is
   * closed, and directly followed by an eject if there was a sheet.
   */
  ghost predicate FirstLook(t: seq<Entry>, i: nat) {
    && 0 < i < |t| && t[i].Paper? && t[i - 1] == Lid(No)
    && (forall k :: 0 <= k < i ==> t[k].Lid? || t[k].Reconnect? || Reaching(t[k]))
    && (t[i].answer == Yes ==> exists j, e :: EjectedBy(t, i, j, e))
  }

  /** The look was answered, and so was the eject's own question, and the eject reported success. */
  ghost predicate LookAnswered(t: seq<Entry>, i: nat)
    requires i < |t| && t[i].Paper?
  {
    t[i].answer == No || (t[i].answer == Yes && exists j, q :: AnsweredEject(t, i, j, q))
  }

  predicate AnsweredEject(t: seq<Entry>, i: nat, j: int, q: int) {
    i < j <= |t| && EjectAsks(t[i + 1..j], q, Ejected) && t[i + 1..j][q].answer != Unanswered
  }

  /** The last thing seen was a check that found the lid closed and a sheet at the sensor. */
  predicate EndsReady(seen: seq<Entry>) {
    |seen| >= 3 && seen[|seen| - 3..] == [Lid(No), Paper(Yes), Checked(IsReady)]
  }

  /** A wait that ended with a sheet: a first look, and at the end a check that found the printer ready. */
  ghost predicate FreshWait(seen: seq<Entry>) { EndsReady(seen) && exists i :: FirstLook(seen, i) }

  lemma AnsweredLookIsEvidence(t: seq<Entry>, i: nat)
    requires FirstLook(t, i) && LookAnswered(t, i)
    ensures Evidence(t)
  {
    assert t[i] in t;
    if t[i].answer == Yes {
      var j, q :| AnsweredEject(t, i, j, q);
      AnsweredEjectIsEvidence(t[i + 1..j], q);
      assert forall x <- t[i + 1..j] :: x in t;
    }
  }

  lemma AnsweredEjectIsEvidence(t: seq<Entry>, q: int)
    requires EjectAsks(t, q, Ejected) && t[q].answer != Unanswered
    ensures Evidence(t)
  {
    hide Feeds, Steps, OnlyGone, OnlyFeeds;
    assert t[q] in t;
  }

  // ------------------------------------------------------------------
  // The shape of every run
  // ------------------------------------------------------------------

  function RoundLength(o: Outcome): nat { if o == RanOut then 4 else 2 }

  /** After a short sheet: reconnect, then try to eject. Only a missing client escapes the try. */
  ghost predicate Recovered(log: seq<Act>)
    requires log != [] && log[0].Attempt?
  {
    log[0].outcome == RanOut ==>
      |log| >= 3 && log[1] == RecoverLink(true, [Reconnect(true)]) && DidEject(log[2]) && log[2].result != NoClient
  }

  ghost predicate DidEject(a: Act) { a.Eject? && EjectSeen(a.seen, a.result) }

  /** `short_sheet_fraction`, as `_print_page` leaves it. */
  const SHORT_SHEET := 0.25

  /**
   * The writes of an attempt with this outcome under this schedule of flags: those of the transfer,
   * and the lid query behind a complete one once the motor has stopped; cut short by a lost link. And
   * what the lid query was answered: a page is printed behind a closed lid only.
   */
  ghost predicate Performs(job: PageJob, o: Outcome, writes: seq<seq<byte>>, lid: Option<Answer>,
                           schedule: nat -> Transfer.Tick)
    requires job.Valid()
  {
    var p := Transfer.PageOf(job.settings, job.bitmap, job.height, SHORT_SHEET);
    var r := Transfer.Send(p, job.chunk, schedule, 0, 0);
    match o
    case Printed => r.outcome.Complete? && lid == Some(No) && writes == Printing.Planned(r, true)
    case LidOpened =>
      && ((r.outcome.LidOpened? && lid == None) || (r.outcome.Complete? && lid == Some(Yes)))
      && writes == Printing.Planned(r, true)
    case RanOut =>
      && ((r.outcome.SheetRanOut? && lid == None) || (r.outcome.Complete? && lid == Some(Unanswered)))
      && writes == Printing.Planned(r, true)
    case Cancelled => r.outcome.Cancelled? && lid == None && writes == Printing.Planned(r, true)
    case TimedOut => r.outcome.Complete? && lid == None && writes == Printing.Planned(r, false)
    case LinkLost => lid == None && writes < Printing.Planned(r, true)
    case NotConnected => lid == None && writes == []
  }

  /** Every attempt is a run of `print_bitmap` on the one page. */
  ghost predicate AttemptHolds(job: PageJob, a: Act)
    requires job.Valid() && a.Attempt?
  {
    a.bitmap == job.bitmap && exists schedule :: Performs(job, a.outcome, a.writes, a.lid, schedule)
  }

  /** What the head reads of an attempt, beginning at ground. */
  lemma AttemptReads(job: PageJob, a: Act)
    requires job.Valid() && a.Attempt? && AttemptHolds(job, a)
    ensures a.outcome == Printed ==>
              Printing.HeadAfter(a.writes)
              == Head(Ground, Printing.PaperOf(job.settings, job.bitmap, job.height, true))
    ensures job.Steady() && a.outcome in {Printed, Cancelled, LidOpened, TimedOut} ==>
              Printing.HeadAfter(a.writes).state.Ground?
    ensures a.outcome == NotConnected ==> a.writes == []
    ensures a.outcome == Printed ==> a.lid == Some(No)
  {
    var schedule :| Performs(job, a.outcome, a.writes, a.lid, schedule);
    Printing.PlannedHead(job.settings, job.bitmap, job.height, SHORT_SHEET, job.chunk, schedule, true);
    Printing.PlannedHead(job.settings, job.bitmap, job.height, SHORT_SHEET, job.chunk, schedule, false);
    hide Printing.Planned, Printing.HeadAfter, Transfer.Send, Prefix, Printing.PaperOf;
  }

  /** One attempt that was interrupted, and the wait after it. */
  ghost predicate Round(log: seq<Act>) {
    && log != [] && log[0].Attempt? && Interrupted(log[0].outcome)
    && |log| == RoundLength(log[0].outcome) && Recovered(log)
    && log[|log| - 1].Wait? && (log[|log| - 1].waited == Fresh ==> FreshWait(log[|log| - 1].seen))
  }

  function WaitError(w: WaitResult): Reply
    requires w != Fresh
  {
    match w
    case WaitCancelled => Error(CancelledByClient)
    case WaitEjectRaised => Error(InternalError)
    case WaitNoClient => Error(InternalError)
    case WaitCut => StillWaiting
  }

  /** The last round of a run and its reply. */
  ghost predicate Ends(log: seq<Act>, reply: Reply)
    requires log != [] && log[0].Attempt?
  {
    match log[0].outcome
    case Printed =>
      |log| == 2 && DidEject(log[1]) && reply == if Raised(log[1].result) then Error(InternalError) else Impression
    case Cancelled =>
      && |log| == 3 && log[1] == Drain([]) && DidEject(log[2])
      && reply == Error(if Raised(log[2].result) then InternalError else CancelledByClient)
    case TimedOut => |log| == 1 && reply == Error(ConnectionLost)
    case NotConnected => |log| == 1 && reply == Error(InternalError)
    case _ =>
      || (LostForGood(log) && reply == Error(InternalError))
      || (Round(log) && log[|log| - 1].waited != Fresh && reply == WaitError(log[|log| - 1].waited))
  }

  const NO_CLIENT := [RecoverLink(false, [Reconnect(false)]), Eject(NoClient, [Paper(ClientError), Ejecting(NoClient)])]

  /** A short sheet after which the reconnect failed: the eject finds no client. */
  predicate LostForGood(log: seq<Act>)
    requires log != [] && log[0].Attempt?
  {
    && log[0].outcome == RanOut
    && log == [log[0]] + NO_CLIENT
  }

  /** The runs of the attempt loop. */
  ghost predicate PageLog(job: PageJob, log: seq<Act>, reply: Reply)
    requires job.Valid()
    decreases |log|
  {
    if log == [] then reply == StillWaiting
    else
      && log[0].Attempt? && AttemptHolds(job, log[0])
      && (Ends(log, reply) || (Again(log) && PageLog(job, Later(log), reply)))
  }

  /** The log begins with a round after which the page is tried again. */
  ghost predicate Again(log: seq<Act>) {
    && log != [] && log[0].Attempt? && RoundLength(log[0].outcome) <= |log|
    && Round(log[..RoundLength(log[0].outcome)]) && Last(log).waited == Fresh
  }

  /** The wait that ends the first round. */
  ghost function Last(log: seq<Act>): Act
    requires log != [] && log[0].Attempt? && RoundLength(log[0].outcome) <= |log|
    requires Round(log[..RoundLength(log[0].outcome)])
    ensures Last(log).Wait?
  {
    log[RoundLength(log[0].outcome) - 1]
  }

  function Later(log: seq<Act>): seq<Act>
    requires log != [] && log[0].Attempt? && RoundLength(log[0].outcome) <= |log|
  {
    log[RoundLength(log[0].outcome)..]
  }

  predicate IsAttempt(log: seq<Act>, k: int) { 0 <= k < |log| && log[k].Attempt? }

  lemma Unfold(job: PageJob, log: seq<Act>, reply: Reply)
    requires job.Valid() && PageLog(job, log, reply) && log != []
    ensures log[0].Attempt? && AttemptHolds(job, log[0])
    ensures Ends(log, reply) || (Again(log) && PageLog(job, Later(log), reply))
  {
  }

  /** Only the first act of a round is an attempt. */
  lemma OneAttemptARound(log: seq<Act>, k: nat)
    requires Again(log) && IsAttempt(log, k) && k > 0
    ensures k >= RoundLength(log[0].outcome) && IsAttempt(Later(log), k - RoundLength(log[0].outcome))
    ensures log[k] == Later(log)[k - RoundLength(log[0].outcome)]
  {
    var head := log[..RoundLength(log[0].outcome)];
    assert forall j :: 0 <= j < |head| ==> head[j] == log[j];
  }

  lemma OneAttemptAtTheEnd(log: seq<Act>, reply: Reply, k: nat)
    requires log != [] && log[0].Attempt? && Ends(log, reply) && IsAttempt(log, k)
    ensures k == 0
  {
  }

  /**
   * Over every run: all attempts print the same page; and the act before each later one is a wait
   * that ended with a ready printer, after a first look at the paper.
   */
  lemma {:induction false} AttemptsRepeatThePage(job: PageJob, log: seq<Act>, reply: Reply, k: nat)
    requires job.Valid() && PageLog(job, log, reply) && IsAttempt(log, k)
    ensures AttemptHolds(job, log[k])
    ensures k > 0 ==> log[k - 1].Wait? && log[k - 1].waited == Fresh && FreshWait(log[k - 1].seen)
    decreases |log|
  {
    hide PageLog, Ends, AttemptHolds, FreshWait;
    Unfold(job, log, reply);
    if k > 0 {
      if Ends(log, reply) {
        OneAttemptAtTheEnd(log, reply, k);
      } else {
        OneAttemptARound(log, k);
        var n := RoundLength(log[0].outcome);
        var later := Later(log);
        AttemptsRepeatThePage(job, later, reply, k - n);
        if k == n {
          LastIsFresh(log);
        } else {
          assert later[k - n - 1] == log[k - 1];
        }
      }
    }
  }

  lemma LastIsFresh(log: seq<Act>)
    requires Again(log)
    ensures Last(log).waited == Fresh && FreshWait(Last(log).seen) && Last(log) == log[RoundLength(log[0].outcome) - 1]
  {
    hide FreshWait;
  }

  /** Every attempt that another one follows was interrupted. */
  lemma {:induction false} EarlierWereInterrupted(job: PageJob, log: seq<Act>, reply: Reply, j: nat, k: nat)
    requires job.Valid() && PageLog(job, log, reply) && IsAttempt(log, j) && IsAttempt(log, k) && j < k
    ensures Interrupted(log[j].outcome)
    decreases |log|
  {
    hide PageLog, Ends;
    Unfold(job, log, reply);
    if Ends(log, reply) {
      OneAttemptAtTheEnd(log, reply, k);
    } else {
      OneAttemptARound(log, k);
      if j > 0 {
        OneAttemptARound(log, j);
        var n := RoundLength(log[0].outcome);
        EarlierWereInterrupted(job, Later(log), reply, j - n, k - n);
      }
    }
  }

  /** A cancelled attempt is followed by the drain and one eject, and nothing else. */
  lemma {:induction false} CancelEjectsOnce(job: PageJob, log: seq<Act>, reply: Reply, k: nat)
    requires job.Valid() && PageLog(job, log, reply) && IsAttempt(log, k) && log[k].outcome == Cancelled
    ensures |log| == k + 3 && log[k + 1] == Drain([]) && DidEject(log[k + 2])
    ensures reply == Error(if Raised(log[k + 2].result) then InternalError else CancelledByClient)
    decreases |log|
  {
    hide PageLog, FreshWait, EjectSeen, AttemptHolds;
    Unfold(job, log, reply);
    if Ends(log, reply) {
      OneAttemptAtTheEnd(log, reply, k);
    } else if k > 0 {
      hide Ends;
      OneAttemptARound(log, k);
      var n := RoundLength(log[0].outcome);
      var later := Later(log);
      CancelEjectsOnce(job, later, reply, k - n);
      assert later[k - n + 1] == log[k + 1] && later[k - n + 2] == log[k + 2];
    }
  }

  /** The run ends with an attempt that printed and an eject that did not raise. */
  predicate EndsPrinted(log: seq<Act>) {
    && |log| >= 2 && log[|log| - 2].Attempt? && log[|log| - 2].outcome == Printed
    && log[|log| - 1].Eject? && !Raised(log[|log| - 1].result)
  }

  lemma EndsPrintedLater(log: seq<Act>)
    requires Again(log)
    ensures EndsPrinted(log) <==> EndsPrinted(Later(log))
  {
    hide FreshWait;
    var n := RoundLength(log[0].outcome);
    var later := Later(log);
    assert |later| >= 1 ==> log[|log| - 1] == later[|later| - 1];
    assert |later| >= 2 ==> log[|log| - 2] == later[|later| - 2];
    assert |later| == 0 ==> log[|log| - 1] == Last(log);
    assert |later| == 1 ==> log[|log| - 2] == Last(log);
  }

  /**
   * The reply is one impression exactly if the last attempt printed and the eject after it did not
   * raise. A page can be on paper and still be reported as failed; never the other way round.
   */
  lemma {:induction false} ImpressionIff(job: PageJob, log: seq<Act>, reply: Reply)
    requires job.Valid() && PageLog(job, log, reply)
    ensures reply == Impression <==> EndsPrinted(log)
    decreases |log|
  {
    hide PageLog, EndsPrinted;
    if log == [] {
      EmptyLog(job, reply);
    } else {
      Unfold(job, log, reply);
      if Ends(log, reply) {
        EndImpression(log, reply);
      } else {
        hide Ends, Again;
        ImpressionIff(job, Later(log), reply);
        EndsPrintedLater(log);
      }
    }
  }

  lemma EmptyLog(job: PageJob, reply: Reply)
    requires job.Valid() && PageLog(job, [], reply)
    ensures reply == StillWaiting && !EndsPrinted([])
  {
  }

  lemma EndImpression(log: seq<Act>, reply: Reply)
    requires log != [] && log[0].Attempt? && Ends(log, reply)
    ensures reply == Impression <==> EndsPrinted(log)
  {
    hide FreshWait, EjectSeen;
  }

  lemma LinkErrorEject()
    ensures EjectSeen([Paper(LinkError), Ejecting(LinkDown)], LinkDown)
  {
    FeedsSnoc([], Paper(LinkError));
    FeedsSnoc([] + [Paper(LinkError)], Ejecting(LinkDown));
    var t := [] + [Paper(LinkError)] + [Ejecting(LinkDown)];
    assert EjectAsks(t, 0, LinkDown);
    assert t == [Paper(LinkError), Ejecting(LinkDown)];
  }

  /** The run that shows the other half: printed, and reported as an error because the last eject raised. */
  lemma PrintedButReportedFailed(job: PageJob, a: Act)
    requires job.Valid() && a.Attempt? && AttemptHolds(job, a) && a.outcome == Printed
    ensures PageLog(job, [a, Eject(LinkDown, [Paper(LinkError), Ejecting(LinkDown)])], Error(InternalError))
  {
    LinkErrorEject();
    hide AttemptHolds, EjectSeen;
  }

  /**
   * A short sheet is survived exactly if the reconnect after it succeeds: a failed one leaves no
   * client, the eject then raises an error nobody catches, and the page ends there.
   */
  lemma {:induction false} ShortSheetSurvivedIff(job: PageJob, log: seq<Act>, reply: Reply, k: nat)
    requires job.Valid() && PageLog(job, log, reply) && IsAttempt(log, k) && log[k].outcome == RanOut
    ensures k + 2 < |log| && log[k + 1].RecoverLink?
    ensures log[k + 1] == RecoverLink(log[k + 1].up, [Reconnect(log[k + 1].up)])
    ensures log[k + 2].Eject? && (log[k + 2].result == NoClient <==> !log[k + 1].up)
    ensures log[k + 1].up <==> k + 3 < |log| && log[k + 3].Wait?
    ensures !log[k + 1].up ==> |log| == k + 3 && reply == Error(InternalError)
    decreases |log|
  {
    hide PageLog, FreshWait, EjectSeen, AttemptHolds;
    Unfold(job, log, reply);
    if Ends(log, reply) {
      OneAttemptAtTheEnd(log, reply, k);
    } else if k > 0 {
      hide Ends;
      OneAttemptARound(log, k);
      var n := RoundLength(log[0].outcome);
      var later := Later(log);
      ShortSheetSurvivedIff(job, later, reply, k - n);
      assert later[k - n + 1] == log[k + 1] && later[k - n + 2] == log[k + 2];
      assert k + 3 < |log| ==> later[k - n + 3] == log[k + 3];
    }
  }

  /** An open lid and a lost link are waited out at once: no reconnect and no eject come before. */
  lemma {:induction false} InterruptedWaits(job: PageJob, log: seq<Act>, reply: Reply, k: nat)
    requires job.Valid() && PageLog(job, log, reply) && IsAttempt(log, k) && log[k].outcome in {LidOpened, LinkLost}
    ensures k + 1 < |log| && log[k + 1].Wait? && (k + 2 < |log| ==> log[k + 1].waited == Fresh && log[k + 2].Attempt?)
    decreases |log|
  {
    hide PageLog, FreshWait, EjectSeen, AttemptHolds;
    Unfold(job, log, reply);
    if Ends(log, reply) {
      OneAttemptAtTheEnd(log, reply, k);
    } else if k > 0 {
      hide Ends;
      OneAttemptARound(log, k);
      var n := RoundLength(log[0].outcome);
      var later := Later(log);
      InterruptedWaits(job, later, reply, k - n);
      assert later[k - n + 1] == log[k + 1];
      assert k + 2 < |log| ==> later[k - n + 2] == log[k + 2];
    } else {
      LaterBegins(job, log, reply);
    }
  }

  /** Behind a round that is tried again stands the next attempt, if anything does. */
  lemma LaterBegins(job: PageJob, log: seq<Act>, reply: Reply)
    requires job.Valid() && Again(log) && PageLog(job, Later(log), reply)
    ensures var n := RoundLength(log[0].outcome);
            && log[n - 1].Wait? && log[n - 1].waited == Fresh && (n < |log| ==> log[n].Attempt?)
  {
    hide AttemptHolds, FreshWait, Ends;
    assert Later(log) != [] ==> Later(log)[0] == log[RoundLength(log[0].outcome)];
  }

  /**
   * A sheet taken for too short while a page was sent had, by the rows sent when the transfer stopped,
   * more than a quarter of the page still to come.
   */
  lemma ShortByAQuarter(job: PageJob, a: Act) returns (k: nat, n: nat)
    requires job.Valid() && a.Attempt? && AttemptHolds(job, a) && a.outcome == RanOut && a.lid == None
    ensures Transfer.RowsSent(job.settings, job.height, k, n) && k <= |Stream(job.settings, job.bitmap, job.height)|
    ensures Join(a.writes) == Stream(job.settings, job.bitmap, job.height)[..k]
    ensures 4 * (job.height - n) > job.height
  {
    var schedule :| Performs(job, a.outcome, a.writes, a.lid, schedule);
    var p := Transfer.PageOf(job.settings, job.bitmap, job.height, SHORT_SHEET);
    var r := Transfer.Send(p, job.chunk, schedule, 0, 0);
    Transfer.TransferOutcomes(p, job.chunk, schedule);
    var i;
    n, i := Transfer.RanOutOnlyIfShort(job.settings, job.bitmap, job.height, SHORT_SHEET, job.chunk, schedule);
    k := r.stop;
    hide Transfer.Send, Transfer.RowsSent, Join, Stream;
    assert r.writes + [] == r.writes;
    assert (job.height - n) as real > 0.25 * job.height as real;
  }

  /** A page sent to its end went on past the end of its sheet only with at most a quarter of it to come. */
  lemma SparedAQuarter(job: PageJob, o: Outcome, writes: seq<seq<byte>>, lid: Option<Answer>,
                       schedule: nat -> Transfer.Tick, i: nat, n: nat)
    requires job.Valid() && job.height > 0 && Performs(job, o, writes, lid, schedule) && (o == Printed || o == TimedOut)
    requires i * job.chunk < |Stream(job.settings, job.bitmap, job.height)| && schedule(i).absent
    requires Transfer.RowsSent(job.settings, job.height, i * job.chunk, n)
    ensures 4 * (job.height - n) <= job.height
  {
    hide Transfer.RowsSent, Join, Stream, Transfer.Send, Transfer.PageOf, Performs;
    SentWhole(job, o, writes, lid, schedule);
    Transfer.SentOnlyIfLong(job.settings, job.bitmap, job.height, SHORT_SHEET, job.chunk, schedule, i, n);
    assert (job.height - n) as real <= 0.25 * job.height as real;
  }

  lemma SentWhole(job: PageJob, o: Outcome, writes: seq<seq<byte>>, lid: Option<Answer>, schedule: nat -> Transfer.Tick)
    requires job.Valid() && Performs(job, o, writes, lid, schedule) && (o == Printed || o == TimedOut)
    ensures Transfer.Send(Transfer.PageOf(job.settings, job.bitmap, job.height, SHORT_SHEET), job.chunk, schedule,
                          0, 0).stop
         == |Stream(job.settings, job.bitmap, job.height)|
  {
    hide Transfer.Send, Stream, Printing.Planned;
    Transfer.CompleteStopsAtEnd(Transfer.PageOf(job.settings, job.bitmap, job.height, SHORT_SHEET), job.chunk,
                                schedule);
  }

  // ------------------------------------------------------------------
  // What is replied
  // ------------------------------------------------------------------

  /** The run ends with a wait that was cancelled. */
  predicate EndsCancelledWaiting(log: seq<Act>) {
    log != [] && log[|log| - 1].Wait? && log[|log| - 1].waited == WaitCancelled
  }

  /** The run ends with a cancelled attempt, drained, whose eject did not raise. */
  predicate EndsCancelledPrinting(log: seq<Act>) {
    && |log| >= 3 && log[|log| - 3].Attempt? && log[|log| - 3].outcome == Cancelled
    && log[|log| - 1].Eject? && !Raised(log[|log| - 1].result)
  }

  predicate EndsTimedOut(log: seq<Act>) {
    log != [] && log[|log| - 1].Attempt? && log[|log| - 1].outcome == TimedOut
  }

  /** The run was watched no further: nothing yet, or a wait that goes on. */
  predicate EndsWatched(log: seq<Act>) {
    log == [] || (log[|log| - 1].Wait? && log[|log| - 1].waited in {WaitCut, Fresh})
  }

  lemma EndReplies(log: seq<Act>, reply: Reply)
    requires log != [] && log[0].Attempt? && Ends(log, reply)
    ensures reply == Error(CancelledByClient) <==> EndsCancelledWaiting(log) || EndsCancelledPrinting(log)
    ensures reply == Error(ConnectionLost) <==> EndsTimedOut(log)
    ensures reply == StillWaiting <==> EndsWatched(log)
    ensures reply == Impression || reply == StillWaiting
         || reply in {Error(CancelledByClient), Error(ConnectionLost), Error(InternalError)}
  {
    hide FreshWait, EjectSeen;
  }

  lemma EndsLater(log: seq<Act>)
    requires Again(log)
    ensures EndsCancelledWaiting(log) <==> EndsCancelledWaiting(Later(log))
    ensures EndsCancelledPrinting(log) <==> EndsCancelledPrinting(Later(log))
    ensures EndsTimedOut(log) <==> EndsTimedOut(Later(log))
    ensures EndsWatched(log) <==> EndsWatched(Later(log))
  {
    hide FreshWait, EjectSeen;
    var n := RoundLength(log[0].outcome);
    var later := Later(log);
    assert Last(log) == log[n - 1];
    assert forall k :: 0 <= k < |later| ==> later[k] == log[n + k];
    assert |later| == 0 ==> log[|log| - 1] == Last(log);
    assert |later| == 1 ==> log[|log| - 2] == Last(log);
    assert |later| == 2 ==> log[|log| - 3] == Last(log);
  }

  /**
   * Which run is answered how: cancelled exactly behind a cancelled wait, or behind a cancelled attempt
   * whose eject did not raise; a lost connection exactly behind an attempt that timed out; and in
   * every other case but an impression an internal error, unless the run was watched no further.
   */
  lemma {:induction false} ReplyIff(job: PageJob, log: seq<Act>, reply: Reply)
    requires job.Valid() && PageLog(job, log, reply)
    ensures reply == Error(CancelledByClient) <==> EndsCancelledWaiting(log) || EndsCancelledPrinting(log)
    ensures reply == Error(ConnectionLost) <==> EndsTimedOut(log)
    ensures reply == StillWaiting <==> EndsWatched(log)
    ensures reply == Impression || reply == StillWaiting
         || reply in {Error(CancelledByClient), Error(ConnectionLost), Error(InternalError)}
    decreases |log|
  {
    hide PageLog, EndsCancelledPrinting, EndsCancelledWaiting, EndsTimedOut, EndsWatched;
    if log == [] {
      EmptyReply(job, reply);
    } else {
      Unfold(job, log, reply);
      if Ends(log, reply) {
        EndReplies(log, reply);
      } else {
        hide Ends, Again;
        ReplyIff(job, Later(log), reply);
        EndsLater(log);
      }
    }
  }

  lemma EmptyReply(job: PageJob, reply: Reply)
    requires job.Valid() && PageLog(job, [], reply)
    ensures reply == StillWaiting && EndsWatched([]) && !EndsTimedOut([])
    ensures !EndsCancelledWaiting([]) && !EndsCancelledPrinting([])
  {
  }

  // ------------------------------------------------------------------
  // Fresh sheets
  // ------------------------------------------------------------------

  /**
   * In every possible history of a page, an attempt before which the first look at the paper was
   * answered and a sheet found there was ejected with the eject's own question answered, has no
   * sheet under the head that an earlier attempt had.
   */
  lemma AttemptsOnFreshSheets(s: Scene, h: seq<Entry>, job: PageJob, reply: Reply, m: nat, n: nat, look: nat)
    requires PageStarts(s) && LawfulRun(s, h) && job.Valid() && PageLog(job, Play(s, h).acts, reply)
    requires m < n && IsAttempt(Play(s, h).acts, m) && IsAttempt(Play(s, h).acts, n)
    requires !Play(s, h).acts[n - 1].Attempt?
    requires FirstLook(Play(s, h).acts[n - 1].seen, look) && LookAnswered(Play(s, h).acts[n - 1].seen, look)
    ensures Play(s, h).acts[m].touched !! Play(s, h).acts[n].touched
  {
    hide PageLog, LawfulRun, Play, FirstLook, LookAnswered;
    var acts := Play(s, h).acts;
    AnsweredLookIsEvidence(acts[n - 1].seen, look);
    assert acts[..n][n - 1] == acts[n - 1];
    NoSheetTwice(s, h, m, n);
  }

  /** There always is such a look: only its answers decide. */
  lemma EveryWaitLooks(job: PageJob, log: seq<Act>, reply: Reply, n: nat) returns (look: nat)
    requires job.Valid() && PageLog(job, log, reply) && IsAttempt(log, n) && n > 0
    ensures log[n - 1].Wait? && log[n - 1].waited == Fresh && FirstLook(log[n - 1].seen, look)
    ensures EndsReady(log[n - 1].seen)
  {
    hide PageLog, FirstLook;
    AttemptsRepeatThePage(job, log, reply, n);
    look :| FirstLook(log[n - 1].seen, look);
  }

  // ------------------------------------------------------------------
  // What the answers were worth
  // ------------------------------------------------------------------

  /**
   * Before every later attempt, in every possible history, the wait ended with the lid found closed and
   * then paper found, and they were so: there was a sheet at the sensor when it said so.
   */
  lemma AttemptsBeginOnASheet(s: Scene, h: seq<Entry>, job: PageJob, reply: Reply, n: nat) returns (i: nat, j: nat)
    requires PageStarts(s) && LawfulRun(s, h) && job.Valid() && PageLog(job, Play(s, h).acts, reply)
    requires n > 0 && IsAttempt(Play(s, h).acts, n)
    ensures i < |h| && h[i] == Lid(No) && Play(s, h[..i]).acts == Play(s, h).acts[..n - 1]
    ensures Play(s, h[..i]).link == Up && !Play(s, h[..i]).lidOpen
    ensures j < |h| && h[j] == Paper(Yes) && Play(s, h[..j]).acts == Play(s, h).acts[..n - 1]
    ensures Play(s, h[..j]).link == Up && Play(s, h[..j]).sheet.Some?
  {
    hide PageLog, LawfulRun, Play, FirstLook;
    var acts := Play(s, h).acts;
    AttemptsRepeatThePage(job, acts, reply, n);
    var seen := acts[n - 1].seen;
    assert seen[|seen| - 3..][0] == Lid(No) && seen[|seen| - 3..][1] == Paper(Yes);
    i := SeenAt(s, h, n - 1, |seen| - 3);
    j := SeenAt(s, h, n - 1, |seen| - 2);
  }

  /**
   * A page is printed, and so an impression reported, only behind a lid query that was answered
   * closed, and the lid was closed then.
   */
  lemma PrintedUnderClosedLid(s: Scene, h: seq<Entry>, job: PageJob, reply: Reply, n: nat) returns (i: nat)
    requires PageStarts(s) && LawfulRun(s, h) && job.Valid() && PageLog(job, Play(s, h).acts, reply)
    requires IsAttempt(Play(s, h).acts, n)
    requires Play(s, h).acts[n].outcome == Printed || (reply == Impression && n == |Play(s, h).acts| - 2)
    ensures Play(s, h).acts[n].outcome == Printed && Play(s, h).acts[n].lid == Some(No)
    ensures i < |h| && h[i] == AttemptOver(Printed, Play(s, h).acts[n].writes, Some(No))
    ensures Play(s, h[..i]).acts == Play(s, h).acts[..n]
    ensures Play(s, h[..i]).link == Up && !Play(s, h[..i]).lidOpen
  {
    hide PageLog, LawfulRun, Play, AttemptHolds;
    ImpressionIff(job, Play(s, h).acts, reply);
    AttemptsRepeatThePage(job, Play(s, h).acts, reply, n);
    AttemptReads(job, Play(s, h).acts[n]);
    i := ActAt(s, h, n);
  }

  // ------------------------------------------------------------------
  // Building a run round by round
  // ------------------------------------------------------------------

  /** Whatever run follows `done`, the two together are a run of the whole loop. */
  ghost predicate Leads(job: PageJob, done: seq<Act>)
    requires job.Valid()
  {
    forall later, reply :: PageLog(job, later, reply) ==> PageLog(job, done + later, reply)
  }

  lemma NothingDone(job: PageJob)
    requires job.Valid()
    ensures Leads(job, [])
  {
    hide PageLog;
    forall later, reply | PageLog(job, later, reply)
      ensures PageLog(job, [] + later, reply)
    {
      assert [] + later == later;
    }
  }

  lemma RoundDone(job: PageJob, done: seq<Act>, round: seq<Act>)
    requires job.Valid() && Leads(job, done)
    requires Round(round) && AttemptHolds(job, round[0]) && round[|round| - 1].waited == Fresh
    ensures Leads(job, done + round)
  {
    hide PageLog, Round, AttemptHolds;
    forall later, reply | PageLog(job, later, reply)
      ensures PageLog(job, done + round + later, reply)
    {
      Prepend(job, round, later, reply);
      assert done + round + later == done + (round + later);
    }
  }

  lemma Prepend(job: PageJob, round: seq<Act>, later: seq<Act>, reply: Reply)
    requires job.Valid() && Round(round) && AttemptHolds(job, round[0]) && round[|round| - 1].waited == Fresh
    requires PageLog(job, later, reply)
    ensures PageLog(job, round + later, reply)
  {
    hide AttemptHolds, FreshWait;
    var log := round + later;
    assert log[..|round|] == round && log[|round|..] == later;
    assert Later(log) == later;
    assert Last(log) == round[|round| - 1];
  }

  lemma LoopEnds(job: PageJob, done: seq<Act>, end: seq<Act>, reply: Reply)
    requires job.Valid() && Leads(job, done)
    requires end != [] && end[0].Attempt? && Ends(end, reply) && AttemptHolds(job, end[0])
    ensures PageLog(job, done + end, reply)
  {
    hide PageLog, Ends, AttemptHolds;
    OnlyTheEnd(job, end, reply);
  }

  lemma OnlyTheEnd(job: PageJob, end: seq<Act>, reply: Reply)
    requires job.Valid() && end != [] && end[0].Attempt? && Ends(end, reply) && AttemptHolds(job, end[0])
    ensures PageLog(job, end, reply)
  {
    hide Ends, AttemptHolds;
  }

  lemma LoopCut(job: PageJob, done: seq<Act>)
    requires job.Valid() && Leads(job, done)
    ensures PageLog(job, done, StillWaiting)
  {
    assert PageLog(job, [], StillWaiting);
    assert done + [] == done;
  }
}
