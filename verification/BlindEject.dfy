/** A run of the attempt loop that prints twice on one sheet: the eject's own question went unanswered. */
module BlindEject {
  import opened Bytes
  import opened Asides
  import opened PrintHead
  import opened RasterStream
  import opened PageSession
  import opened PageHistory
  import opened Reprint
  import Interruption
  import Printing
  import Transfer

  /** A sheet in the printer, the lid closed, nothing done yet. */
  const SHEET_IN := Scene(Up, false, false, Some(0), 1, {}, Head(Ground, []), None, [], [])

  /** An eject that gets no answer. */
  const BLIND: seq<Entry> :=
    [Paper(Unanswered), FeedLines(CLEAR_ROWS), FeedLines(CLEAR_ROWS), FeedLines(CLEAR_ROWS), Ejecting(Ejected)]

  /** A wait with such an eject in it: the look before it is answered, and so is the check behind it. */
  const BLIND_WAIT: seq<Entry> := [Lid(No), Paper(Yes)] + BLIND + [Lid(No), Paper(Yes), Checked(IsReady)]

  lemma BlindIsEject()
    ensures EjectSeen(BLIND, Ejected) && !Evidence(BLIND)
  {
    var feed := FeedLines(CLEAR_ROWS);
    FeedsSnoc([], Paper(Unanswered));
    FeedsSnoc([] + [Paper(Unanswered)], feed);
    FeedsSnoc([] + [Paper(Unanswered)] + [feed], feed);
    FeedsSnoc([] + [Paper(Unanswered)] + [feed] + [feed], feed);
    FeedsSnoc([] + [Paper(Unanswered)] + [feed] + [feed] + [feed], Ejecting(Ejected));
    var t := [] + [Paper(Unanswered)] + [feed] + [feed] + [feed] + [Ejecting(Ejected)];
    assert t == BLIND;
    assert EjectAsks(t, 0, Ejected);
  }

  lemma BlindLook()
    ensures FreshWait(BLIND_WAIT) && !Evidence(BLIND_WAIT)
  {
    BlindIsEject();
    var t := BLIND_WAIT;
    hide EjectSeen;
    assert t[2..7] == BLIND;
    assert EjectedBy(t, 1, 7, Ejected);
    assert FirstLook(t, 1);
  }

  // ------------------------------------------------------------------
  // The attempts
  // ------------------------------------------------------------------

  const LID_OPEN_AT_ONCE: nat -> Transfer.Tick := n => Transfer.Tick(false, true, false)
  const UNDISTURBED: nat -> Transfer.Tick := n => Transfer.Tick(false, false, false)

  function SendPage(job: PageJob, schedule: nat -> Transfer.Tick): Transfer.Sending
    requires job.Valid()
  {
    Transfer.Send(Transfer.PageOf(job.settings, job.bitmap, job.height, SHORT_SHEET), job.chunk, schedule, 0, 0)
  }

  /** An open lid at the start: nothing is written. */
  lemma LidAtOnce(job: PageJob)
    requires job.Valid()
    ensures Performs(job, Outcome.LidOpened, [], None, LID_OPEN_AT_ONCE)
  {
    var s := job.settings;
    var p := Transfer.PageOf(s, job.bitmap, job.height, SHORT_SHEET);
    Transfer.TailOfPage(s, job.bitmap, job.height, SHORT_SHEET);
    Interruption.NotStarted(s.geometry, job.height, |Prefix(s)|, p.stream, 0);
    Transfer.SendStop(p, job.chunk, LID_OPEN_AT_ONCE, 0, 0);
  }

  /** Nothing in the way: the whole page and the lid query. */
  lemma Unhindered(job: PageJob)
    requires job.Valid()
    ensures Performs(job, Outcome.Printed, Printing.Planned(SendPage(job, UNDISTURBED), true), Some(No), UNDISTURBED)
  {
    var p := Transfer.PageOf(job.settings, job.bitmap, job.height, SHORT_SHEET);
    if !SendPage(job, UNDISTURBED).outcome.Complete? {
      var m := Transfer.StopReason(p, job.chunk, UNDISTURBED, 0, 0);
      assert false;
    }
  }

  // ------------------------------------------------------------------
  // The history
  // ------------------------------------------------------------------

  /** A sheet in, a link up, the lid closed, nothing begun. */
  predicate AtRest(s: Scene) { s.printing.None? && s.seen == [] && s.link == Up && s.sheet.Some? && !s.lidOpen }

  lemma {:induction false} SeenOneByOne(s: Scene, h: seq<Entry>, seen: seq<Entry>, k: nat)
    requires LawfulRun(s, h) && k <= |seen| && AtRest(Play(s, h))
    requires forall e <- seen ::
               e in {Lid(No), Paper(Yes), Paper(Unanswered), FeedLines(CLEAR_ROWS), Ejecting(Ejected), Checked(IsReady)}
    ensures LawfulRun(s, h + seen[..k])
    ensures var t := Play(s, h + seen[..k]);
            t == Play(s, h).(seen := seen[..k], head := t.head)
  {
    hide Play, LawfulRun, Run, Writes, Sent;
    if k == 0 {
      assert h + seen[..0] == h;
    } else {
      SeenOneByOne(s, h, seen, k - 1);
      var e := seen[k - 1];
      assert e in seen;
      Snoc(s, h + seen[..k - 1], e);
      assert h + seen[..k] == h + seen[..k - 1] + [e] && seen[..k] == seen[..k - 1] + [e];
    }
  }

  /** What was seen, and then the act that ends with it. */
  lemma ActRun(s: Scene, h: seq<Entry>, seen: seq<Entry>, over: Entry, act: Act)
    requires LawfulRun(s, h) && AtRest(Play(s, h))
    requires forall e <- seen ::
               e in {Lid(No), Paper(Yes), Paper(Unanswered), FeedLines(CLEAR_ROWS), Ejecting(Ejected), Checked(IsReady)}
    requires (over.WaitOver? && act == Wait(over.waited, seen)) || (over.EjectOver? && act == Eject(over.ejected, seen))
    ensures LawfulRun(s, h + seen + [over])
    ensures var t := Play(s, h + seen + [over]);
            t == Play(s, h).(acts := Play(s, h).acts + [act], head := t.head)
  {
    hide Play, LawfulRun;
    SeenOneByOne(s, h, seen, |seen|);
    assert seen[..|seen|] == seen;
    Snoc(s, h + seen, over);
  }

  /** An attempt with nobody about. */
  lemma AttemptRun(s: Scene, h: seq<Entry>, bitmap: seq<byte>, o: Outcome, w: seq<seq<byte>>, lid: Option<Answer>)
    requires LawfulRun(s, h) && o in {Outcome.LidOpened, Outcome.Printed} && AtRest(Play(s, h))
    requires lid == None || lid == Some(No)
    ensures var before, after := Play(s, h), Play(s, h + [Begin(bitmap), AttemptOver(o, w, lid)]);
            && LawfulRun(s, h + [Begin(bitmap), AttemptOver(o, w, lid)])
            && after == before.(used := before.used + {before.sheet.value}, head := after.head,
                                acts := before.acts
                                        + [Attempt(bitmap, {before.sheet.value}, before.head, o, w, lid)])
  {
    hide Play, LawfulRun, Run;
    var b, e := Begin(bitmap), AttemptOver(o, w, lid);
    Snoc(s, h, b);
    Snoc(s, h + [b], e);
    assert h + [b, e] == h + [b] + [e];
    assert {} + {Play(s, h).sheet.value} == {Play(s, h).sheet.value};
  }

  function BlindRun(bitmap: seq<byte>, w: seq<seq<byte>>): seq<Entry> {
    [] + [Begin(bitmap), AttemptOver(Outcome.LidOpened, [], None)] + BLIND_WAIT + [WaitOver(Fresh)]
    + [Begin(bitmap), AttemptOver(Outcome.Printed, w, Some(No))] + BLIND + [EjectOver(Ejected)]
  }

  /**
   * For every page: a run that the loop reports as one impression, in a possible history, whose look at
   * the paper was answered and whose eject reported success, and which printed on a sheet that an
   * earlier attempt had begun on, because the eject's own question went unanswered.
   */
  lemma BlindEjectReprints(job: PageJob) returns (h: seq<Entry>)
    requires job.Valid()
    ensures PageStarts(SHEET_IN) && LawfulRun(SHEET_IN, h) && !Evidence(BLIND_WAIT)
    ensures var acts := Play(SHEET_IN, h).acts;
            && PageLog(job, acts, Impression)
            && |acts| == 4 && acts[0].Attempt? && acts[1] == Wait(Fresh, BLIND_WAIT) && acts[2].Attempt?
            && acts[0].touched == acts[2].touched == {0} && acts[2].outcome == Outcome.Printed
  {
    hide Play, LawfulRun, FreshWait, Evidence, PageLog, EjectSeen, AttemptHolds, Performs;
    EmptyRun(SHEET_IN);
    var w := Printing.Planned(SendPage(job, UNDISTURBED), true);
    h := BlindRun(job.bitmap, w);
    AttemptRun(SHEET_IN, [], job.bitmap, Outcome.LidOpened, [], None);
    var h1 := [] + [Begin(job.bitmap), AttemptOver(Outcome.LidOpened, [], None)];
    ActRun(SHEET_IN, h1, BLIND_WAIT, WaitOver(Fresh), Wait(Fresh, BLIND_WAIT));
    var h2 := h1 + BLIND_WAIT + [WaitOver(Fresh)];
    AttemptRun(SHEET_IN, h2, job.bitmap, Outcome.Printed, w, Some(No));
    var h3 := h2 + [Begin(job.bitmap), AttemptOver(Outcome.Printed, w, Some(No))];
    ActRun(SHEET_IN, h3, BLIND, EjectOver(Ejected), Eject(Ejected, BLIND));
    assert h == h3 + BLIND + [EjectOver(Ejected)];
    var first, second := Play(SHEET_IN, h1).acts[0], Play(SHEET_IN, h3).acts[2];
    BlindHolds(job, first, second);
    BlindLog(job, first, second);
    assert Play(SHEET_IN, h).acts == [first, Wait(Fresh, BLIND_WAIT)] + [second, Eject(Ejected, BLIND)];
  }

  lemma EmptyRun(s: Scene)
    ensures LawfulRun(s, []) && Play(s, []) == s
  {
  }

  lemma BlindHolds(job: PageJob, first: Act, second: Act)
    requires job.Valid() && first.Attempt? && second.Attempt? && first.bitmap == second.bitmap == job.bitmap
    requires first.outcome == Outcome.LidOpened && first.writes == [] && first.lid == None
    requires second.outcome == Outcome.Printed && second.lid == Some(No)
    requires second.writes == Printing.Planned(SendPage(job, UNDISTURBED), true)
    ensures AttemptHolds(job, first) && AttemptHolds(job, second)
  {
    LidAtOnce(job);
    Unhindered(job);
    hide Performs;
  }

  lemma BlindLog(job: PageJob, first: Act, second: Act)
    requires job.Valid() && first.Attempt? && second.Attempt? && AttemptHolds(job, first) && AttemptHolds(job, second)
    requires first.outcome == Outcome.LidOpened && second.outcome == Outcome.Printed
    ensures PageLog(job, [first, Wait(Fresh, BLIND_WAIT)] + [second, Eject(Ejected, BLIND)], Impression)
    ensures !Evidence(BLIND_WAIT)
  {
    hide PageLog, FreshWait, EjectSeen, AttemptHolds, Evidence, Leads;
    BlindIsEject();
    BlindLook();
    var round := [first, Wait(Fresh, BLIND_WAIT)];
    NothingDone(job);
    RoundDone(job, [], round);
    assert [] + round == round;
    LoopEnds(job, round, [second, Eject(Ejected, BLIND)], Impression);
  }
}
