/** `_cmd_page_end` and the waits it calls, run against a printer, a user and a link that may do anything. */
module PageEnd {
  import opened Bytes
  import opened Commands
  import opened Asides
  import opened RasterStream
  import opened PageSession
  import opened PageGeometry
  import opened PageBitmap
  import opened PageHistory
  import opened Reprint
  import Interruption
  import PrintHead
  import Printing
  import PrinterClient
  import Progress
  import Transfer

  datatype Settled = Seated | NotSeated | Unsettled

  const MUTE_THRESHOLD := 3

  /** What `check_ready` asks for each of its results: the lid, and under a closed lid the paper. */
  predicate CheckTrace(t: seq<Entry>, r: Ready) {
    match r
    case IsReady => t == [Lid(No), Paper(Yes), Checked(IsReady)]
    case NoPaper => t == [Lid(No), Paper(No), Checked(NoPaper)]
    case LidIsOpen => t == [Lid(Yes), Checked(LidIsOpen)]
    case Mute => t == [Lid(Unanswered), Checked(Mute)] || t == [Lid(No), Paper(Unanswered), Checked(Mute)]
    case Broken => t == [Lid(LinkError), Checked(Broken)] || t == [Lid(No), Paper(LinkError), Checked(Broken)]
  }

  /** Lid queries in a row, since the last reconnect, that brought no answer. */
  function Silences(t: seq<Entry>): nat {
    if t == [] then 0
    else
      var before, last := Silences(t[..|t| - 1]), t[|t| - 1];
      if last.Reconnect? then 0
      else if last == Lid(Unanswered) || last == Lid(LinkError) then before + 1
      else before
  }

  /** Checks in a row that the printer left unanswered, since the last reconnect. */
  function MuteChecks(t: seq<Entry>): nat {
    if t == [] then 0
    else
      var before, last := MuteChecks(t[..|t| - 1]), t[|t| - 1];
      if last.Reconnect? then 0
      else if last == Checked(Mute) then before + 1
      else if last == Checked(LidIsOpen) || last == Checked(NoPaper) then 0
      else before
  }

  lemma SilencesSnoc(t: seq<Entry>, e: Entry)
    ensures Silences(t + [e]) == if e.Reconnect? then 0
                                 else if e == Lid(Unanswered) || e == Lid(LinkError) then Silences(t) + 1
                                 else Silences(t)
  {
    assert (t + [e])[..|t|] == t;
  }

  lemma MuteSnoc(t: seq<Entry>, e: Entry)
    ensures MuteChecks(t + [e]) == if e.Reconnect? || e == Checked(LidIsOpen) || e == Checked(NoPaper) then 0
                                   else if e == Checked(Mute) then MuteChecks(t) + 1
                                   else MuteChecks(t)
  {
    assert (t + [e])[..|t|] == t;
  }

  /** Every reconnect comes on the third lid query without an answer. */
  predicate OnThirdSilence(t: seq<Entry>) {
    forall k :: 0 <= k < |t| && t[k].Reconnect? ==> Silences(t[..k]) == 3
  }

  /** Every reconnect comes on the third mute check. */
  predicate OnThirdMute(t: seq<Entry>) {
    forall k :: 0 <= k < |t| && t[k].Reconnect? ==> MuteChecks(t[..k]) == 3
  }

  lemma ThirdSnoc(t: seq<Entry>, e: Entry)
    ensures OnThirdSilence(t + [e]) <==> OnThirdSilence(t) && (e.Reconnect? ==> Silences(t) == 3)
    ensures OnThirdMute(t + [e]) <==> OnThirdMute(t) && (e.Reconnect? ==> MuteChecks(t) == 3)
  {
    var s := t + [e];
    assert s[..|t|] == t && s[|t|] == e;
    assert forall k :: 0 <= k < |t| ==> s[..k] == t[..k] && s[k] == t[k];
    if OnThirdSilence(s) {
      forall k | 0 <= k < |t| && t[k].Reconnect?
        ensures Silences(t[..k]) == 3
      {
        assert s[k].Reconnect?;
      }
      assert e.Reconnect? ==> s[|t|].Reconnect?;
    }
    if OnThirdMute(s) {
      forall k | 0 <= k < |t| && t[k].Reconnect?
        ensures MuteChecks(t[..k]) == 3
      {
        assert s[k].Reconnect?;
      }
      assert e.Reconnect? ==> s[|t|].Reconnect?;
    }
  }

  /** How often the link was dropped and opened again. */
  function Reconnects(t: seq<Entry>): nat {
    if t == [] then 0 else Reconnects(t[..|t| - 1]) + if t[|t| - 1].Reconnect? then 1 else 0
  }

  lemma {:induction false} ReconnectsAppend(a: seq<Entry>, b: seq<Entry>)
    ensures Reconnects(a + b) == Reconnects(a) + Reconnects(b)
  {
    if b == [] {
      assert a + b == a;
    } else {
      assert (a + b)[..|a + b| - 1] == a + b[..|b| - 1];
      ReconnectsAppend(a, b[..|b| - 1]);
    }
  }

  /** The writes of an act: an attempt's own, or those of the questions, feeds and greetings in it. */
  function WrittenIn(a: Act): seq<seq<byte>> {
    if a.Attempt? then a.writes else Writes(SentBy(a.seen))
  }

  /** The writes of all acts, in order. */
  function Written(acts: seq<Act>): seq<seq<byte>> {
    if acts == [] then [] else Written(acts[..|acts| - 1]) + WrittenIn(acts[|acts| - 1])
  }

  lemma WrittenSnoc(acts: seq<Act>, a: Act)
    ensures Written(acts + [a]) == Written(acts) + WrittenIn(a)
  {
    assert (acts + [a])[..|acts|] == acts;
  }

  lemma NothingWritten()
    ensures Written([]) == [] && Writes(SentBy([])) == []
  {
  }

  class World {
    /** Where the history begins, and what does not change: the settle setting, the printer, the flags it will see. */
    const origin: Scene
    const settles: bool
    const printer: PrinterClient.Printer
    const flags: nat -> nat -> Transfer.Tick
    /** What the transport had been given before. */
    ghost const base: seq<seq<byte>>
    /** How much longer the run is watched, and the attempts so far. */
    var budget: nat
    var tries: nat
    /** How things stand; it changes only with an entry in the history. */
    var now: Scene
    ghost var history: seq<Entry>

    /** The history is a possible one, and how things stand follows from it. */
    ghost predicate Possible()
      reads `now, `history
    {
      LawfulRun(origin, history) && now == Play(origin, history)
    }

    /** The transport was given what the acts and what was seen since account for, and then `more`. */
    ghost predicate Accounts(more: seq<seq<byte>>)
      reads `now, `history, printer.transport
    {
      printer.transport.written == base + Written(now.acts) + Writes(SentBy(now.seen)) + more
    }

    /** The transport and the history tell of one link and of the same writes. */
    ghost predicate Valid()
      reads `now, `history, printer.transport
    {
      && Possible() && Accounts([]) && (printer.transport.connected <==> now.link == Up)
      && printer.transport.chunkBytes >= 4
    }

    constructor (budget: nat, start: Scene, settles: bool, printer: PrinterClient.Printer,
                 flags: nat -> nat -> Transfer.Tick)
      requires start.acts == [] && start.seen == []
      requires (printer.transport.connected <==> start.link == Up) && printer.transport.chunkBytes >= 4
      ensures Valid() && now == start && origin == start && history == [] && this.budget == budget
      ensures this.settles == settles && this.printer == printer && this.flags == flags
      ensures base == printer.transport.written
    {
      origin, this.settles, this.printer, this.flags := start, settles, printer, flags;
      this.budget, tries, now, history := budget, 0, start, [];
      base := printer.transport.written;
      NothingWritten();
      assert printer.transport.written + [] + [] + [] == printer.transport.written;
    }

    /** The one way anything happens. */
    method Happen(e: Entry)
      requires Possible() && Lawful(now, e)
      modifies `now, `history
      ensures Possible() && now == After(old(now), e) && history == old(history) + [e]
    {
      Snoc(origin, history, e);
      now := After(now, e);
      history := history + [e];
    }

    /** Something happens that writes nothing and keeps the link, or drops it. */
    method HappenAround(e: Entry)
      requires Valid() && OfTheWorld(e) && Lawful(now, e)
      modifies `now, `history, printer.transport
      ensures Valid() && now == After(old(now), e) && history == old(history) + [e]
    {
      hide LawfulRun, Play, Written, Writes, SentBy;
      if e.DropLink? {
        printer.transport.connected := false;
      }
      Happen(e);
    }

    /** Something is noted; what it says was sent has been sent. */
    method Note(e: Entry)
      requires Possible() && Accounts(Writes(Sent(e))) && printer.transport.chunkBytes >= 4
      requires InAWait(e) && !OfTheWorld(e) && Lawful(now, e)
      requires printer.transport.connected <==> After(now, e).link == Up
      modifies `now, `history
      ensures Valid() && now == After(old(now), e) && history == old(history) + [e]
    {
      ghost var seen := now.seen;
      Happen(e);
      hide LawfulRun, Play, Written, Writes, Sent, Lawful;
      assert (seen + [e])[..|seen|] == seen;
      Distribute(SentBy(seen), Sent(e));
      hide SentBy;
      AddUp(base + Written(now.acts), Writes(SentBy(seen)), Writes(Sent(e)));
    }

    static lemma AddUp(a: seq<seq<byte>>, b: seq<seq<byte>>, c: seq<seq<byte>>)
      ensures a + b + c == a + (b + c) + [] && a + (b + c) == a + b + c
    {
    }

    /** Something that sends nothing is noted. */
    method NoteSilent(e: Entry)
      requires Valid() && InAWait(e) && !OfTheWorld(e) && Sent(e) == [] && Lawful(now, e)
      modifies `now, `history, printer.transport
      ensures Valid() && now == After(old(now), e) && history == old(history) + [e]
    {
      hide LawfulRun, Play, Written, SentBy, PrintHead.Run;
      if e.Reconnect? {
        printer.transport.connected := e.up;
      } else if e.Connect? {
        printer.transport.connected := e.link == Up;
      }
      NothingWritten();
      Note(e);
    }

    /** What was noted becomes part of an act. */
    method Finish(e: Entry, ghost act: Act)
      requires Valid() && now.printing.None? && Lawful(now, e) && !act.Attempt? && act.seen == now.seen
      requires !InAWait(e) && !e.Begin? && After(now, e) == Did(now, act)
      modifies `now, `history
      ensures Valid() && now == Did(old(now), act) && history == old(history) + [e]
    {
      hide LawfulRun, Play, SentBy, Writes, Lawful, After, InAWait, Written;
      ghost var acts, seen := now.acts, now.seen;
      Happen(e);
      WrittenSnoc(acts, act);
      NothingWritten();
      Collect(base, Written(acts), Writes(SentBy(seen)));
    }

    static lemma Collect(a: seq<seq<byte>>, b: seq<seq<byte>>, c: seq<seq<byte>>)
      ensures a + b + c + [] == a + (b + c) + [] + []
    {
    }

    /** A write between attempts; one that fails has lost the link. */
    method WriteAside(a: Aside) returns (ok: bool)
      requires Valid() && now.printing.None?
      modifies `now, `history, printer.transport
      ensures ok ==> now == old(now) && history == old(history) && now.link == Up && printer.transport.connected
      ensures ok ==> Possible() && Accounts(Writes([a]))
      ensures !ok ==> Valid() && Drifted() && now.link != Up && (now.link == Closed <==> old(now.link) == Closed)
      ensures !ok ==> now == old(now) || now == old(now).(link := Dropped)
    {
      hide LawfulRun, Play, Written, SentBy, Aside.Encoded;
      OneAside(a);
      hide Writes;
      ghost var sum := base + Written(now.acts) + Writes(SentBy(now.seen));
      assert sum + [] == sum;
      ok := printer.transport.Write(a.Encoded());
      if !ok && now.link == Up {
        Happen(DropLink);
      }
    }

    /** What holds of any stretch in which the program asks and does nothing. */
    twostate predicate Drifted()
      reads this
    {
      && old(history) <= history && now.acts == old(now.acts) && now.seen == old(now.seen) && now.head == old(now.head)
      && (old(now.cancelled) ==> now.cancelled)
      && (now.link == old(now.link) || (old(now.link) == Up && now.link == Dropped))
      && (now.printing.None? <==> old(now.printing).None?)
      && (now.printing.Some? ==>
            now.printing.value.bitmap == old(now.printing).value.bitmap
            && now.printing.value.live == old(now.printing).value.live
            && now.printing.value.start == old(now.printing).value.start)
    }

    /** Something happens of itself; the link may be lost if it is in use by nobody. */
    method WorldMoves(loses: bool)
      requires Valid()
      modifies `now, `history, printer.transport
      ensures Valid() && Drifted() && (!loses ==> now.link == old(now.link))
    {
      hide Valid, PrintHead.Run;
      if * {
        HappenAround(SetAbort);
      } else if * {
        HappenAround(MoveLid);
      } else if * {
        HappenAround(Remove);
      } else if loses && now.link == Up {
        HappenAround(DropLink);
      } else if now.sheet.None? {
        HappenAround(Insert(now.next));
      }
    }

    /** Time passes. */
    method Drift()
      requires Valid()
      modifies `now, `history, `budget, printer.transport
      ensures Valid() && Drifted()
      ensures budget <= old(budget) && (old(budget) > 0 ==> budget < old(budget))
    {
      hide Valid, PrintHead.Run;
      budget := if budget > 0 then budget - 1 else 0;
      var moves: nat := *;
      while moves > 0
        invariant Valid() && Drifted()
        invariant budget <= old(budget) && (old(budget) > 0 ==> budget < old(budget))
      {
        WorldMoves(true);
        moves := moves - 1;
      }
    }

    /** Time passes while a page is sent; a link lost then is lost to a write. */
    method Meanwhile()
      requires Valid()
      modifies `now, `history, `budget, printer.transport
      ensures Valid() && Drifted() && now.link == old(now.link)
      ensures budget <= old(budget) && (old(budget) > 0 ==> budget < old(budget))
    {
      hide Valid, PrintHead.Run;
      budget := if budget > 0 then budget - 1 else 0;
      var moves: nat := *;
      while moves > 0
        invariant Valid() && Drifted() && now.link == old(now.link)
        invariant budget <= old(budget) && (old(budget) > 0 ==> budget < old(budget))
      {
        WorldMoves(false);
        moves := moves - 1;
      }
    }

    /** What holds of any stretch of a wait. */
    twostate predicate Waited()
      reads this
    {
      && old(history) <= history && now.acts == old(now.acts) && old(now.seen) <= now.seen
      && (old(now.cancelled) ==> now.cancelled) && now.printing.None? && budget <= old(budget)
    }

    /** The last thing seen was a check that found the printer ready. */
    predicate FoundReady()
      reads this
    {
      EndsReady(now.seen)
    }

    /** What a question that went out, or could not, is answered. */
    method Answered(asked: bool, value: bool) returns (a: Answer)
      requires asked <==> now.link == Up
      ensures Truthful(now, a, value) && (Reached(a) <==> asked)
    {
      var silent: bool := *;
      a := match now.link
           case Up => if silent then Unanswered else if value then Yes else No
           case Dropped => LinkError
           case Closed => ClientError;
    }

    method QueryLid() returns (a: Answer)
      requires Valid() && now.printing.None?
      modifies `now, `history, `budget, printer.transport
      ensures Valid() && Waited() && now.seen == old(now.seen) + [Lid(a)]
      ensures (a == Yes ==> now.lidOpen) && (a == No ==> !now.lidOpen)
      ensures old(budget) > 0 ==> budget < old(budget)
      ensures a == ClientError <==> now.link == Closed
      ensures now.link == Closed <==> old(now.link) == Closed
    {
      hide LawfulRun, Play, Accounts, PrintHead.Run;
      Drift();
      var asked := WriteAside(Ask(LID_STATE));
      a := Answered(asked, now.lidOpen);
      NothingWritten();
      Note(Lid(a));
    }

    method QueryPaper() returns (a: Answer)
      requires Valid() && now.printing.None?
      modifies `now, `history, `budget, printer.transport
      ensures Valid() && Waited() && now.seen == old(now.seen) + [Paper(a)]
      ensures (a == Yes ==> now.sheet.Some?) && (a == No ==> now.sheet.None?)
      ensures old(budget) > 0 ==> budget < old(budget)
      ensures a == ClientError <==> now.link == Closed
      ensures a == LinkError <==> now.link == Dropped
      ensures now.link == Closed <==> old(now.link) == Closed
    {
      hide LawfulRun, Play, Accounts, PrintHead.Run;
      Drift();
      var asked := WriteAside(Ask(PAPER_STATE));
      a := Answered(asked, now.sheet.Some?);
      NothingWritten();
      Note(Paper(a));
    }

    /** Time passes, and a paper-absent event may come. */
    method Watch() returns (gone: bool)
      requires Valid() && now.printing.None?
      modifies `now, `history, `budget, printer.transport
      ensures Valid() && Waited() && now.seen == old(now.seen) + if gone then [Gone] else []
      ensures now.link == Closed <==> old(now.link) == Closed
      ensures gone ==> now.link != Closed
    {
      hide Valid, PrintHead.Run;
      Drift();
      gone := *;
      gone := gone && now.link == Up;
      if gone {
        NoteSilent(Gone);
        Drift();
      }
    }

    /** `feed`. */
    method FeedPaper(lines: byte) returns (ok: bool)
      requires Valid() && now.printing.None? && now.link != Closed
      modifies `now, `history, printer.transport
      ensures Valid() && Waited() && now.seen == old(now.seen) + if ok then [FeedLines(lines)] else []
      ensures if ok then now.link == Up else now.link == Dropped
    {
      hide LawfulRun, Play, Accounts, PrintHead.Run;
      ok := WriteAside(FeedOut(lines));
      if ok {
        Note(FeedLines(lines));
      }
    }

    /** Three feeds with no sheet known to be there. */
    method FeedBlind() returns (ok: bool)
      requires Valid() && now.printing.None? && now.link != Closed
      modifies `now, `history, `budget, printer.transport
      ensures Valid() && Waited() && OnlyFeeds(now.seen[|old(now.seen)|..])
      ensures var feeds := Feeds(now.seen[|old(now.seen)|..]);
              if ok then feeds == BLIND_FEEDS == [160, 160, 160] && now.link == Up
              else feeds < BLIND_FEEDS && now.link == Dropped
    {
      hide Valid, PrintHead.Run, Feeds;
      ghost var start := now.seen;
      var sent := 0;
      NoFeeds(start);
      while sent < 3
        invariant Valid() && Waited() && now.link != Closed && 0 <= sent <= 3
        invariant OnlyFeeds(now.seen[|start|..]) && Feeds(now.seen[|start|..]) == BLIND_FEEDS[..sent]
        invariant sent > 0 ==> now.link == Up
      {
        ghost var before := now.seen;
        var gone := Watch();
        ok := FeedPaper(CLEAR_ROWS);
        FeedOne(start, before, gone, ok, CLEAR_ROWS);
        assert Feeds(now.seen[|start|..]) == BLIND_FEEDS[..sent] + if ok then [CLEAR_ROWS] else [];
        if !ok {
          return;
        }
        assert BLIND_FEEDS[..sent] + [CLEAR_ROWS] == BLIND_FEEDS[..sent + 1];
        sent := sent + 1;
      }
      ok := true;
    }

    static lemma NoFeeds(seen: seq<Entry>)
      ensures seen[|seen|..] == [] && Feeds([]) == []
    {
    }

    static lemma NothingFed()
      ensures OnlyFeeds([])
    {
    }

    /** A paper-absent event, perhaps, and a feed, perhaps. */
    static lemma FeedOne(start: seq<Entry>, before: seq<Entry>, gone: bool, fed: bool, lines: byte)
      requires start <= before && OnlyFeeds(before[|start|..])
      ensures var seen := before + (if gone then [Gone] else []) + if fed then [FeedLines(lines)] else [];
              && OnlyFeeds(seen[|start|..])
              && Feeds(seen[|start|..]) == Feeds(before[|start|..]) + (if fed then [lines] else [])
              && (Gone in seen[|start|..] <==> Gone in before[|start|..] || gone)
    {
      hide OnlyFeeds, Feeds;
      var watched := before + if gone then [Gone] else [];
      if gone {
        FeedAdds(start, before, Gone);
      } else {
        assert watched == before;
      }
      if fed {
        FeedAdds(start, watched, FeedLines(lines));
      } else {
        assert watched + [] == watched;
      }
      assert Feeds(before[|start|..]) + [] == Feeds(before[|start|..]);
    }

    static lemma FeedAdds(start: seq<Entry>, before: seq<Entry>, e: Entry)
      requires start <= before && OnlyFeeds(before[|start|..]) && (e == Gone || e.FeedLines?)
      ensures OnlyFeeds((before + [e])[|start|..])
      ensures Feeds((before + [e])[|start|..])
           == Feeds(before[|start|..]) + if e.FeedLines? then [e.lines] else []
      ensures Gone in (before + [e])[|start|..] <==> Gone in before[|start|..] || e == Gone
    {
      assert (before + [e])[|start|..] == before[|start|..] + [e];
      FeedsSnoc(before[|start|..], e);
      hide Feeds;
    }

    /**
     * The feeds with a sheet at the sensor, two kept ahead of it: one more each time the paper-absent
     * event does not come, and one to clear the rollers once it has. `gone` is whether it came already.
     */
    method FeedUntilGone(gone: bool) returns (e: EjectResult)
      requires Valid() && now.printing.None? && now.link != Closed
      modifies `now, `history, `budget, printer.transport
      ensures Valid() && Waited() && now.link != Closed && OnlyFeeds(now.seen[|old(now.seen)|..])
      ensures var t := now.seen[|old(now.seen)|..];
              FeedsFit(Yes, gone || Gone in t, Feeds(t), e)
      ensures e == LinkDown ==> now.link == Dropped
    {
      hide Valid, PrintHead.Run, Feeds, OnlyFeeds, Steps, FeedsFit;
      ghost var start := now.seen;
      var absent, sent := gone, 0;
      NoFeeds(start);
      NothingFed();
      StepsFit(0);
      while true
        invariant Valid() && Waited() && now.link != Closed && 0 <= sent <= MAX_FEEDS
        invariant OnlyFeeds(now.seen[|start|..]) && Feeds(now.seen[|start|..]) == Steps(sent)
        invariant absent <==> gone || Gone in now.seen[|start|..]
        decreases MAX_FEEDS - sent
      {
        ghost var before := now.seen;
        var came := Watch();
        absent := absent || came;
        if absent && sent >= AHEAD {
          var cleared := FeedPaper(CLEAR_ROWS);
          FeedOne(start, before, came, cleared, CLEAR_ROWS);
          StepsFit(sent);
          return if cleared then Ejected else LinkDown;
        }
        if sent >= MAX_FEEDS {
          FeedOne(start, before, came, false, STEP_ROWS);
          StepsFit(sent);
          assert now.seen == before + [] + [];
          return StillInside;
        }
        var ok := FeedPaper(STEP_ROWS);
        FeedOne(start, before, came, ok, STEP_ROWS);
        StepsFit(sent);
        if !ok {
          return LinkDown;
        }
        sent := sent + 1;
      }
    }

    /** The feeds after `n` steps, and how an eject may end then. */
    static lemma StepsFit(n: nat)
      ensures |Steps(n)| == n && Steps(0) == [] && Steps(n) + [] == Steps(n) && Steps(n) + [STEP_ROWS] == Steps(n + 1)
      ensures AHEAD <= n <= MAX_FEEDS ==> FeedsFit(Yes, true, Steps(n) + [CLEAR_ROWS], Ejected)
      ensures n <= MAX_FEEDS ==> forall gone :: FeedsFit(Yes, gone, Steps(n), LinkDown)
      ensures FeedsFit(Yes, false, Steps(MAX_FEEDS), StillInside)
    {
    }

    /** The feeds that follow the answer to the eject's own question. */
    method FeedFor(a: Answer, gone: bool) returns (e: EjectResult)
      requires Valid() && now.printing.None? && (gone ==> now.link != Closed)
      requires (a == ClientError <==> now.link == Closed) && (a == LinkError <==> now.link == Dropped)
      modifies `now, `history, `budget, printer.transport
      ensures Valid() && Waited() && (!Reached(a) ==> now.seen == old(now.seen))
      ensures var t := now.seen[|old(now.seen)|..];
              OnlyFeeds(t) && FeedsFit(a, gone || Gone in t, Feeds(t), e)
      ensures (e == NoClient <==> now.link == Closed) && (e == LinkDown ==> now.link == Dropped)
      ensures now.link == Closed <==> old(now.link) == Closed
    {
      hide Valid, PrintHead.Run, Feeds, OnlyFeeds;
      NoFeeds(now.seen);
      NothingFed();
      if a == ClientError {
        e := NoClient;
      } else if a == LinkError {
        e := LinkDown;
      } else if a == Yes {
        e := FeedUntilGone(gone);
      } else {
        var ok := FeedBlind();
        e := if ok then Ejected else LinkDown;
      }
    }

    /** `eject_paper`: it watches for the paper-absent event, asks, and then feeds. */
    method EjectPaper() returns (e: EjectResult)
      requires Valid() && now.printing.None?
      modifies `now, `history, `budget, printer.transport
      ensures Valid() && Waited() && old(now.seen) <= now.seen && EjectSeen(now.seen[|old(now.seen)|..], e)
      ensures e == NoClient <==> now.link == Closed
      ensures now.link == Closed <==> old(now.link) == Closed
    {
      hide Valid, PrintHead.Run, EjectSeen, Feeds, OnlyFeeds, FeedsFit;
      ghost var start := now.seen;
      var gone := Watch();
      var a := QueryPaper();
      ghost var asked := now.seen;
      e := FeedFor(a, gone);
      ghost var feeds := now.seen[|asked|..];
      NoteSilent(Ejecting(e));
      EjectSeenOf(gone, a, feeds, e);
      assert now.seen[|start|..] == (if gone then [Gone] else []) + [Paper(a)] + feeds + [Ejecting(e)];
    }

    static lemma EjectSeenOf(gone: bool, a: Answer, feeds: seq<Entry>, e: EjectResult)
      requires OnlyFeeds(feeds) && FeedsFit(a, gone || Gone in feeds, Feeds(feeds), e)
      requires !Reached(a) ==> feeds == []
      ensures EjectSeen((if gone then [Gone] else []) + [Paper(a)] + feeds + [Ejecting(e)], e)
    {
      var front := if gone then [Gone] else [];
      FeedsAround(front, a, feeds, e);
      hide Feeds, FeedsFit, OnlyFeeds;
      var t := front + [Paper(a)] + feeds + [Ejecting(e)];
      var q := |front|;
      assert t[..q] == front && t[q + 1..|t| - 1] == feeds && t[q] == Paper(a);
      assert EjectAsks(t, q, e);
    }

    static lemma FeedsAround(front: seq<Entry>, a: Answer, feeds: seq<Entry>, e: EjectResult)
      requires front == [] || front == [Gone]
      ensures var t := front + [Paper(a)] + feeds + [Ejecting(e)];
              Feeds(t) == Feeds(feeds) && (Gone in t <==> Gone in front || Gone in feeds)
    {
      NoFeeds([]);
      FeedsSnoc([], Gone);
      assert [] + [Gone] == [Gone];
      hide Feeds;
      FeedsSnoc(front, Paper(a));
      FeedsAppend(front + [Paper(a)], feeds);
      FeedsSnoc(front + [Paper(a)] + feeds, Ejecting(e));
      assert [] + Feeds(feeds) + [] == Feeds(feeds);
    }

    /** `Printer.reconnect`: the disconnect always comes about, the connect may not. */
    method Reopen() returns (up: bool)
      requires Valid() && now.printing.None?
      modifies `now, `history, `budget, printer.transport
      ensures Valid() && Waited() && now.seen == old(now.seen) + [Reconnect(up)]
      ensures old(budget) > 0 ==> budget < old(budget)
      ensures if up then now.link == Up else now.link == Closed
    {
      hide Valid, PrintHead.Run;
      Drift();
      up := *;
      NoteSilent(Reconnect(up));
    }

    /** `_connect_once`, on a bridge that is not connected. */
    method ConnectOnce()
      requires Valid() && now.printing.None? && now.link != Up
      modifies `now, `history, `budget, printer.transport
      ensures Valid() && Waited() && OnlyReaching(now.seen[|old(now.seen)|..])
      ensures var t := now.seen[|old(now.seen)|..];
              t != [] && t[0].Connect? && (if t[0].link == Up then Greets(t[1..]) else t == [t[0]])
      ensures old(budget) > 0 ==> budget < old(budget)
    {
      hide Valid, PrintHead.Run, Greets;
      ghost var start := now.seen;
      Drift();
      var done: bool, closes: bool := *, *;
      var link := if done then Up else if closes then Closed else now.link;
      NoteSilent(Connect(link));
      assert now.seen[|start|..] == [Connect(link)];
      if done {
        ghost var greeted := GreetPrinter(start);
        assert now.seen == start + [Connect(link)] + greeted;
        assert now.seen[|start|..][1..] == greeted;
      }
    }

    static predicate OnlyReaching(t: seq<Entry>) { forall e <- t :: Reaching(e) }

    /** The auto-off timer's query, and behind that a reset and the timer; what follows a lost link is left out. */
    static predicate SetsTimer(t: seq<Entry>) {
      t == [] ||
      (t[0] == Greet(Ask(DEVICE_TIMER)) &&
       (|t| == 1 || (t[1] == Greet(Restart) && (|t| == 2 || exists value :: t[2..] == [Greet(Timer(value))]))))
    }

    /** What is written over a new connection: the serial's query, if anything, and what the timer takes. */
    static predicate Greets(t: seq<Entry>) {
      SetsTimer(t) || (t[0] == Greet(Ask(SERIAL_ASCII)) && SetsTimer(t[1..]))
    }

    /** What `Bridge.connect` asks over a new connection, and the timer it sets. It goes on if the link is lost. */
    method GreetPrinter(ghost start: seq<Entry>) returns (ghost greeted: seq<Entry>)
      requires Valid() && now.printing.None? && start <= now.seen && OnlyReaching(now.seen[|start|..])
      modifies `now, `history, `budget, printer.transport
      ensures Valid() && Waited() && start <= now.seen && OnlyReaching(now.seen[|start|..])
      ensures now.seen == old(now.seen) + greeted && Greets(greeted)
    {
      hide Valid, PrintHead.Run, SetsTimer;
      var settles, sets: bool := *, *;
      ghost var serial := [];
      if settles {
        var asked := GreetWith(Ask(SERIAL_ASCII), start);
        serial := if asked then [Greet(Ask(SERIAL_ASCII))] else [];
      }
      greeted := [];
      NothingSet();
      if sets {
        greeted := ApplyAutoOff(start);
      }
      SerialFirst(serial, greeted);
      greeted := serial + greeted;
    }

    static lemma NothingSet()
      ensures SetsTimer([])
    {
    }

    static lemma SerialFirst(serial: seq<Entry>, timer: seq<Entry>)
      requires (serial == [] || serial == [Greet(Ask(SERIAL_ASCII))]) && SetsTimer(timer)
      ensures Greets(serial + timer)
    {
      hide SetsTimer;
      assert (serial + timer)[|serial|..] == timer;
    }

    /** `_apply_auto_off`, where a timer is configured. */
    method ApplyAutoOff(ghost start: seq<Entry>) returns (ghost greeted: seq<Entry>)
      requires Valid() && now.printing.None? && start <= now.seen && OnlyReaching(now.seen[|start|..])
      modifies `now, `history, `budget, printer.transport
      ensures Valid() && Waited() && start <= now.seen && OnlyReaching(now.seen[|start|..])
      ensures now.seen == old(now.seen) + greeted && SetsTimer(greeted)
    {
      hide Valid, PrintHead.Run;
      var differs: bool, value: byte := *, *;
      greeted := [];
      var ok := GreetWith(Ask(DEVICE_TIMER), start);
      if ok {
        greeted := [Greet(Ask(DEVICE_TIMER))];
        if differs {
          ok := GreetWith(Restart, start);
          if ok {
            greeted := greeted + [Greet(Restart)];
            ok := GreetWith(Timer(value), start);
            if ok {
              greeted := greeted + [Greet(Timer(value))];
            }
          }
        }
      }
    }

    method GreetWith(a: Aside, ghost start: seq<Entry>) returns (ok: bool)
      requires Valid() && now.printing.None? && Greeting(a)
      requires start <= now.seen && OnlyReaching(now.seen[|start|..])
      modifies `now, `history, `budget, printer.transport
      ensures Valid() && Waited() && start <= now.seen && OnlyReaching(now.seen[|start|..])
      ensures now.seen == old(now.seen) + if ok then [Greet(a)] else []
    {
      hide LawfulRun, Play, PrintHead.Run, Accounts;
      Drift();
      ok := WriteAside(a);
      if ok {
        Note(Greet(a));
      }
    }

    /** `check_ready`: the lid first, then the paper. */
    method CheckReady() returns (r: Ready)
      requires Valid() && now.printing.None? && now.link != Closed
      modifies `now, `history, `budget, printer.transport
      ensures Valid() && Waited() && CheckTrace(now.seen[|old(now.seen)|..], r) && now.link != Closed
      ensures (r == IsReady ==> now.sheet.Some?) && (r == NoPaper ==> now.sheet.None?)
      ensures r == LidIsOpen ==> now.lidOpen
      ensures old(budget) > 0 ==> budget < old(budget)
    {
      hide Valid, PrintHead.Run, CheckTrace;
      ghost var before := now.seen;
      ghost var answers;
      r, answers := AskWhetherReady();
      NoteSilent(Checked(r));
      assert now.seen[|before|..] == answers + [Checked(r)];
    }

    /** Its questions, and what their answers amount to. */
    method AskWhetherReady() returns (r: Ready, ghost answers: seq<Entry>)
      requires Valid() && now.printing.None? && now.link != Closed
      modifies `now, `history, `budget, printer.transport
      ensures Valid() && Waited() && now.link != Closed && now.seen == old(now.seen) + answers
      ensures CheckTrace(answers + [Checked(r)], r)
      ensures (r == IsReady ==> now.sheet.Some?) && (r == NoPaper ==> now.sheet.None?)
      ensures r == LidIsOpen ==> now.lidOpen
      ensures old(budget) > 0 ==> budget < old(budget)
    {
      hide Valid, PrintHead.Run;
      var lid := QueryLid();
      answers := [Lid(lid)];
      if lid == LinkError {
        r := Broken;
      } else if lid == Unanswered {
        r := Mute;
      } else if lid == Yes {
        r := LidIsOpen;
      } else {
        var paper := QueryPaper();
        answers := answers + [Paper(paper)];
        r := match paper
             case LinkError => Broken
             case Unanswered => Mute
             case No => NoPaper
             case _ => IsReady;
      }
    }

    /** `Printer.wait_for_ready`; its deadline is a choice, and the end of the run is one too. */
    method WaitForReady() returns (s: Settled)
      requires Valid() && now.printing.None? && now.link != Closed
      modifies `now, `history, `budget, printer.transport
      ensures Valid() && Waited()
      ensures old(budget) > 0 ==> budget < old(budget)
      ensures s == Seated ==> FoundReady()
      ensures Reconnects(now.seen[|old(now.seen)|..]) <= 1
      ensures var t := now.seen[|old(now.seen)|..];
              OnThirdMute(t) && (Reconnects(t) == 0 ==> MuteChecks(t) < 3)
    {
      hide Valid, PrintHead.Run, Reconnects, CheckTrace, MuteChecks, OnThirdMute;
      var timeouts, reconnected := 0, false;
      ghost var start := now.seen;
      NoReconnect(start[|start|..]);
      NothingSilent(start);
      var ready := CheckOnce(start, 0);
      CheckCounted(start, start, now.seen, ready);
      while ready != IsReady
        invariant Valid() && Waited() && now.link != Closed
        invariant old(budget) > 0 ==> budget < old(budget)
        invariant ready == IsReady ==> FoundReady()
        invariant Reconnects(now.seen[|start|..]) == if reconnected then 1 else 0
        invariant OnThirdMute(now.seen[|start|..])
        invariant !reconnected ==>
                    MuteChecks(now.seen[|start|..]) == if ready == LidIsOpen || ready == NoPaper then 0
                      else timeouts + if ready == Mute then 1 else 0
        invariant !reconnected ==> timeouts < MUTE_THRESHOLD
        decreases budget
      {
        if ready == Broken {
          return Unsettled;
        }
        timeouts := if ready == Mute then timeouts + 1 else 0;
        if timeouts >= MUTE_THRESHOLD && !reconnected {
          reconnected, timeouts := true, 0;
          ghost var before := now.seen;
          var up := Reopen();
          OneMoreReconnect(start, before, up);
          ReconnectCounted(start, before, up);
          if !up {
            return Unsettled;
          }
        } else {
          var late: bool := *;
          if late {
            return NotSeated;
          }
          Drift();
        }
        if budget == 0 {
          return NotSeated;
        }
        ghost var asked := now.seen;
        ready := CheckOnce(start, if reconnected then 1 else 0);
        CheckCounted(start, asked, now.seen, ready);
      }
      Drift();
      s := Seated;
    }

    /** A check, which reconnects nothing. */
    method CheckOnce(ghost start: seq<Entry>, ghost count: nat) returns (r: Ready)
      requires Valid() && now.printing.None? && now.link != Closed
      requires start <= now.seen && Reconnects(now.seen[|start|..]) == count
      modifies `now, `history, `budget, printer.transport
      ensures Valid() && Waited() && now.link != Closed
      ensures old(budget) > 0 ==> budget < old(budget)
      ensures r == IsReady ==> FoundReady()
      ensures old(now.seen) <= now.seen && CheckTrace(now.seen[|old(now.seen)|..], r)
      ensures start <= now.seen && Reconnects(now.seen[|start|..]) == count
    {
      hide Valid, PrintHead.Run, Reconnects, CheckTrace;
      ghost var before := now.seen;
      r := CheckReady();
      CheckAdds(start, before, now.seen, r);
    }

    static lemma CheckAdds(start: seq<Entry>, before: seq<Entry>, seen: seq<Entry>, r: Ready)
      requires start <= before <= seen && CheckTrace(seen[|before|..], r)
      ensures Reconnects(seen[|start|..]) == Reconnects(before[|start|..])
      ensures r == IsReady ==> EndsReady(seen)
    {
      CheckReconnectsNothing(seen[|before|..], r);
      hide Reconnects;
      assert r == IsReady ==> seen[|seen| - 3..] == seen[|before|..];
      hide CheckTrace;
      assert seen[|start|..] == before[|start|..] + seen[|before|..];
      ReconnectsAppend(before[|start|..], seen[|before|..]);
    }

    static lemma CheckReconnectsNothing(t: seq<Entry>, r: Ready)
      requires CheckTrace(t, r)
      ensures Reconnects(t) == 0
    {
      NoReconnect(t);
    }

    /** What a check adds to the count of mute ones; it reconnects nothing. */
    static lemma CheckCounted(start: seq<Entry>, before: seq<Entry>, seen: seq<Entry>, r: Ready)
      requires start <= before <= seen && CheckTrace(seen[|before|..], r)
      ensures MuteChecks(seen[|start|..]) == if r == LidIsOpen || r == NoPaper then 0
              else MuteChecks(before[|start|..]) + if r == Mute then 1 else 0
      ensures OnThirdMute(seen[|start|..]) <==> OnThirdMute(before[|start|..])
    {
      var t, check := before[|start|..], seen[|before|..];
      assert seen[|start|..] == t + check;
      CheckShape(check, r);
      hide MuteChecks, OnThirdMute, CheckTrace;
      OneCounted(t, check[0]);
      OneCounted(t + [check[0]], check[1]);
      if |check| == 2 {
        assert t + check == t + [check[0]] + [check[1]];
      } else {
        OneCounted(t + [check[0]] + [check[1]], check[2]);
        assert t + check == t + [check[0]] + [check[1]] + [check[2]];
      }
    }

    static lemma CheckShape(t: seq<Entry>, r: Ready)
      requires CheckTrace(t, r)
      ensures 2 <= |t| <= 3 && t[0].Lid? && t[|t| - 1] == Checked(r) && (|t| == 3 ==> t[1].Paper?)
    {
    }

    static lemma OneCounted(t: seq<Entry>, e: Entry)
      requires e.Lid? || e.Paper? || e.Checked?
      ensures MuteChecks(t + [e]) == if e == Checked(LidIsOpen) || e == Checked(NoPaper) then 0
              else MuteChecks(t) + if e == Checked(Mute) then 1 else 0
      ensures OnThirdMute(t + [e]) <==> OnThirdMute(t)
    {
      hide MuteChecks, OnThirdMute;
      MuteSnoc(t, e);
      ThirdSnoc(t, e);
    }

    /** Connecting adds nothing to it. */
    static lemma {:induction false} ReachingCounted(start: seq<Entry>, before: seq<Entry>, seen: seq<Entry>)
      requires start <= before <= seen && OnlyReaching(seen[|before|..])
      ensures MuteChecks(seen[|start|..]) == MuteChecks(before[|start|..])
      ensures OnThirdMute(seen[|start|..]) <==> OnThirdMute(before[|start|..])
      decreases |seen|
    {
      if |seen| == |before| {
        assert seen == before;
      } else {
        var front, last := seen[..|seen| - 1], seen[|seen| - 1];
        assert seen[|before|..] == front[|before|..] + [last];
        assert last in seen[|before|..] && forall e <- front[|before|..] :: e in seen[|before|..];
        ReachingCounted(start, before, front);
        assert seen[|start|..] == front[|start|..] + [last];
        MuteSnoc(front[|start|..], last);
        ThirdSnoc(front[|start|..], last);
      }
    }

    static lemma ReconnectCounted(start: seq<Entry>, before: seq<Entry>, up: bool)
      requires start <= before
      ensures MuteChecks((before + [Reconnect(up)])[|start|..]) == 0
      ensures OnThirdMute((before + [Reconnect(up)])[|start|..])
         <==> OnThirdMute(before[|start|..]) && MuteChecks(before[|start|..]) == 3
    {
      assert (before + [Reconnect(up)])[|start|..] == before[|start|..] + [Reconnect(up)];
      MuteSnoc(before[|start|..], Reconnect(up));
      ThirdSnoc(before[|start|..], Reconnect(up));
    }

    static lemma {:induction false} NoReconnect(t: seq<Entry>)
      requires forall k :: 0 <= k < |t| ==> !t[k].Reconnect?
      ensures Reconnects(t) == 0
    {
      if t != [] {
        NoReconnect(t[..|t| - 1]);
      }
    }

    static lemma OneMoreReconnect(start: seq<Entry>, before: seq<Entry>, up: bool)
      requires start <= before
      ensures Reconnects((before + [Reconnect(up)])[|start|..]) == Reconnects(before[|start|..]) + 1
    {
      assert (before + [Reconnect(up)])[|start|..] == before[|start|..] + [Reconnect(up)];
      ReconnectsAppend(before[|start|..], [Reconnect(up)]);
      assert [Reconnect(up)][..0] == [];
    }

    /** `_wait_ready`. Nothing but a cancel ends it without a ready printer. */
    method WaitReady(settle: bool) returns (r: WaitResult)
      requires Valid() && now.printing.None?
      modifies `now, `history, `budget, printer.transport
      ensures Valid() && Waited()
      ensures r == Fresh || r == WaitCancelled || r == WaitCut
      ensures r == Fresh ==> FoundReady()
      ensures (r == WaitCancelled ==> now.cancelled) && (r == WaitCut ==> budget == 0)
      ensures old(now.cancelled) && old(budget) > 0 ==> r == WaitCancelled && now == old(now)
      ensures !settle ==>
                OnThirdMute(now.seen[|old(now.seen)|..]) && MuteChecks(now.seen[|old(now.seen)|..]) < 3
    {
      hide Valid, PrintHead.Run, CheckTrace, MuteChecks, OnThirdMute;
      var timeouts := 0;
      ghost var start := now.seen;
      NothingSilent(start);
      while true
        invariant Valid() && Waited()
        invariant !settle ==> OnThirdMute(now.seen[|start|..]) && timeouts == MuteChecks(now.seen[|start|..]) < 3
        invariant old(now.cancelled) && old(budget) > 0 ==> budget > 0 && now == old(now)
        decreases budget
      {
        if budget == 0 {
          return WaitCut;
        }
        if now.cancelled {
          return WaitCancelled;
        }
        ghost var before := now.seen;
        if now.link != Up {
          ConnectOnce();
          ReachingCounted(start, before, now.seen);
        } else {
          NoReconnect(now.seen[|now.seen|..]);
          var ready := CheckOnce(now.seen, 0);
          CheckCounted(start, before, now.seen, ready);
          if ready == IsReady {
            if !settle {
              return Fresh;
            }
            var settled := WaitForReady();
            if settled == Seated {
              return Fresh;
            }
          } else if ready == Mute {
            timeouts := timeouts + 1;
            if timeouts >= MUTE_THRESHOLD {
              timeouts := 0;
              ghost var asked := now.seen;
              var up := Reopen();
              ReconnectCounted(start, asked, up);
            } else {
              Drift();
            }
          } else if ready != Broken {
            timeouts := 0;
            Drift();
          }
        }
      }
    }

    /** A reconnect has failed. */
    static predicate FailedReopening(t: seq<Entry>) { Reconnect(false) in t }

    /**
     * The wait for the lid in `_wait_for_fresh_sheet`. A reconnect that fails here leaves no client;
     * the next query raises an error that is not a ConnectionError, and the page ends.
     */
    method WaitForLid() returns (r: WaitResult)
      requires Valid() && now.printing.None? && now.link == Up
      modifies `now, `history, `budget, printer.transport
      ensures Valid() && Waited()
      ensures forall k :: |old(now.seen)| <= k < |now.seen| ==> now.seen[k].Lid? || now.seen[k].Reconnect?
      ensures r == Fresh || r == WaitCancelled || r == WaitCut || r == WaitNoClient
      ensures FailedReopening(now.seen[|old(now.seen)|..])
         <==> r == WaitNoClient || (now.link == Closed && r in {WaitCancelled, WaitCut})
      ensures OnThirdSilence(now.seen[|old(now.seen)|..]) && Silences(now.seen[|old(now.seen)|..]) < 3
      ensures r == WaitNoClient ==> now.link == Closed
      ensures r == Fresh ==> now.link != Closed && |now.seen| > |old(now.seen)| && now.seen[|now.seen| - 1] == Lid(No)
      ensures (r == WaitCancelled ==> now.cancelled) && (r == WaitCut ==> budget == 0)
      ensures old(now.cancelled) && old(budget) > 0 ==> r == WaitCancelled && now == old(now)
    {
      hide Valid, PrintHead.Run, Silences, OnThirdSilence;
      var timeouts := 0;
      NothingSilent(now.seen);
      while true
        invariant Valid() && Waited()
        invariant forall k :: |old(now.seen)| <= k < |now.seen| ==> now.seen[k].Lid? || now.seen[k].Reconnect?
        invariant FailedReopening(now.seen[|old(now.seen)|..]) <==> now.link == Closed
        invariant OnThirdSilence(now.seen[|old(now.seen)|..])
        invariant timeouts == Silences(now.seen[|old(now.seen)|..]) < 3
        invariant old(now.cancelled) && old(budget) > 0 ==> budget > 0 && now == old(now)
        decreases budget
      {
        if budget == 0 {
          return WaitCut;
        }
        if now.cancelled {
          return WaitCancelled;
        }
        ghost var before := now.seen;
        var lid := QueryLid();
        OneSeenMore(old(now.seen), before, Lid(lid));
        if lid == No {
          return Fresh;
        }
        if lid == ClientError {
          return WaitNoClient;
        }
        if lid == Unanswered || lid == LinkError {
          timeouts := timeouts + 1;
          if timeouts >= MUTE_THRESHOLD {
            timeouts := 0;
            ghost var asked := now.seen;
            var up := Reopen();
            OneSeenMore(old(now.seen), asked, Reconnect(up));
          }
        }
        Drift();
      }
    }

    static lemma OneSeenMore(start: seq<Entry>, before: seq<Entry>, e: Entry)
      requires start <= before
      ensures FailedReopening((before + [e])[|start|..])
         <==> FailedReopening(before[|start|..]) || e == Reconnect(false)
      ensures Silences((before + [e])[|start|..]) == if e.Reconnect? then 0
              else if e == Lid(Unanswered) || e == Lid(LinkError) then Silences(before[|start|..]) + 1
              else Silences(before[|start|..])
      ensures OnThirdSilence((before + [e])[|start|..])
         <==> OnThirdSilence(before[|start|..]) && (e.Reconnect? ==> Silences(before[|start|..]) == 3)
    {
      assert (before + [e])[|start|..] == before[|start|..] + [e];
      SilencesSnoc(before[|start|..], e);
      ThirdSnoc(before[|start|..], e);
    }

    static lemma NothingSilent(seen: seq<Entry>)
      ensures Silences(seen[|seen|..]) == 0 && OnThirdSilence(seen[|seen|..])
      ensures MuteChecks(seen[|seen|..]) == 0 && OnThirdMute(seen[|seen|..])
    {
    }

    /** The first look at the paper, and the eject of a sheet found there. */
    method LookAtPaper() returns (raised: bool)
      requires Valid() && now.printing.None? && now.link != Closed
      modifies `now, `history, `budget, printer.transport
      ensures Valid() && Waited() && |now.seen| > |old(now.seen)| && now.seen[|old(now.seen)|].Paper?
      ensures raised ==> now.seen[|old(now.seen)|].answer == Yes
      ensures !raised && now.seen[|old(now.seen)|].answer == Yes ==>
                exists e :: !Raised(e) && EjectSeen(now.seen[|old(now.seen)| + 1..], e)
      ensures now.seen[|old(now.seen)|].answer != Yes ==> now.seen == old(now.seen) + [now.seen[|old(now.seen)|]]
    {
      hide Valid, PrintHead.Run, EjectSeen;
      var paper := QueryPaper();
      raised := false;
      if paper == Yes {
        var e := EjectPaper();
        raised := Raised(e);
      }
    }

    /** The loop at the head of `_wait_for_fresh_sheet`. */
    method WaitForLink() returns (r: WaitResult)
      requires Valid() && now.printing.None? && now.seen == []
      modifies `now, `history, `budget, printer.transport
      ensures Valid() && Waited() && OnlyReaching(now.seen)
      ensures r == Fresh || r == WaitCancelled || r == WaitCut
      ensures r == Fresh ==> now.link == Up
      ensures old(now.link) == Up ==> r == Fresh && now == old(now) && budget == old(budget)
      ensures (r == WaitCancelled ==> now.cancelled) && (r == WaitCut ==> budget == 0)
      ensures old(now.cancelled) && old(budget) > 0 && old(now.link) != Up ==> r == WaitCancelled && now == old(now)
    {
      hide Valid, PrintHead.Run;
      while now.link != Up
        invariant Valid() && Waited()
        invariant OnlyReaching(now.seen)
        invariant old(now.cancelled) && old(budget) > 0 ==> budget > 0 && now == old(now)
        invariant old(now.link) == Up ==> now == old(now) && budget == old(budget)
        decreases budget
      {
        if budget == 0 {
          return WaitCut;
        }
        if now.cancelled {
          return WaitCancelled;
        }
        ConnectOnce();
      }
      r := Fresh;
    }

    /** The body of `_wait_for_fresh_sheet`. */
    method FindFreshSheet() returns (r: WaitResult)
      requires Valid() && now.printing.None? && now.seen == []
      modifies `now, `history, `budget, printer.transport
      ensures Valid() && Waited()
      ensures r == Fresh ==> FreshWait(now.seen)
      ensures (r == WaitCancelled ==> now.cancelled) && (r == WaitCut ==> budget == 0)
      ensures old(now.cancelled) && old(budget) > 0 ==> r == WaitCancelled && now == old(now)
    {
      hide Valid, PrintHead.Run, FreshWait, EjectSeen, Raised;
      r := WaitForLink();
      if r != Fresh {
        return;
      }
      r := WaitForLid();
      if r != Fresh {
        return;
      }
      ghost var lids := now.seen;
      var raised := LookAtPaper();
      if raised {
        return WaitEjectRaised;
      }
      ghost var looked := now.seen;
      r := WaitReady(settles);
      if r == Fresh {
        LookStays(lids, looked, now.seen);
      }
    }

    /** The look stands wherever the wait goes on to. */
    static lemma LookStays(lids: seq<Entry>, looked: seq<Entry>, seen: seq<Entry>)
      requires lids < looked <= seen && lids != [] && lids[|lids| - 1] == Lid(No) && looked[|lids|].Paper?
      requires forall k :: 0 <= k < |lids| ==> lids[k].Lid? || lids[k].Reconnect? || Reaching(lids[k])
      requires looked[|lids|].answer == Yes ==> exists e :: !Raised(e) && EjectSeen(looked[|lids| + 1..], e)
      requires EndsReady(seen)
      ensures FreshWait(seen)
    {
      hide EjectSeen;
      if looked[|lids|].answer == Yes {
        var e :| !Raised(e) && EjectSeen(looked[|lids| + 1..], e);
        assert looked == seen[..|looked|];
        assert seen[|lids| + 1..|looked|] == looked[|lids| + 1..];
        assert EjectedBy(seen, |lids|, |looked|, e);
      }
      hide EjectedBy;
      assert FirstLook(seen, |lids|);
    }

    // ----------------------------------------------------------------
    // The acts of the attempt loop
    // ----------------------------------------------------------------

    /** What every act keeps, besides adding itself to the acts. */
    twostate predicate Acted(act: Act)
      reads this
    {
      && old(history) <= history && now.acts == old(now.acts) + [act] && now.seen == [] && now.printing.None?
      && budget <= old(budget) && (old(now.cancelled) ==> now.cancelled)
    }

    /** `_wait_for_fresh_sheet`. */
    method WaitForFreshSheet() returns (r: WaitResult)
      requires Valid() && now.printing.None? && now.seen == []
      modifies `now, `history, `budget, printer.transport
      ensures Valid() && exists seen :: Acted(Wait(r, seen)) && (r == Fresh ==> FreshWait(seen))
      ensures (r == WaitCancelled ==> now.cancelled) && (r == WaitCut ==> budget == 0)
    {
      hide Valid, PrintHead.Run, FreshWait;
      r := FindFreshSheet();
      ghost var seen := now.seen;
      Finish(WaitOver(r), Wait(r, seen));
      assert Acted(Wait(r, seen));
    }

    /** `_recover_link` of the loop; its ConnectionError is caught. */
    method RecoverLink() returns (up: bool)
      requires Valid() && now.printing.None? && now.seen == []
      modifies `now, `history, `budget, printer.transport
      ensures Valid() && Acted(Act.RecoverLink(up, [Reconnect(up)]))
      ensures if up then now.link == Up else now.link == Closed
    {
      hide Valid, PrintHead.Run;
      up := Reopen();
      assert now.seen == [Reconnect(up)];
      Finish(RecoverOver(up), Act.RecoverLink(up, now.seen));
    }

    method Eject() returns (e: EjectResult)
      requires Valid() && now.printing.None? && now.seen == []
      modifies `now, `history, `budget, printer.transport
      ensures Valid() && exists seen :: Acted(Act.Eject(e, seen)) && EjectSeen(seen, e)
      ensures e == NoClient <==> old(now.link) == Closed
    {
      hide Valid, PrintHead.Run, EjectSeen;
      e := EjectPaper();
      ghost var seen := now.seen;
      assert seen[0..] == seen;
      Finish(EjectOver(e), Act.Eject(e, seen));
      assert Acted(Act.Eject(e, seen));
    }

    /** The drain sleep after a cancel. */
    method DrainQueue()
      requires Valid() && now.printing.None? && now.seen == []
      modifies `now, `history, `budget, printer.transport
      ensures Valid() && Acted(Drain([]))
    {
      hide Valid, PrintHead.Run;
      Drift();
      Finish(DrainOver, Act.Drain(now.seen));
    }

    /** The printer is set up for the page. */
    predicate Suits(job: PageJob) {
      printer.geometry == job.settings.geometry && printer.transport.chunkBytes == job.chunk
    }

    /** What `print_bitmap` returning or raising is to the attempt loop. */
    static function OutcomeOf(p: Printing.PrintOutcome): Outcome {
      match p
      case Printed => Printed
      case NotConnected => NotConnected
      case NoMotorStop => TimedOut
      case Stopped(why) =>
        match why
        case Cancelled => Cancelled
        case LidOpened => LidOpened
        case SheetRanOut => RanOut
        case _ => LinkLost
    }

    /** `_print_page`: whatever sheet is in the printer meanwhile has been begun on. */
    method PrintAttempt(job: PageJob) returns (o: Outcome)
      requires Valid() && now.printing.None? && now.seen == [] && job.Valid() && Suits(job)
      modifies `now, `history, `budget, `tries, printer, printer.transport
      ensures Valid()
      ensures exists a ::
                && Acted(a) && a.Attempt? && a.outcome == o && a.start == old(now.head) && AttemptHolds(job, a)
                && printer.transport.written == old(printer.transport.written) + a.writes
      ensures old(budget) > 0 ==> budget < old(budget)
      ensures o == NotConnected <==> old(now.link) != Up
      ensures o == Cancelled ==> now.cancelled
    {
      hide LawfulRun, Play, AttemptHolds, Performs, Lawful, After, Accounts;
      StartAttempt(job.bitmap);
      ghost var flagged := flags(tries);
      var writes, lid;
      o, writes, lid := RunPrinter(job);
      ghost var a := EndAttempt(o, writes, lid);
      AttemptHoldsFor(job, a, flagged);
      assert Acted(a);
    }

    method StartAttempt(bitmap: seq<byte>)
      requires Valid() && now.printing.None? && now.seen == []
      modifies `now, `history, `budget, printer.transport
      ensures Valid() && old(history) <= history && now.acts == old(now.acts) && now.seen == []
      ensures printer.transport.written == old(printer.transport.written)
      ensures (old(now.cancelled) ==> now.cancelled)
      ensures budget <= old(budget) && (old(budget) > 0 ==> budget < old(budget))
      ensures now.printing.Some? && now.printing.value.bitmap == bitmap && now.printing.value.start == old(now.head)
      ensures (now.printing.value.live <==> now.link == Up) && now.link == old(now.link)
    {
      hide LawfulRun, Play;
      Happen(Begin(bitmap));
      Meanwhile();
    }

    method EndAttempt(o: Outcome, writes: seq<seq<byte>>, lid: Option<Answer>) returns (ghost a: Act)
      requires Possible() && Accounts(writes) && printer.transport.chunkBytes >= 4
      requires now.printing.Some? && now.seen == [] && (now.printing.value.live <==> now.link == Up)
      requires (o == NotConnected <==> now.link != Up) && (o == NotConnected ==> writes == [])
      requires lid.Some? ==> o != LinkLost && Reached(lid.value) && Truthful(now, lid.value, now.lidOpen)
      requires printer.transport.connected <==> now.link == Up && o != LinkLost
      modifies `now, `history
      ensures Valid() && old(history) <= history && now.acts == old(now.acts) + [a] && now.seen == []
              && now.printing.None?
      ensures var p := old(now.printing.value);
              a == Attempt(p.bitmap, p.touched, p.start, o, writes, lid)
      ensures (old(now.cancelled) ==> now.cancelled) && (o == Cancelled ==> now.cancelled)
    {
      hide LawfulRun, Play, PrintHead.Run, SentBy, Writes, Written, WrittenIn;
      ghost var acts := now.acts;
      a := Attempt(now.printing.value.bitmap, now.printing.value.touched, now.printing.value.start, o, writes, lid);
      if o == Cancelled {
        Happen(SetAbort);
      }
      if o == LinkLost {
        Happen(DropLink);
      }
      Happen(AttemptOver(o, writes, lid));
      AttemptWritten(base, acts, a);
    }

    static lemma AttemptWritten(base: seq<seq<byte>>, acts: seq<Act>, a: Act)
      requires a.Attempt?
      ensures base + Written(acts) + Writes(SentBy([])) + a.writes
           == base + Written(acts + [a]) + Writes(SentBy([])) + []
    {
      WrittenSnoc(acts, a);
      NothingWritten();
      hide Written;
      assert base + Written(acts) + [] + a.writes == base + (Written(acts) + a.writes) + [] + [];
    }

    /** The lid as its query finds it, and the answer that is. */
    static function LidFound(silent: bool, open: bool): Printing.LidAnswer {
      if silent then Printing.LidSilent else if open then Printing.LidOpen else Printing.LidClosed
    }

    static function AnswerOf(lid: Printing.LidAnswer): Answer {
      match lid
      case LidClosed => No
      case LidOpen => Yes
      case LidSilent => Unanswered
    }

    /** `print_bitmap` on the page, what it wrote, and what its lid query was answered. */
    method RunPrinter(job: PageJob) returns (o: Outcome, writes: seq<seq<byte>>, lid: Option<Answer>)
      requires job.Valid() && Suits(job) && Valid()
      modifies `tries, printer, printer.transport
      ensures (o == NotConnected <==> now.link != Up) && (o == NotConnected ==> writes == [])
      ensures Performs(job, o, writes, lid, flags(old(tries)))
      ensures lid.Some? ==> o != LinkLost && Reached(lid.value) && Truthful(now, lid.value, now.lidOpen)
      ensures Possible() && Accounts(writes) && printer.transport.written == old(printer.transport.written) + writes
      ensures printer.transport.connected <==> now.link == Up && o != LinkLost
    {
      hide LawfulRun, Play, Written, Writes, SentBy, Performs, Transfer.Send, Transfer.PageOf, Printing.Planned,
           Printing.HeadAfter, Interruption.AtBoundary;
      var reporter := new Progress.Reporter();
      var stops: bool, silent: bool := *, *;
      var found := LidFound(silent, now.lidOpen);
      ghost var schedule := flags(tries);
      var before := printer.transport.written;
      var p, told := printer.PrintBitmap(job.bitmap, job.height, job.settings, SHORT_SHEET, flags(tries), true, stops,
                                         found, reporter);
      tries := tries + 1;
      o := OutcomeOf(p);
      lid := if told.Some? then Some(AnswerOf(told.value)) else None;
      writes := if o == NotConnected then [] else printer.transport.written[|before|..];
      WhatWasPerformed(job, p, stops, found, told, schedule, before, printer.transport.written);
    }
  }

  /** What `print_bitmap` promises is a performance of the attempt. */
  lemma WhatWasPerformed(job: PageJob, p: Printing.PrintOutcome, stops: bool, lid: Printing.LidAnswer,
                         told: Option<Printing.LidAnswer>, schedule: nat -> Transfer.Tick, before: seq<seq<byte>>,
                         now: seq<seq<byte>>)
    requires job.Valid()
    requires p.NotConnected? ==> now == before && told == None
    requires !p.NotConnected? ==>
               var r := Transfer.Send(Transfer.PageOf(job.settings, job.bitmap, job.height, SHORT_SHEET), job.chunk,
                                      schedule, 0, 0);
               var planned := Printing.Planned(r, stops);
               if p == Printing.Stopped(Transfer.LinkLost) then Printing.CutShort(now, before, planned) && told == None
               else
                 && now == before + planned
                 && (if !r.outcome.Complete? then p == Printing.Stopped(r.outcome) && told == None
                     else if !stops then p == Printing.NoMotorStop && told == None
                     else
                       && told == Some(lid) && (p == Printing.Printed <==> lid == Printing.LidClosed)
                       && (p == Printing.Stopped(Transfer.LidOpened) <==> lid == Printing.LidOpen)
                       && (p == Printing.Stopped(Transfer.SheetRanOut) <==> lid == Printing.LidSilent))
    ensures before <= now && now == before + now[|before|..]
    ensures var answer := if told.Some? then Some(World.AnswerOf(told.value)) else None;
            Performs(job, World.OutcomeOf(p), now[|before|..], answer, schedule)
  {
    hide Transfer.Send, Transfer.PageOf;
  }

  lemma AttemptHoldsFor(job: PageJob, a: Act, schedule: nat -> Transfer.Tick)
    requires job.Valid() && a.Attempt? && a.bitmap == job.bitmap
    requires Performs(job, a.outcome, a.writes, a.lid, schedule)
    ensures AttemptHolds(job, a)
  {
    hide Performs;
  }

  /** The acts behind an interrupted attempt, up to the wait. */
  method Recover(w: World, o: Outcome) returns (lost: bool, ghost acts: seq<Act>)
    requires w.Valid() && w.now.printing.None? && w.now.seen == [] && Interrupted(o)
    modifies w`now, w`history, w`budget, w.printer.transport
    ensures w.Valid() && old(w.history) <= w.history && w.now.printing.None? && w.now.seen == []
            && w.budget <= old(w.budget)
    ensures w.now.acts == old(w.now.acts) + acts && (old(w.now.cancelled) ==> w.now.cancelled)
    ensures if o != RanOut then acts == [] && !lost
            else |acts| == 2 && DidEject(acts[1])
                 && acts[0] == RecoverLink(!lost, [Reconnect(!lost)]) && (acts[1].result == NoClient <==> lost)
  {
    hide World.Valid, EjectSeen;
    acts, lost := [], false;
    if o == RanOut {
      var up := w.RecoverLink();
      var e := w.Eject();
      acts := w.now.acts[|old(w.now.acts)|..];
      lost := !up;
    }
  }

  lemma NoClientSeen(a: Act)
    requires DidEject(a) && a.result == NoClient
    ensures a == Eject(NoClient, [Paper(ClientError), Ejecting(NoClient)])
  {
    var t := a.seen;
    var q :| EjectAsks(t, q, NoClient);
    hide Feeds;
    if q > 0 {
      GoneFirst(t, q);
    }
    assert t == [t[0], t[1]];
  }

  lemma GoneFirst(t: seq<Entry>, q: nat)
    requires 0 < q < |t| && OnlyGone(t[..q])
    ensures Gone in t
  {
    assert t[..q][0] in t[..q];
  }

  /** Between two attempts, or before the first. */
  predicate Between(s: Scene) { s.printing.None? && s.seen == [] }

  /** Behind a page printed or cancelled: one eject, and the loop is over. */
  method EndWithEject(w: World, o: Outcome) returns (reply: Reply, ghost rest: seq<Act>)
    requires w.Valid() && Between(w.now) && (o == Printed || (o == Cancelled && w.now.cancelled))
    modifies w`now, w`history, w`budget, w.printer.transport
    ensures w.Valid() && Between(w.now) && old(w.history) <= w.history && w.budget <= old(w.budget)
    ensures w.now.acts == old(w.now.acts) + rest
    ensures if o == Printed then |rest| == 1 && DidEject(rest[0])
            else |rest| == 2 && rest[0] == Drain([]) && DidEject(rest[1])
    ensures reply == if o == Printed then (if Raised(rest[0].result) then Error(InternalError) else Impression)
                     else Error(if Raised(rest[1].result) then InternalError else CancelledByClient)
    ensures o == Cancelled ==> w.now.cancelled
  {
    hide World.Valid, EjectSeen;
    ghost var before := w.now.acts;
    rest := [];
    if o == Cancelled {
      w.DrainQueue();
      rest := [Drain([])];
    }
    var e := w.Eject();
    rest := rest + [w.now.acts[|w.now.acts| - 1]];
    assert w.now.acts == before + rest;
    reply := if o == Printed then (if Raised(e) then Error(InternalError) else Impression)
             else Error(if Raised(e) then InternalError else CancelledByClient);
  }

  /** Behind an interrupted attempt: the wait for another sheet, unless there is no client left. */
  method WaitToRetry(w: World, o: Outcome) returns (reply: Option<Reply>, ghost rest: seq<Act>)
    requires w.Valid() && Between(w.now) && Interrupted(o)
    modifies w`now, w`history, w`budget, w.printer.transport
    ensures w.Valid() && Between(w.now) && old(w.history) <= w.history && w.budget <= old(w.budget)
    ensures w.now.acts == old(w.now.acts) + rest
    ensures Retried(o, rest, reply)
    ensures reply == Some(StillWaiting) ==> w.budget == 0
    ensures reply == Some(Error(CancelledByClient)) ==> w.now.cancelled
  {
    hide World.Valid, EjectSeen, FreshWait;
    ghost var before := w.now.acts;
    var lost: bool;
    lost, rest := Recover(w, o);
    if lost {
      NoClientSeen(rest[1]);
      reply := Some(Error(InternalError));
    } else {
      var waited := w.WaitForFreshSheet();
      rest := rest + [w.now.acts[|w.now.acts| - 1]];
      assert w.now.acts == before + rest;
      reply := if waited == Fresh then None else Some(WaitError(waited));
    }
  }

  /** The acts behind an interrupted attempt, and whether another attempt follows. */
  ghost predicate Retried(o: Outcome, rest: seq<Act>, reply: Option<Reply>) {
    if o == RanOut && rest == NO_CLIENT then reply == Some(Error(InternalError))
    else
      && |rest| == RoundLength(o) - 1
      && (o == RanOut ==>
            rest[0] == RecoverLink(true, [Reconnect(true)]) && DidEject(rest[1]) && rest[1].result != NoClient)
      && var wait := rest[|rest| - 1];
         wait.Wait? && (wait.waited == Fresh ==> FreshWait(wait.seen))
         && reply == if wait.waited == Fresh then None else Some(WaitError(wait.waited))
  }

  lemma RetriedRound(a: Act, rest: seq<Act>, reply: Option<Reply>)
    requires a.Attempt? && Interrupted(a.outcome) && Retried(a.outcome, rest, reply)
    ensures forall k :: 0 <= k < |rest| ==> !rest[k].Attempt?
    ensures if reply.Some? then Ends([a] + rest, reply.value)
            else Reprint.Round([a] + rest) && ([a] + rest)[|rest|].waited == Fresh
  {
    hide EjectSeen, FreshWait;
  }

  lemma EjectEnds(a: Act, rest: seq<Act>, reply: Reply)
    requires a.Attempt?
    requires a.outcome == Printed ==>
               |rest| == 1 && DidEject(rest[0])
               && reply == if Raised(rest[0].result) then Error(InternalError) else Impression
    requires a.outcome == Cancelled ==>
               |rest| == 2 && rest[0] == Drain([]) && DidEject(rest[1])
               && reply == Error(if Raised(rest[1].result) then InternalError else CancelledByClient)
    ensures a.outcome == Printed || a.outcome == Cancelled ==>
              Ends([a] + rest, reply) && forall k :: 0 <= k < |rest| ==> !rest[k].Attempt?
  {
    hide EjectSeen, FreshWait;
  }

  /** One turn of the attempt loop: the reply it ends with, or another attempt to come. */
  method OneRound(w: World, job: PageJob) returns (reply: Option<Reply>, ghost round: seq<Act>)
    requires w.Valid() && Between(w.now) && job.Valid() && w.Suits(job)
    modifies w`now, w`history, w`budget, w`tries, w.printer, w.printer.transport
    ensures w.Valid() && Between(w.now) && old(w.history) <= w.history
    ensures w.budget <= old(w.budget) && (old(w.budget) > 0 ==> w.budget < old(w.budget))
    ensures w.now.acts == old(w.now.acts) + round && round != [] && round[0].Attempt? && AttemptHolds(job, round[0])
    ensures forall k :: 1 <= k < |round| ==> !round[k].Attempt?
    ensures if reply.Some? then Ends(round, reply.value) else Reprint.Round(round) && round[|round| - 1].waited == Fresh
    ensures reply == Some(Error(CancelledByClient)) ==> w.now.cancelled
    ensures reply == Some(StillWaiting) ==> w.budget == 0
  {
    hide World.Valid, AttemptHolds, Retried, Reprint.Round, Ends, DidEject;
    ghost var before := w.now.acts;
    var o := w.PrintAttempt(job);
    ghost var a := w.now.acts[|before|];
    assert w.now.acts == before + [a];
    ghost var rest := [];
    if o == Printed || o == Cancelled {
      var r;
      r, rest := EndWithEject(w, o);
      reply := Some(r);
      EjectEnds(a, rest, r);
    } else if Interrupted(o) {
      reply, rest := WaitToRetry(w, o);
      RetriedRound(a, rest, reply);
    } else {
      reply := Some(Error(if o == TimedOut then ConnectionLost else InternalError));
      AtOnce(a, reply.value);
    }
    round := [a] + rest;
    assert w.now.acts == before + round;
  }

  lemma AtOnce(a: Act, reply: Reply)
    requires a.Attempt? && a.outcome in {TimedOut, NotConnected}
    requires reply == Error(if a.outcome == TimedOut then ConnectionLost else InternalError)
    ensures Ends([a] + [], reply)
  {
  }

  /** Between acts the transport has been given the writes of all of them, in order, and nothing else. */
  lemma AllAccountedFor(w: World)
    requires w.Valid() && w.now.seen == []
    ensures w.printer.transport.written == w.base + Written(w.now.acts)
    ensures w.now.acts == [] ==> w.printer.transport.written == w.base
  {
    NothingWritten();
    hide Written;
    assert w.base + Written(w.now.acts) + [] + [] == w.base + Written(w.now.acts);
    assert w.base + [] == w.base;
  }

  /**
   * The attempt loop. Its acts are a run of `PageLog`, they are the acts of the history, and their
   * writes, the attempts' and those of the questions, feeds and greetings between them, are what the
   * transport was given, in order.
   */
  method Attempts(w: World, job: PageJob) returns (reply: Reply)
    requires w.Valid() && Between(w.now) && w.now.acts == [] && job.Valid() && w.Suits(job)
    modifies w`now, w`history, w`budget, w`tries, w.printer, w.printer.transport
    ensures w.Valid() && Between(w.now) && old(w.history) <= w.history
    ensures PageLog(job, w.now.acts, reply)
    ensures w.printer.transport.written == old(w.printer.transport.written) + Written(w.now.acts)
    ensures reply == Error(CancelledByClient) ==> w.now.cancelled
    ensures reply == StillWaiting ==> w.budget == 0
  {
    hide World.Valid, PageLog, Leads, AttemptHolds, Reprint.Round, Ends, Written;
    NothingDone(job);
    AllAccountedFor(w);
    while true
      invariant w.Valid() && Between(w.now) && old(w.history) <= w.history
      invariant Leads(job, w.now.acts)
      decreases w.budget
    {
      ghost var done := w.now.acts;
      if w.budget == 0 {
        AllAccountedFor(w);
        LoopCut(job, done);
        return StillWaiting;
      }
      var ended;
      ghost var round;
      ended, round := OneRound(w, job);
      AllAccountedFor(w);
      if ended.Some? {
        LoopEnds(job, done, round, ended.value);
        return ended.value;
      }
      RoundDone(job, done, round);
    }
  }

  const NORMAL_MODE: byte := 0
  const FEED_LINES := 20

  /** `print_bitmap`'s settings for a page: the printer's geometry, the page's density, the rest by default. */
  function SettingsOf(g: Geometry, spec: PageSpec, densityOf: Density -> Option<byte>): Settings {
    Settings(g, NORMAL_MODE, densityOf(spec.density), FEED_LINES)
  }

  /** A page whose pixels are only cut: 1-bit, not turned, as wide as the head. */
  predicate OnlyCut(spec: PageSpec, p: Profile) {
    spec.bits == 1 && !spec.rotate && spec.width == p.width && p.LeadRows() >= 0
  }

  /**
   * The job made of a received page: its rows of the sheet, dot by dot, and of an untouched page exactly
   * those received.
   */
  ghost predicate JobOf(job: PageJob, spec: PageSpec, rows: nat, data: seq<byte>, p: Profile,
                        densityOf: Density -> Option<byte>) {
    && job.Valid()
    && job.settings.mode == 0 && job.settings.density == densityOf(spec.density) && job.settings.feedLines == 20
    && job.height == PrintedRows(spec, rows, p)
    && (OnlyCut(spec, p) ==>
          var from := At(spec.RowBytes(), 0, p.LeadRows());
          var end := At(spec.RowBytes(), 0, p.LeadRows() + job.height);
          from <= end <= |data| && job.bitmap == data[from..end])
    && spec.Valid() && |data| == rows * spec.RowBytes()
    && (spec.bits == 1 || spec.tone != Diffusion ==> Shows(job.bitmap, spec, rows, data, p, job.height))
  }

  predicate Unprintable(spec: PageSpec, rows: nat, p: Profile) {
    Tall(spec, rows) <= p.LeadRows() || RowsFor(p, spec.mediaLength).NothingPrintable?
  }

  /** `prepare_page` and `image_to_bitmap`, and the settings the page is printed with. */
  method Prepare(page: PageBuffer, w: World, p: Profile, densityOf: Density -> Option<byte>)
    returns (job: Option<PageJob>)
    requires page.Valid() && p.Valid() && w.printer.geometry.Valid()
    requires w.printer.geometry.widthBytes == p.WidthBytes() && w.printer.transport.chunkBytes >= 1
    ensures job.None? <==> Unprintable(page.spec, page.rows, p)
    ensures job.Some? ==> JobOf(job.value, page.spec, page.rows, page.data, p, densityOf) && w.Suits(job.value)
  {
    hide Profile.LeadRows, RowsFor, At, PageSpec.RowBytes, Tall, PrintedRows, Shows;
    var bitmap := PageToBitmap(page.spec, page.rows, page.data, p);
    if bitmap.None? {
      return None;
    }
    job := Some(PageJob(SettingsOf(w.printer.geometry, page.spec, densityOf), bitmap.value,
                        PrintedRows(page.spec, page.rows, p), w.printer.transport.chunkBytes));
  }

  /**
   * `_cmd_page_end`. What it does is a run of `PageLog` over the one job made of the page, and the
   * received page is gone on every exit after the row and connection checks.
   */
  method EndPage(pages: Pages, w: World, p: Profile, densityOf: Density -> Option<byte>)
    returns (reply: Reply, ghost job: Option<PageJob>)
    requires pages.Valid() && w.Valid() && Between(w.now) && w.now.acts == []
    requires p.Valid() && w.printer.geometry.Valid() && w.printer.geometry.widthBytes == p.WidthBytes()
    modifies pages, w`now, w`history, w`budget, w`tries, w.printer, w.printer.transport
    ensures w.Valid() && Between(w.now) && old(w.history) <= w.history
    ensures old(pages.page) == null ==> reply == Error(NoPage) && w.now == old(w.now)
    ensures old(pages.page) != null ==>
              var page, rows := old(pages.page), old(pages.page.rows);
              if rows != page.spec.lengthRows then
                reply == Error(Incomplete(rows, page.spec.lengthRows)) && w.now == old(w.now) && pages.page == page
              else if old(w.now.link) != Up then
                reply == Error(NoPrinter) && w.now == old(w.now) && pages.page == page
              else
                && (reply != StillWaiting ==> pages.page == null)
                && (job.None? <==> Unprintable(page.spec, rows, p))
                && (job.None? ==> reply == Error(InternalError) && w.now == old(w.now))
                && (job.Some? ==>
                      && JobOf(job.value, page.spec, rows, old(pages.page.data), p, densityOf)
                      && PageLog(job.value, w.now.acts, reply)
                      && w.printer.transport.written == old(w.printer.transport.written) + Written(w.now.acts))
    ensures reply == Error(CancelledByClient) ==> w.now.cancelled
    ensures reply == StillWaiting ==> w.budget == 0
    ensures reply == Impression ==> old(pages.page) != null && job.Some? && PageLog(job.value, w.now.acts, Impression)
  {
    AllAccountedFor(w);
    assert w.printer.transport.chunkBytes >= 4;
    hide World.Valid, PageLog, Written, JobOf, Unprintable;
    var page := pages.page;
    job := None;
    if page == null {
      return Error(NoPage), None;
    }
    if page.rows != page.spec.lengthRows {
      return Error(Incomplete(page.rows, page.spec.lengthRows)), None;
    }
    if w.now.link != Up {
      return Error(NoPrinter), None;
    }
    var prepared := Prepare(page, w, p, densityOf);
    job := prepared;
    if prepared.None? {
      pages.page := null;
      return Error(InternalError), None;
    }
    JobIsValid(prepared.value, page.spec, page.rows, page.data, p, densityOf);
    w.Drift();
    AllAccountedFor(w);
    reply := Attempts(w, prepared.value);
    if reply != StillWaiting {
      pages.page := null;
    }
  }

  lemma JobIsValid(job: PageJob, spec: PageSpec, rows: nat, data: seq<byte>, p: Profile,
                   densityOf: Density -> Option<byte>)
    requires JobOf(job, spec, rows, data, p, densityOf)
    ensures job.Valid()
  {
  }

  /** What `EndPage` leaves: its history is a possible one, so what is proved of those holds of it. */
  lemma SheetsApart(w: World, job: PageJob, reply: Reply, m: nat, n: nat, look: nat)
    requires w.Valid() && PageStarts(w.origin) && job.Valid() && PageLog(job, w.now.acts, reply)
    requires m < n && IsAttempt(w.now.acts, m) && IsAttempt(w.now.acts, n) && !w.now.acts[n - 1].Attempt?
    requires FirstLook(w.now.acts[n - 1].seen, look) && LookAnswered(w.now.acts[n - 1].seen, look)
    ensures w.now.acts[m].touched !! w.now.acts[n].touched
  {
    hide PageLog, FirstLook, LookAnswered, PageStarts;
    AttemptsOnFreshSheets(w.origin, w.history, job, reply, m, n, look);
  }
}
