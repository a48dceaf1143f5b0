/**
 * A client that waits for each reply (`phomemo/bridge/client.py`, `printer-app/bridge.c`) and an
 * admitted session, with the two channels between them. Aborts may be sent at any moment.
 */
module ClientRuns {
  import opened Bytes
  import opened SessionSteps
  import Framing

  /**
   * `sent` are the requests in flight; of the session's `outbox` the first `taken` entries have been
   * read. `asked` is the outstanding request, `name` what `pending` holds, and `got` pairs each
   * request that returned with what `reply` returned for it.
   */
  datatype Pair = Pair(side: Side, sent: seq<Request>, taken: nat, asked: Option<nat>, name: string,
                       got: seq<(nat, Out)>, nextId: nat)

  datatype Label = Call(cmd: string) | SendAbort | ServerReads | ServerPushes | ServerDone(ok: bool) | Take

  const START := Pair(NEW_SIDE.(phase := Active), [], 0, None, "", [], 0)

  /** The message an entry of the outbox is on the wire. */
  function Wire(o: Out): Framing.Message {
    match o
    case Event(_) => Framing.Message(true, None, None, None, 0, Framing.Absent, Framing.Absent, "")
    case Ack(_) => Framing.Message(false, Some("abort"), Some(true), None, 0, Framing.Absent, Framing.Absent, "")
    case Response(_, cmd, verdict) =>
      Framing.Message(false, if cmd.Text? then Some(cmd.name) else None, Some(verdict == Finished(true)), None,
                      0, Framing.Absent, Framing.Absent, "")
  }

  predicate Enabled(p: Pair, l: Label) {
    match l
    case Call(cmd) => p.asked.None? && cmd != "abort"
    case SendAbort => true
    case ServerReads => p.sent != []
    case ServerPushes => p.side.pending.Some?
    case ServerDone(_) => p.side.pending.Some?
    case Take => p.asked.Some? && p.taken < |p.side.outbox|
  }

  /** One message read by `reply`: passed over, or returned as the answer. */
  function OnTake(p: Pair): Pair
    requires p.asked.Some? && p.taken < |p.side.outbox|
  {
    var o := p.side.outbox[p.taken];
    var q := p.(taken := p.taken + 1);
    if Framing.Skipped(Wire(o), p.name) then q else q.(asked := None, got := p.got + [(p.asked.value, o)])
  }

  function Next(p: Pair, l: Label): Pair {
    if !Enabled(p, l) then p else
      match l
      case Call(cmd) =>
        p.(sent := p.sent + [Request(p.nextId, Text(cmd))], asked := Some(p.nextId), name := cmd,
           nextId := p.nextId + 1)
      case SendAbort => p.(sent := p.sent + [Request(p.nextId, ABORT)], nextId := p.nextId + 1)
      case ServerReads => p.(side := OnRequest(p.side, p.sent[0]), sent := p.sent[1..])
      case ServerPushes => p.(side := OnPush(p.side))
      case ServerDone(ok) => p.(side := OnDone(p.side, ok))
      case Take => OnTake(p)
  }

  function Exec(p: Pair, ls: seq<Label>): Pair {
    if ls == [] then p else Next(Exec(p, ls[..|ls| - 1]), ls[|ls| - 1])
  }

  // ------------------------------------------------------------------
  // Where the outstanding request is
  // ------------------------------------------------------------------

  /** Requests in flight other than aborts. */
  function Calls(rs: seq<Request>): seq<nat> {
    if rs == [] then []
    else (if rs[0].cmd == ABORT then [] else [rs[0].id]) + Calls(rs[1..])
  }

  /** Replies in a stretch of the outbox. */
  function Responses(outs: seq<Out>): seq<nat> {
    if outs == [] then []
    else (if outs[0].Response? then [outs[0].of] else []) + Responses(outs[1..])
  }

  /** A reply to a request that was heard: not the refusal of a second one. */
  predicate Heard(o: Out) { o.Response? ==> o.verdict != Busy && o.cmd != ABORT }

  ghost predicate OnlyOne(inFlight: seq<nat>, pending: seq<nat>, unread: seq<nat>, asked: Option<nat>) {
    inFlight + pending + unread == if asked.Some? then [asked.value] else []
  }

  /** The client's commands are strings. */
  ghost predicate AllText(rs: seq<Request>) { forall r :: r in rs ==> r.cmd.Text? }

  lemma TextSnoc(rs: seq<Request>, r: Request)
    requires AllText(rs) && r.cmd.Text?
    ensures AllText(rs + [r])
  {
  }

  lemma TextHead(rs: seq<Request>)
    requires AllText(rs) && rs != []
    ensures rs[0].cmd.Text? && AllText(rs[1..])
  {
  }

  /** The outstanding request, and no other, is in flight, being handled, or answered but unread. */
  ghost predicate Located(p: Pair) {
    && p.taken <= |p.side.outbox| && AllText(p.sent)
    && OnlyOne(Calls(p.sent), PendingIds(p.side.pending), Responses(p.side.outbox[p.taken..]), p.asked)
  }

  lemma NothingOutstanding(a: seq<nat>, b: seq<nat>, c: seq<nat>, x: nat)
    requires OnlyOne(a, b, c, None)
    ensures OnlyOne(a + [x], b, c, Some(x))
  {
    assert |a + b + c| == |a| + |b| + |c|;
  }

  lemma InFlight(x: nat, later: seq<nat>, b: seq<nat>, c: seq<nat>, asked: Option<nat>)
    requires OnlyOne([x] + later, b, c, asked)
    ensures later == [] && b == [] && c == [] && asked == Some(x)
    ensures OnlyOne(later, [x], c, asked) && OnlyOne(later, b, c + [x], asked)
  {
    assert |[x] + later + b + c| == 1 + |later| + |b| + |c|;
    assert ([x] + later + b + c)[0] == x;
  }

  lemma BeingHandled(a: seq<nat>, x: nat, c: seq<nat>, asked: Option<nat>)
    requires OnlyOne(a, [x], c, asked)
    ensures OnlyOne(a, [], c + [x], asked)
  {
    assert |a + [x] + c| == |a| + 1 + |c|;
  }

  lemma Answered(a: seq<nat>, b: seq<nat>, x: nat, later: seq<nat>, asked: nat)
    requires OnlyOne(a, b, [x] + later, Some(asked))
    ensures OnlyOne(a, b, later, None) && x == asked
  {
    assert |a + b + ([x] + later)| == |a| + |b| + 1 + |later|;
    assert (a + b + ([x] + later))[|a| + |b|] == x;
  }

  /** No reply is the refusal of a second request, and each call got the reply to its own. */
  ghost predicate Matched(p: Pair) {
    && p.side.phase == Active && p.name != "abort"
    && (p.side.pending.Some? ==> p.side.pending.value.cmd != ABORT)
    && AllHeard(p.side.outbox) && AllPaired(p.got)
  }

  ghost predicate AllHeard(outs: seq<Out>) { forall o :: o in outs ==> Heard(o) }

  ghost predicate AllPaired(got: seq<(nat, Out)>) {
    forall g :: g in got ==> g.1.Response? && g.1.of == g.0 && Heard(g.1)
  }

  lemma HeardSnoc(outs: seq<Out>, o: Out)
    requires AllHeard(outs) && Heard(o)
    ensures AllHeard(outs + [o])
  {
  }

  lemma HeardAt(outs: seq<Out>, k: nat)
    requires AllHeard(outs) && k < |outs|
    ensures Heard(outs[k])
  {
  }

  lemma PairedSnoc(got: seq<(nat, Out)>, id: nat, o: Out)
    requires AllPaired(got) && o.Response? && o.of == id && Heard(o)
    ensures AllPaired(got + [(id, o)])
  {
  }

  ghost predicate PairInv(p: Pair) { Located(p) && Matched(p) }

  lemma {:induction false} CallsSnoc(rs: seq<Request>, r: Request)
    ensures Calls(rs + [r]) == Calls(rs) + (if r.cmd == ABORT then [] else [r.id])
  {
    if rs != [] {
      assert (rs + [r])[1..] == rs[1..] + [r];
      CallsSnoc(rs[1..], r);
    } else {
      assert rs + [r] == [r];
      assert Calls([r][1..]) == [];
    }
  }

  lemma {:induction false} ResponsesSnoc(outs: seq<Out>, o: Out)
    ensures Responses(outs + [o]) == Responses(outs) + (if o.Response? then [o.of] else [])
  {
    if outs != [] {
      assert (outs + [o])[1..] == outs[1..] + [o];
      ResponsesSnoc(outs[1..], o);
    } else {
      assert outs + [o] == [o];
      assert Responses([o][1..]) == [];
    }
  }

  /** Appending to the outbox appends to what is unread. */
  lemma UnreadSnoc(outs: seq<Out>, taken: nat, o: Out)
    requires taken <= |outs|
    ensures Responses((outs + [o])[taken..]) == Responses(outs[taken..]) + (if o.Response? then [o.of] else [])
  {
    assert (outs + [o])[taken..] == outs[taken..] + [o];
    ResponsesSnoc(outs[taken..], o);
  }

  lemma CallKeeps(p: Pair, cmd: string)
    requires PairInv(p) && p.asked.None? && cmd != "abort"
    ensures PairInv(Next(p, Call(cmd)))
  {
    hide Calls, Responses, OnlyOne, AllHeard, AllPaired, AllText;
    CallsSnoc(p.sent, Request(p.nextId, Text(cmd)));
    TextSnoc(p.sent, Request(p.nextId, Text(cmd)));
    NothingOutstanding(Calls(p.sent), PendingIds(p.side.pending), Responses(p.side.outbox[p.taken..]), p.nextId);
  }

  lemma AbortKeeps(p: Pair)
    requires PairInv(p)
    ensures PairInv(Next(p, SendAbort))
  {
    hide Calls, Responses, OnlyOne, AllHeard, AllPaired, AllText;
    CallsSnoc(p.sent, Request(p.nextId, ABORT));
    TextSnoc(p.sent, Request(p.nextId, ABORT));
    assert Calls(p.sent) + [] == Calls(p.sent);
  }

  /** What reading a request does to the outbox and the pending command. */
  lemma RequestEffect(s: Side, r: Request)
    requires r.cmd.Text?
    ensures OnRequest(s, r).phase == s.phase
    ensures r.cmd == ABORT ==>
              && OnRequest(s, r).outbox == s.outbox + [Ack(r.id)]
              && PendingIds(OnRequest(s, r).pending) == PendingIds(s.pending)
              && (OnRequest(s, r).pending.Some? ==>
                    s.pending.Some? && OnRequest(s, r).pending.value.cmd == s.pending.value.cmd)
    ensures r.cmd != ABORT && s.pending.None? ==>
              if Known(r.cmd) then
                OnRequest(s, r).outbox == s.outbox && OnRequest(s, r).pending == Some(Pending(r.id, r.cmd, false))
              else
                OnRequest(s, r).outbox == s.outbox + [Response(r.id, r.cmd, Unknown)] && OnRequest(s, r).pending.None?
  {
  }

  lemma CallsHead(rs: seq<Request>)
    requires rs != []
    ensures Calls(rs) == if rs[0].cmd == ABORT then Calls(rs[1..]) else [rs[0].id] + Calls(rs[1..])
  {
    assert [] + Calls(rs[1..]) == Calls(rs[1..]);
  }

  /** The server never refuses the outstanding request as a second one: nothing else is pending. */
  lemma NothingElsePending(p: Pair)
    requires Located(p) && p.sent != [] && p.sent[0].cmd != ABORT
    ensures p.side.pending.None?
  {
    hide Calls, OnlyOne;
    CallsHead(p.sent);
    InFlight(p.sent[0].id, Calls(p.sent[1..]), PendingIds(p.side.pending), Responses(p.side.outbox[p.taken..]),
             p.asked);
  }

  lemma ReadLocated(p: Pair)
    requires Located(p) && p.sent != []
    ensures Located(Next(p, ServerReads))
  {
    hide OnRequest, Calls, Responses, OnlyOne, AllText;
    var r := p.sent[0];
    TextHead(p.sent);
    CallsHead(p.sent);
    RequestEffect(p.side, r);
    var unread := Responses(p.side.outbox[p.taken..]);
    if r.cmd == ABORT {
      UnreadSnoc(p.side.outbox, p.taken, Ack(r.id));
      assert unread + [] == unread;
    } else {
      NothingElsePending(p);
      InFlight(r.id, Calls(p.sent[1..]), PendingIds(p.side.pending), unread, p.asked);
      if !Known(r.cmd) {
        UnreadSnoc(p.side.outbox, p.taken, Response(r.id, r.cmd, Unknown));
      }
    }
  }

  lemma LocatedText(p: Pair)
    requires Located(p) && p.sent != []
    ensures p.sent[0].cmd.Text?
  {
    hide Calls, Responses, OnlyOne;
    TextHead(p.sent);
  }

  lemma ReadMatched(p: Pair)
    requires PairInv(p) && p.sent != []
    ensures Matched(Next(p, ServerReads))
  {
    hide OnRequest, Located, AllHeard, AllPaired;
    var r := p.sent[0];
    LocatedText(p);
    RequestEffect(p.side, r);
    if r.cmd == ABORT {
      HeardSnoc(p.side.outbox, Ack(r.id));
    } else {
      NothingElsePending(p);
      HeardSnoc(p.side.outbox, Response(r.id, r.cmd, Unknown));
    }
  }

  lemma PushKeepsPair(p: Pair)
    requires PairInv(p) && p.side.pending.Some?
    ensures PairInv(Next(p, ServerPushes))
  {
    hide Calls, Responses, OnlyOne, AllHeard, AllPaired;
    UnreadSnoc(p.side.outbox, p.taken, Event(p.side.pending.value.id));
    HeardSnoc(p.side.outbox, Event(p.side.pending.value.id));
    var unread := Responses(p.side.outbox[p.taken..]);
    assert unread + [] == unread;
  }

  lemma DoneKeepsPair(p: Pair, ok: bool)
    requires PairInv(p) && p.side.pending.Some?
    ensures PairInv(Next(p, ServerDone(ok)))
  {
    hide Calls, Responses, OnlyOne, AllHeard, AllPaired;
    var q := p.side.pending.value;
    UnreadSnoc(p.side.outbox, p.taken, Response(q.id, q.cmd, Finished(ok)));
    HeardSnoc(p.side.outbox, Response(q.id, q.cmd, Finished(ok)));
    BeingHandled(Calls(p.sent), q.id, Responses(p.side.outbox[p.taken..]), p.asked);
  }

  lemma SkippedIff(o: Out, name: string)
    requires Heard(o) && name != "abort"
    ensures Framing.Skipped(Wire(o), name) <==> !o.Response?
  {
  }

  lemma ResponsesHead(outs: seq<Out>, taken: nat)
    requires taken < |outs|
    ensures var later := Responses(outs[taken + 1..]);
            Responses(outs[taken..]) == if outs[taken].Response? then [outs[taken].of] + later else later
  {
    assert outs[taken..][1..] == outs[taken + 1..];
    assert [] + Responses(outs[taken + 1..]) == Responses(outs[taken + 1..]);
  }

  /** What `reply` returns is the reply to the outstanding request. */
  lemma TakeKeeps(p: Pair)
    requires PairInv(p) && p.asked.Some? && p.taken < |p.side.outbox|
    ensures PairInv(Next(p, Take))
  {
    hide Calls, Responses, PendingIds, Wire, Framing.Skipped, Heard, OnlyOne, AllHeard, AllPaired;
    var o := p.side.outbox[p.taken];
    HeardAt(p.side.outbox, p.taken);
    SkippedIff(o, p.name);
    ResponsesHead(p.side.outbox, p.taken);
    if o.Response? {
      PairedSnoc(p.got, o.of, o);
      Answered(Calls(p.sent), PendingIds(p.side.pending), o.of, Responses(p.side.outbox[p.taken + 1..]), p.asked.value);
    }
  }

  lemma NextKeeps(p: Pair, l: Label)
    requires PairInv(p)
    ensures PairInv(Next(p, l))
  {
    hide Located, Matched;
    if Enabled(p, l) {
      match l
      case Call(cmd) => CallKeeps(p, cmd);
      case SendAbort => AbortKeeps(p);
      case ServerReads =>
        ReadLocated(p);
        ReadMatched(p);
      case ServerPushes => PushKeepsPair(p);
      case ServerDone(ok) => DoneKeepsPair(p, ok);
      case Take => TakeKeeps(p);
    }
  }

  lemma {:induction false} EveryRun(ls: seq<Label>)
    ensures PairInv(Exec(START, ls))
  {
    if ls != [] {
      EveryRun(ls[..|ls| - 1]);
      NextKeeps(Exec(START, ls[..|ls| - 1]), ls[|ls| - 1]);
    }
  }

  /**
   * Over every interleaving of calls, aborts, events and replies: each call that returned returned
   * the reply to its own request, never an acknowledgement and never "busy"; and while a call is
   * outstanding its request is in exactly one place.
   */
  lemma RepliesMatch(ls: seq<Label>)
    ensures var p := Exec(START, ls);
            && (forall g :: g in p.got ==> g.1.Response? && g.1.of == g.0 && g.1.verdict != Busy)
            && |Calls(p.sent)| + |PendingIds(p.side.pending)|
            + |Responses(p.side.outbox[Min(p.taken, |p.side.outbox|)..])|
               == (if p.asked.Some? then 1 else 0)
  {
    EveryRun(ls);
    var p := Exec(START, ls);
    var a, b, c := Calls(p.sent), PendingIds(p.side.pending), Responses(p.side.outbox[p.taken..]);
    assert |a + b + c| == |a| + |b| + |c|;
  }

  // ------------------------------------------------------------------
  // What the replies say
  // ------------------------------------------------------------------

  /** The handlers that have ended in a run, and whether they returned. */
  function Ends(ls: seq<Label>): seq<(nat, bool)> {
    if ls == [] then []
    else
      var front, last := ls[..|ls| - 1], ls[|ls| - 1];
      var pending := Exec(START, front).side.pending;
      Ends(front) + if last.ServerDone? && pending.Some? then [(pending.value.id, last.ok)] else []
  }

  /** Requests that have not been answered yet. */
  function Open(p: Pair): seq<nat> { Calls(p.sent) + PendingIds(p.side.pending) }

  /** A reply tells how its handler ended, and says that a command is unknown only if none did. */
  predicate Tells(o: Out, ends: seq<(nat, bool)>) {
    o.Response? ==>
      match o.verdict
      case Finished(b) => (o.of, b) in ends && (o.of, !b) !in ends
      case Unknown => (o.of, true) !in ends && (o.of, false) !in ends
      case Busy => true
  }

  ghost predicate AllTell(outs: seq<Out>, ends: seq<(nat, bool)>) { forall o <- outs :: Tells(o, ends) }

  /** No open request is one already answered or ended. */
  ghost predicate OpenIsNew(p: Pair, ends: seq<(nat, bool)>) {
    && (forall x <- Open(p) :: x < p.nextId)
    && (forall o <- p.side.outbox :: o.Response? ==> o.of < p.nextId && o.of !in Open(p))
    && (forall e <- ends :: e.0 < p.nextId && e.0 !in Open(p))
  }

  ghost predicate GotFrom(got: seq<(nat, Out)>, outs: seq<Out>) { forall g <- got :: g.1 in outs }

  ghost predicate TruthInv(p: Pair, ends: seq<(nat, bool)>) {
    AllTell(p.side.outbox, ends) && OpenIsNew(p, ends) && GotFrom(p.got, p.side.outbox)
  }

  lemma TellsSnoc(outs: seq<Out>, ends: seq<(nat, bool)>, o: Out)
    requires AllTell(outs, ends) && Tells(o, ends)
    ensures AllTell(outs + [o], ends)
  {
  }

  /** One more handler has ended, which had not been answered before. */
  lemma EndSnoc(outs: seq<Out>, ends: seq<(nat, bool)>, id: nat, cmd: Cmd, ok: bool)
    requires AllTell(outs, ends) && (forall o <- outs :: o.Response? ==> o.of != id) && (forall e <- ends :: e.0 != id)
    ensures AllTell(outs + [Response(id, cmd, Finished(ok))], ends + [(id, ok)])
  {
    forall o <- outs
      ensures Tells(o, ends + [(id, ok)])
    {
      assert Tells(o, ends);
    }
    assert (ends + [(id, ok)])[|ends|] == (id, ok);
  }

  lemma DoneTells(p: Pair, ends: seq<(nat, bool)>, ok: bool)
    requires PairInv(p) && TruthInv(p, ends) && p.side.pending.Some?
    ensures TruthInv(Next(p, ServerDone(ok)), ends + [(p.side.pending.value.id, ok)])
  {
    hide Calls, Responses, Matched, Tells, AllTell, AllText;
    var q := p.side.pending.value;
    var unread := Responses(p.side.outbox[p.taken..]);
    OnlyOneBefore(Calls(p.sent), q.id, unread, p.asked);
    assert q.id in Open(p);
    EndSnoc(p.side.outbox, ends, q.id, q.cmd, ok);
    assert Open(Next(p, ServerDone(ok))) == [];
  }

  lemma OnlyOneBefore(a: seq<nat>, x: nat, c: seq<nat>, asked: Option<nat>)
    requires OnlyOne(a, [x], c, asked)
    ensures a == [] && c == []
  {
    assert |a + [x] + c| == |a| + 1 + |c|;
  }

  /** A step that leaves no more open than was, ends nothing, and writes `more`. */
  lemma StillTells(p: Pair, q: Pair, ends: seq<(nat, bool)>, more: seq<Out>)
    requires TruthInv(p, ends) && q.nextId == p.nextId && q.side.outbox == p.side.outbox + more && q.got == p.got
    requires (forall x <- Open(q) :: x in Open(p)) && AllTell(more, ends)
    requires forall o <- more :: o.Response? ==> o.of < p.nextId && o.of !in Open(q)
    ensures TruthInv(q, ends)
  {
    hide Open, Tells;
    forall o <- q.side.outbox
      ensures o in p.side.outbox || o in more
    {
    }
  }

  lemma OneTells(o: Out, ends: seq<(nat, bool)>)
    requires Tells(o, ends)
    ensures AllTell([o], ends) && AllTell([], ends)
  {
  }

  lemma ReadTells(p: Pair, ends: seq<(nat, bool)>)
    requires PairInv(p) && TruthInv(p, ends) && p.sent != []
    ensures TruthInv(Next(p, ServerReads), ends)
  {
    hide OnRequest, Calls, Responses, OnlyOne, AllText, AllHeard, AllPaired, AllTell, Matched;
    var r, next := p.sent[0], Next(p, ServerReads);
    LocatedText(p);
    CallsHead(p.sent);
    RequestEffect(p.side, r);
    if r.cmd == ABORT {
      OneTells(Ack(r.id), ends);
      assert Open(next) == Open(p);
      hide TruthInv, Open, Located, Known;
      StillTells(p, next, ends, [Ack(r.id)]);
    } else {
      NothingElsePending(p);
      InFlight(r.id, Calls(p.sent[1..]), PendingIds(p.side.pending), Responses(p.side.outbox[p.taken..]), p.asked);
      assert Open(p) == [r.id] && Open(next) == if Known(r.cmd) then [r.id] else [];
      assert r.id in Open(p);
      var answer := Response(r.id, r.cmd, Unknown);
      assert Tells(answer, ends);
      assert r.id < p.nextId;
      OneTells(answer, ends);
      hide TruthInv, Open, Located, Known;
      assert p.side.outbox + [] == p.side.outbox;
      StillTells(p, next, ends, if Known(r.cmd) then [] else [answer]);
    }
  }

  lemma CallTells(p: Pair, ends: seq<(nat, bool)>, l: Label)
    requires TruthInv(p, ends) && Enabled(p, l) && (l.Call? || l.SendAbort?)
    ensures TruthInv(Next(p, l), ends)
  {
    hide Calls, AllTell, GotFrom;
    CallsSnoc(p.sent, Request(p.nextId, if l.Call? then Text(l.cmd) else ABORT));
    assert forall x <- Open(Next(p, l)) :: x in Open(p) || x == p.nextId;
  }

  lemma PushTells(p: Pair, ends: seq<(nat, bool)>)
    requires TruthInv(p, ends) && Enabled(p, ServerPushes)
    ensures TruthInv(Next(p, ServerPushes), ends)
  {
    var o := Event(p.side.pending.value.id);
    OneTells(o, ends);
    assert Open(Next(p, ServerPushes)) == Open(p);
    hide TruthInv, Open, AllTell;
    StillTells(p, Next(p, ServerPushes), ends, [o]);
  }

  lemma TakeTells(p: Pair, ends: seq<(nat, bool)>)
    requires TruthInv(p, ends) && Enabled(p, Take)
    ensures TruthInv(Next(p, Take), ends)
  {
    hide Calls, Framing.Skipped, Wire, AllTell;
  }

  lemma StepTells(p: Pair, ends: seq<(nat, bool)>, l: Label)
    requires PairInv(p) && TruthInv(p, ends)
    ensures var more := if l.ServerDone? && p.side.pending.Some? then [(p.side.pending.value.id, l.ok)] else [];
            TruthInv(Next(p, l), ends + more)
  {
    hide PairInv, TruthInv;
    assert ends + [] == ends;
    if Enabled(p, l) {
      match l
      case ServerDone(ok) => DoneTells(p, ends, ok);
      case ServerReads => ReadTells(p, ends);
      case Call(_) => CallTells(p, ends, l);
      case SendAbort => CallTells(p, ends, l);
      case ServerPushes => PushTells(p, ends);
      case Take => TakeTells(p, ends);
    }
  }

  lemma {:induction false} EveryReplyTells(ls: seq<Label>)
    ensures TruthInv(Exec(START, ls), Ends(ls))
  {
    if ls != [] {
      hide TruthInv, PairInv, Next;
      var front := ls[..|ls| - 1];
      EveryReplyTells(front);
      EveryRun(front);
      StepTells(Exec(START, front), Ends(front), ls[|ls| - 1]);
    }
  }

  /**
   * Over every interleaving: what a call returns reads as ok exactly if the handler of its own request
   * ended by returning, and as not ok exactly if it raised or there is no such command.
   */
  lemma RepliesTell(ls: seq<Label>, g: (nat, Out))
    requires g in Exec(START, ls).got
    ensures g.1.Response? && g.1.of == g.0
    ensures Wire(g.1).ok == Some(true) <==> (g.0, true) in Ends(ls)
    ensures Wire(g.1).ok == Some(false) <==> (g.0, true) !in Ends(ls)
    ensures g.1.verdict == Unknown <==> (g.0, true) !in Ends(ls) && (g.0, false) !in Ends(ls)
  {
    EveryRun(ls);
    EveryReplyTells(ls);
    assert Tells(g.1, Ends(ls)) && Heard(g.1);
  }

  /** The commands the two clients send, besides "abort". */
  const CLIENT_CALLS: set<string> := {
    "open", "close", "disconnect", "discover", "status", "info", "auto_off", "identify", "eject",
    "test_page", "wait_ready", "page_begin", "lines", "page_end" }

  ghost predicate OnlyClientCalls(rs: seq<Request>) {
    forall r <- rs :: r.cmd == ABORT || (r.cmd.Text? && r.cmd.name in CLIENT_CALLS)
  }

  ghost predicate NoUnknowns(outs: seq<Out>) { forall o <- outs :: o.Response? ==> o.verdict != Unknown }

  lemma CallsStep(p: Pair, l: Label)
    requires OnlyClientCalls(p.sent) && NoUnknowns(p.side.outbox) && (l.Call? ==> l.cmd in CLIENT_CALLS)
    ensures OnlyClientCalls(Next(p, l).sent) && NoUnknowns(Next(p, l).side.outbox)
  {
    hide Framing.Skipped, Wire;
    if Enabled(p, l) && l.ServerReads? {
      assert p.sent[0] in p.sent;
    }
  }

  /** No call of either client is answered that there is no such command. */
  lemma {:induction false} EveryCallIsKnown(ls: seq<Label>)
    requires forall l <- ls :: l.Call? ==> l.cmd in CLIENT_CALLS
    ensures OnlyClientCalls(Exec(START, ls).sent) && NoUnknowns(Exec(START, ls).side.outbox)
  {
    if ls != [] {
      hide OnlyClientCalls, NoUnknowns, Next;
      var front, last := ls[..|ls| - 1], ls[|ls| - 1];
      assert last in ls && forall l <- front :: l in ls;
      EveryCallIsKnown(front);
      CallsStep(Exec(START, front), last);
    }
  }

  /** So what a call of theirs returns says whether its handler returned or raised, and nothing else. */
  lemma CallsTellOutcome(ls: seq<Label>, g: (nat, Out))
    requires (forall l <- ls :: l.Call? ==> l.cmd in CLIENT_CALLS) && g in Exec(START, ls).got
    ensures Wire(g.1).ok == Some(true) <==> (g.0, true) in Ends(ls)
    ensures Wire(g.1).ok == Some(false) <==> (g.0, false) in Ends(ls)
  {
    RepliesTell(ls, g);
    EveryCallIsKnown(ls);
    EveryReplyTells(ls);
    hide Wire;
    assert Tells(g.1, Ends(ls)) && g.1.verdict != Unknown;
  }
}
