/**
 * One bridge session (`phomemo/bridge/session.py`) as a value: the command loop, the pending
 * command and its abort event, and what every step of them keeps.
 */
module SessionSteps {
  import opened Bytes

  /**
   * The "cmd" member: a string; another value that can be looked up in a dictionary, or none; or an
   * array or object, which cannot.
   */
  datatype Cmd = Text(name: string) | Scalar | Compound

  const ABORT := Text("abort")

  /** A request as read; `id` tells requests apart and is not on the wire. */
  datatype Request = Request(id: nat, cmd: Cmd)

  datatype Verdict = Busy | Unknown | Finished(ok: bool)

  /** What the session writes: an event of a command, an abort's acknowledgement, or a reply. */
  datatype Out = Event(of: nat) | Ack(of: nat) | Response(of: nat, cmd: Cmd, verdict: Verdict)

  /** The session's history of its handlers and of what reached their abort events. */
  datatype Entry = Started(id: nat) | AbortSet | Ended(id: nat, aborted: bool)

  datatype Phase = Arrived | Rejected | Active | Draining | Gone

  datatype Pending = Pending(id: nat, cmd: Cmd, aborted: bool)

  /** `lost` is a request whose lookup raised: it ended the loop and got no reply. */
  datatype Side = Side(phase: Phase, pending: Option<Pending>, outbox: seq<Out>, read: seq<nat>, lost: Option<Request>,
                       log: seq<Entry>)

  const NEW_SIDE := Side(Arrived, None, [], [], None, [])

  const HANDLERS: set<string> := {
    "discover", "open", "close", "disconnect", "status", "info", "auto_off", "identify", "test_page",
    "wait_ready", "page_begin", "lines", "page_end", "eject" }

  /** The commands `_handlers` knows. */
  predicate Known(cmd: Cmd) { cmd.Text? && cmd.name in HANDLERS }

  predicate Running(s: Side) { s.phase == Active || s.phase == Draining }

  /** `run`: the answer to a second client, or the start of the loop. */
  function OnAdmit(s: Side, busy: bool): Side {
    s.(phase := if busy then Rejected else Active)
  }

  /** `_request_abort`: sets the abort event of the pending command, if there is one. */
  function SetAbort(s: Side): Side {
    if s.pending.Some? then s.(pending := Some(s.pending.value.(aborted := true)), log := s.log + [AbortSet]) else s
  }

  /**
   * One turn of `_loop` with a message that is an object. Looking up an array or object raises an
   * error nobody catches, and the loop is over.
   */
  function OnRequest(s: Side, r: Request): Side {
    var s := s.(read := s.read + [r.id]);
    if r.cmd == ABORT then
      var t := SetAbort(s);
      t.(outbox := t.outbox + [Ack(r.id)])
    else if s.pending.Some? then s.(outbox := s.outbox + [Response(r.id, r.cmd, Busy)])
    else if r.cmd.Compound? then s.(phase := Draining, lost := Some(r))
    else if !Known(r.cmd) then s.(outbox := s.outbox + [Response(r.id, r.cmd, Unknown)])
    else s.(pending := Some(Pending(r.id, r.cmd, false)), log := s.log + [Started(r.id)])
  }

  /** The running handler pushes an event. */
  function OnPush(s: Side): Side
    requires s.pending.Some?
  {
    s.(outbox := s.outbox + [Event(s.pending.value.id)])
  }

  /** The handler returns or raises: its one reply, and nothing is pending any more. */
  function OnDone(s: Side, ok: bool): Side
    requires s.pending.Some?
  {
    var p := s.pending.value;
    s.(pending := None, outbox := s.outbox + [Response(p.id, p.cmd, Finished(ok))],
       log := s.log + [Ended(p.id, p.aborted)])
  }

  /** `_loop` returns (end of stream, broken stream or malformed message): abort what is pending. */
  function OnLoopEnd(s: Side): Side {
    SetAbort(s.(phase := Draining))
  }

  /** The end of `run`, once nothing is pending. */
  function OnGone(s: Side): Side { s.(phase := Gone) }

  // ------------------------------------------------------------------
  // What the steps keep
  // ------------------------------------------------------------------

  /** Ids answered so far: acknowledgements and replies, in order. */
  function Answers(outs: seq<Out>): seq<nat> {
    if outs == [] then [] else
      Answers(outs[..|outs| - 1]) + (if outs[|outs| - 1].Event? then [] else [outs[|outs| - 1].of])
  }

  function PendingIds(p: Option<Pending>): seq<nat> { if p.Some? then [p.value.id] else [] }

  lemma AnswersSnoc(outs: seq<Out>, o: Out)
    ensures Answers(outs + [o]) == Answers(outs) + (if o.Event? then [] else [o.of])
  {
    assert (outs + [o])[..|outs|] == outs;
  }

  function LostIds(r: Option<Request>): seq<nat> { if r.Some? then [r.value.id] else [] }

  /** Every request read is answered exactly once, except the one still pending and the one lost. */
  ghost predicate OneReplyEach(s: Side) {
    multiset(s.read) == multiset(Answers(s.outbox)) + multiset(PendingIds(s.pending)) + multiset(LostIds(s.lost))
  }

  /** A lost request is an array or object, found nothing pending, and was the last one read. */
  ghost predicate LostLast(s: Side) {
    s.lost.Some? ==>
      && s.lost.value.cmd.Compound? && s.read != [] && s.read[|s.read| - 1] == s.lost.value.id
      && s.pending.None? && (s.phase == Draining || s.phase == Gone)
  }

  /** No event of a command comes after its reply. */
  ghost predicate EventsFirst(outs: seq<Out>) {
    forall j, k :: 0 <= j < k < |outs| && !outs[j].Event? && outs[k].Event? ==> outs[j].of != outs[k].of
  }

  /** Handlers run one at a time, and `open` is the one still running. */
  ghost predicate Alternates(log: seq<Entry>, open: Option<nat>) {
    if log == [] then open.None?
    else
      var front, last := log[..|log| - 1], log[|log| - 1];
      match last
      case Started(id) => open == Some(id) && Alternates(front, None)
      case AbortSet => open.Some? && Alternates(front, open)
      case Ended(id, _) => open.None? && Alternates(front, Some(id))
  }

  /** Whether an abort was set since the last handler started. */
  function AbortedSince(log: seq<Entry>): bool {
    if log == [] then false
    else
      match log[|log| - 1]
      case Started(_) => false
      case AbortSet => true
      case Ended(_, _) => false
  }

  /** A handler ends aborted exactly if an abort was set while it, and no other, was running. */
  ghost predicate AbortsScoped(log: seq<Entry>) {
    forall k :: 0 <= k < |log| && log[k].Ended? ==> log[k].aborted == AbortedSince(log[..k])
  }

  ghost predicate SideInv(s: Side) {
    && OneReplyEach(s) && LostLast(s)
    && EventsFirst(s.outbox)
    && Alternates(s.log, if s.pending.Some? then Some(s.pending.value.id) else None)
    && AbortsScoped(s.log)
    && (s.pending.Some? ==> s.pending.value.aborted == AbortedSince(s.log))
    && (s.pending.Some? ==> Running(s))
    && (s.phase == Arrived ==> s.pending.None?)
  }

  ghost predicate Distinct(ids: seq<nat>) { forall x :: multiset(ids)[x] <= 1 }

  lemma LogSnoc(log: seq<Entry>, e: Entry)
    ensures (log + [e])[..|log|] == log && (log + [e])[|log + [e]| - 1] == e
    ensures AbortsScoped(log) && (e.Ended? ==> e.aborted == AbortedSince(log)) ==> AbortsScoped(log + [e])
  {
    assert (log + [e])[..|log|] == log;
    forall k | AbortsScoped(log) && 0 <= k < |log| && log[k].Ended?
      ensures (log + [e])[k].aborted == AbortedSince((log + [e])[..k])
    {
      assert (log + [e])[..k] == log[..k];
    }
  }

  lemma SetAbortKeeps(s: Side)
    requires SideInv(s) && Running(s)
    ensures SideInv(SetAbort(s)) && SetAbort(s).outbox == s.outbox && SetAbort(s).read == s.read
  {
    LogSnoc(s.log, AbortSet);
  }

  lemma EventsFirstSnoc(outs: seq<Out>, o: Out)
    requires EventsFirst(outs) && (o.Event? ==> forall x :: x in outs && !x.Event? ==> x.of != o.of)
    ensures EventsFirst(outs + [o])
  {
  }

  /** Reading a request and answering it at once. */
  lemma AnswerKeeps(s: Side, o: Out)
    requires SideInv(s) && !o.Event? && s.phase == Active
    ensures SideInv(s.(read := s.read + [o.of], outbox := s.outbox + [o]))
  {
    hide Alternates, AbortsScoped, AbortedSince, Answers, EventsFirst;
    AnswersSnoc(s.outbox, o);
    assert multiset(s.read + [o.of]) == multiset(s.read) + multiset{o.of};
    assert multiset(Answers(s.outbox) + [o.of]) == multiset(Answers(s.outbox)) + multiset{o.of};
    EventsFirstSnoc(s.outbox, o);
  }

  /** Reading a request that ends the loop. */
  lemma LoseKeeps(s: Side, r: Request)
    requires SideInv(s) && s.phase == Active && s.pending.None? && r.cmd.Compound?
    ensures SideInv(s.(read := s.read + [r.id], phase := Draining, lost := Some(r)))
  {
    hide Alternates, AbortsScoped, AbortedSince, Answers, EventsFirst;
    assert multiset(s.read + [r.id]) == multiset(s.read) + multiset{r.id};
  }

  lemma StartKeeps(s: Side, id: nat, cmd: Cmd)
    requires SideInv(s) && s.phase == Active && s.pending.None?
    ensures SideInv(s.(read := s.read + [id], pending := Some(Pending(id, cmd, false)), log := s.log + [Started(id)]))
  {
    hide AbortsScoped, Answers, EventsFirst;
    LogSnoc(s.log, Started(id));
    assert multiset(s.read + [id]) == multiset(s.read) + multiset{id};
  }

  lemma RequestKeeps(s: Side, r: Request)
    requires SideInv(s) && s.phase == Active
    ensures SideInv(OnRequest(s, r))
  {
    hide SideInv;
    if r.cmd == ABORT {
      SetAbortKeeps(s);
      AnswerKeeps(SetAbort(s), Ack(r.id));
    } else if s.pending.Some? {
      AnswerKeeps(s, Response(r.id, r.cmd, Busy));
    } else if r.cmd.Compound? {
      LoseKeeps(s, r);
    } else if !Known(r.cmd) {
      AnswerKeeps(s, Response(r.id, r.cmd, Unknown));
    } else {
      StartKeeps(s, r.id, r.cmd);
    }
  }

  /** A request read gets its reply, now or when its handler ends, exactly unless it is lost. */
  lemma LostIff(s: Side, r: Request)
    requires SideInv(s) && s.phase == Active
    ensures OnRequest(s, r).lost == Some(r) <==> r.cmd.Compound? && s.pending.None?
    ensures OnRequest(s, r).lost != Some(r) ==>
              OnRequest(s, r).lost.None? && OnRequest(s, r).phase == Active
              && multiset(Answers(OnRequest(s, r).outbox)) + multiset(PendingIds(OnRequest(s, r).pending))
                 == multiset(Answers(s.outbox)) + multiset(PendingIds(s.pending)) + multiset{r.id}
  {
    LostStep(s, r);
    RequestKeeps(s, r);
    hide OnRequest;
    Counted(s);
    if OnRequest(s, r).lost.None? {
      Counted(OnRequest(s, r));
      assert multiset(s.read + [r.id]) == multiset(s.read) + multiset{r.id};
    }
    hide SideInv;
  }

  lemma LostStep(s: Side, r: Request)
    requires s.phase == Active
    ensures OnRequest(s, r).read == s.read + [r.id]
    ensures OnRequest(s, r).lost == if r.cmd.Compound? && s.pending.None? then Some(r) else s.lost
    ensures OnRequest(s, r).phase == if r.cmd.Compound? && s.pending.None? then Draining else Active
  {
  }

  lemma Counted(s: Side)
    requires SideInv(s)
    ensures s.lost.None? ==> multiset(s.read) == multiset(Answers(s.outbox)) + multiset(PendingIds(s.pending))
    ensures s.phase == Active ==> s.lost.None?
  {
    hide Answers, Alternates, AbortsScoped, EventsFirst, AbortedSince;
  }

  /** Ids already answered are not pending, so an event never follows its command's reply. */
  lemma PushKeeps(s: Side)
    requires SideInv(s) && s.pending.Some? && Distinct(s.read)
    ensures SideInv(OnPush(s))
  {
    var id := s.pending.value.id;
    AnswersSnoc(s.outbox, Event(id));
    assert multiset(s.read)[id] == multiset(Answers(s.outbox))[id] + 1;
    assert id !in Answers(s.outbox);
    NotAnswered(s.outbox, id);
  }

  lemma {:induction false} NotAnswered(outs: seq<Out>, id: nat)
    requires id !in Answers(outs)
    ensures forall o :: o in outs && !o.Event? ==> o.of != id
  {
    if outs != [] {
      var front, last := outs[..|outs| - 1], outs[|outs| - 1];
      assert outs == front + [last];
      assert Answers(outs) == Answers(front) + (if last.Event? then [] else [last.of]);
      assert !last.Event? ==> last.of in Answers(outs);
      assert forall x :: x in Answers(front) ==> x in Answers(outs);
      NotAnswered(front, id);
    }
  }

  lemma DoneKeeps(s: Side, ok: bool)
    requires SideInv(s) && s.pending.Some?
    ensures SideInv(OnDone(s, ok))
  {
    var p := s.pending.value;
    AnswersSnoc(s.outbox, Response(p.id, p.cmd, Finished(ok)));
    LogSnoc(s.log, Ended(p.id, p.aborted));
  }

  lemma PhaseKeeps(s: Side, phase: Phase)
    requires SideInv(s) && phase != Arrived && (s.pending.None? || phase == Active || phase == Draining)
    requires s.lost.None? || phase == Draining || phase == Gone
    ensures SideInv(s.(phase := phase))
  {
    hide EventsFirst, Alternates, AbortsScoped, AbortedSince, Answers;
  }

  lemma NewSideKeeps()
    ensures SideInv(NEW_SIDE)
  {
    assert multiset(NEW_SIDE.read) == multiset{};
  }
}
