/** The session object of `phomemo/bridge/session.py`: the steps of `SessionSteps`, on its fields. */
module SessionObject {
  import opened Bytes
  import opened SessionSteps

  /** An `asyncio.Event`; each command gets its own. */
  class AbortEvent {
    var isSet: bool

    constructor ()
      ensures !isSet
    {
      isSet := false;
    }

    method Set()
      modifies this
      ensures isSet
    {
      isSet := true;
    }
  }

  /** `Bridge.session_active`, shared by all sessions. */
  class BridgeFlag {
    var sessionActive: bool

    constructor ()
      ensures !sessionActive
    {
      sessionActive := false;
    }
  }

  class Session {
    const bridge: BridgeFlag
    var phase: Phase
    var pendingCmd: Option<Cmd>
    var pendingId: nat
    var abort: AbortEvent
    var written: seq<Out>
    ghost var read: seq<nat>
    ghost var lost: Option<Request>
    ghost var log: seq<Entry>

    /** The session as a value: the pending command is aborted when its own event is set. */
    ghost function AsSide(): Side
      reads this, abort
    {
      Side.Side(phase, if pendingCmd.Some? then Some(Pending(pendingId, pendingCmd.value, abort.isSet)) else None,
                written, read, lost, log)
    }

    constructor (b: BridgeFlag)
      ensures AsSide() == NEW_SIDE && bridge == b && fresh(abort)
    {
      bridge := b;
      phase := Arrived;
      pendingCmd := None;
      pendingId := 0;
      abort := new AbortEvent();
      written := [];
      read := [];
      lost := None;
      log := [];
    }

    /** The head of `run`. */
    method Admit()
      requires phase == Arrived && pendingCmd.None?
      modifies this, bridge
      ensures AsSide() == OnAdmit(old(AsSide()), old(bridge.sessionActive))
      ensures bridge.sessionActive && abort == old(abort)
    {
      if bridge.sessionActive {
        phase := Rejected;
        return;
      }
      bridge.sessionActive := true;
      phase := Active;
    }

    /** `_request_abort`. With nothing pending the event set is one no later command will see. */
    method RequestAbort()
      modifies this, abort
      ensures AsSide() == SetAbort(old(AsSide())) && abort == old(abort)
      ensures bridge.sessionActive == old(bridge.sessionActive)
    {
      abort.Set();
      if pendingCmd.Some? {
        log := log + [AbortSet];
      }
    }

    /** One turn of `_loop`. A new command starts with an event of its own. */
    method HandleRequest(r: Request)
      requires phase == Active
      modifies this, abort
      ensures AsSide() == OnRequest(old(AsSide()), r)
      ensures r.cmd == ABORT ==> written == old(written) + [Ack(r.id)]
      ensures r.cmd != ABORT && old(pendingCmd).Some? ==> written == old(written) + [Response(r.id, r.cmd, Busy)]
      ensures r.cmd != ABORT && old(pendingCmd).None? ==>
                && (Known(r.cmd) ==> written == old(written) && pendingCmd == Some(r.cmd) && pendingId == r.id)
                && (!Known(r.cmd) && !r.cmd.Compound? ==> written == old(written) + [Response(r.id, r.cmd, Unknown)])
                && (r.cmd.Compound? ==> written == old(written) && phase == Draining && lost == Some(r))
      ensures abort == old(abort) || fresh(abort)
      ensures old(pendingCmd).None? && pendingCmd.Some? ==> fresh(abort)
      ensures r.cmd != ABORT ==> old(abort).isSet == old(abort.isSet)
    {
      read := read + [r.id];
      if r.cmd == ABORT {
        RequestAbort();
        written := written + [Ack(r.id)];
        return;
      }
      if pendingCmd.Some? {
        written := written + [Response(r.id, r.cmd, Busy)];
        return;
      }
      if r.cmd.Compound? {
        // The lookup raises, and with it the loop ends.
        lost := Some(r);
        phase := Draining;
        return;
      }
      if !Known(r.cmd) {
        written := written + [Response(r.id, r.cmd, Unknown)];
        return;
      }
      pendingCmd := Some(r.cmd);
      pendingId := r.id;
      abort := new AbortEvent();
      log := log + [Started(r.id)];
    }

    /** `_push` and `_event` from the running handler. */
    method PushEvent()
      requires pendingCmd.Some?
      modifies this
      ensures AsSide() == OnPush(old(AsSide())) && abort == old(abort)
    {
      written := written + [Event(pendingId)];
    }

    /** The end of `_run_command` and its done callback. */
    method FinishCommand(ok: bool)
      requires pendingCmd.Some?
      modifies this
      ensures AsSide() == OnDone(old(AsSide()), ok) && abort == old(abort)
      ensures written == old(written) + [Response(old(pendingId), old(pendingCmd.value), Finished(ok))]
    {
      written := written + [Response(pendingId, pendingCmd.value, Finished(ok))];
      log := log + [Ended(pendingId, abort.isSet)];
      pendingCmd := None;
    }

    /** `_loop` has returned. */
    method EndLoop()
      requires phase == Active
      modifies this, abort
      ensures AsSide() == OnLoopEnd(old(AsSide())) && abort == old(abort)
    {
      phase := Draining;
      if pendingCmd.Some? {
        RequestAbort();
      }
    }

    /** The rest of `run`, reached only once nothing is pending. */
    method Leave()
      requires phase == Draining && pendingCmd.None?
      modifies this, bridge
      ensures AsSide() == OnGone(old(AsSide())) && !bridge.sessionActive && abort == old(abort)
    {
      bridge.sessionActive := false;
      phase := Gone;
    }

    /** The running handler gets on: it pushes events, and it may come to its end. */
    method HandlerRuns(ends: bool)
      requires SideInv(AsSide()) && Distinct(read)
      modifies this
      ensures SideInv(AsSide()) && abort == old(abort) && abort.isSet == old(abort.isSet)
      ensures phase == old(phase) && read == old(read) && lost == old(lost) && old(written) <= written
      ensures pendingCmd.Some? ==> old(pendingCmd).Some? && !ends
    {
      hide SideInv, Distinct;
      var events: nat, ok: bool := *, *;
      while events > 0 && pendingCmd.Some?
        invariant SideInv(AsSide()) && abort == old(abort) && abort.isSet == old(abort.isSet)
        invariant phase == old(phase) && read == old(read) && lost == old(lost) && old(written) <= written
        invariant pendingCmd == old(pendingCmd)
      {
        PushKeeps(AsSide());
        PushEvent();
        events := events - 1;
      }
      if ends && pendingCmd.Some? {
        DoneKeeps(AsSide(), ok);
        FinishCommand(ok);
      }
    }

    /** The turns of `_loop`, with handlers running between them, until the messages or the loop end. */
    method Loop(inbox: seq<Request>)
      requires phase == Active && SideInv(AsSide()) && read == [] && lost.None? && Distinct(Ids(inbox))
      modifies this, abort
      ensures SideInv(AsSide()) && phase in {Active, Draining} && (abort == old(abort) || fresh(abort))
      ensures ReadFrom(inbox, read, lost) && (phase == Active <==> lost.None?)
    {
      hide SideInv;
      var i := 0;
      while i < |inbox| && phase == Active
        invariant 0 <= i <= |inbox| && phase in {Active, Draining} && (abort == old(abort) || fresh(abort))
        invariant SideInv(AsSide()) && read == Ids(inbox[..i]) && (phase == Active <==> lost.None?)
        invariant lost.Some? ==> i > 0 && lost == Some(inbox[i - 1]) && inbox[i - 1].cmd.Compound?
      {
        DistinctFront(inbox, i);
        var ends: bool := *;
        HandlerRuns(ends);
        RequestKeeps(AsSide(), inbox[i]);
        LostStep(AsSide(), inbox[i]);
        HandleRequest(inbox[i]);
        IdsNext(inbox, i);
        i := i + 1;
      }
      assert read == Ids(inbox[..i]);
    }

    /**
     * `run`, over all messages that come. While another session is active it only answers that it is
     * busy. Else it leaves once nothing is pending, with the flag released: every request read has its
     * one reply, unless its lookup raised, which ended the loop; else all requests were read.
     */
    method Run(inbox: seq<Request>)
      requires AsSide() == NEW_SIDE && Distinct(Ids(inbox))
      modifies this, bridge, abort
      ensures phase == Rejected <==> old(bridge.sessionActive)
      ensures phase == Rejected ==> bridge.sessionActive && read == [] && log == []
      ensures phase != Rejected ==>
                && phase == Gone && pendingCmd.None? && !bridge.sessionActive
                && ReadFrom(inbox, read, lost)
                && multiset(read) == multiset(Answers(written)) + multiset(LostIds(lost))
                && EventsFirst(written) && AbortsScoped(log) && Alternates(log, None)
    {
      NewSideKeeps();
      hide SideInv, EventsFirst, AbortsScoped, Alternates, Answers;
      Admit();
      if phase == Rejected {
        return;
      }
      PhaseKeeps(NEW_SIDE, Active);
      Loop(inbox);
      if phase == Active {
        PhaseKeeps(AsSide(), Draining);
        SetAbortKeeps(AsSide().(phase := Draining));
        EndLoop();
      }
      DistinctRead(inbox, read, lost);
      HandlerRuns(true);
      PhaseKeeps(AsSide(), Gone);
      Leave();
      AllAnswered(AsSide());
    }
  }

  function Ids(rs: seq<Request>): seq<nat> { seq(|rs|, i requires 0 <= i < |rs| => rs[i].id) }

  /** What a session has read: all that came, or all up to a request whose lookup raised. */
  ghost predicate ReadFrom(inbox: seq<Request>, read: seq<nat>, lost: Option<Request>) {
    && |read| <= |inbox| && read == Ids(inbox[..|read|])
    && (lost.None? ==> |read| == |inbox|)
    && (lost.Some? ==> |read| > 0 && lost == Some(inbox[|read| - 1]) && lost.value.cmd.Compound?)
  }

  lemma IdsNext(rs: seq<Request>, i: nat)
    requires i < |rs|
    ensures Ids(rs[..i + 1]) == Ids(rs[..i]) + [rs[i].id]
  {
  }

  lemma DistinctFront(rs: seq<Request>, i: nat)
    requires i <= |rs| && Distinct(Ids(rs))
    ensures Distinct(Ids(rs[..i]))
  {
    assert Ids(rs) == Ids(rs[..i]) + Ids(rs[i..]);
    forall x
      ensures multiset(Ids(rs[..i]))[x] <= 1
    {
      assert multiset(Ids(rs))[x] == multiset(Ids(rs[..i]))[x] + multiset(Ids(rs[i..]))[x];
    }
  }

  lemma DistinctRead(rs: seq<Request>, read: seq<nat>, lost: Option<Request>)
    requires ReadFrom(rs, read, lost) && Distinct(Ids(rs))
    ensures Distinct(read)
  {
    DistinctFront(rs, |read|);
  }

  lemma AllAnswered(s: Side)
    requires SideInv(s) && s.pending.None?
    ensures multiset(s.read) == multiset(Answers(s.outbox)) + multiset(LostIds(s.lost))
    ensures EventsFirst(s.outbox) && AbortsScoped(s.log) && Alternates(s.log, None)
  {
    hide Answers, EventsFirst, AbortsScoped, Alternates, AbortedSince;
  }
}
