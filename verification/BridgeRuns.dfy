/**
 * Runs of the whole bridge: any number of clients, each free to send anything at any time, over
 * sessions interleaved in every way. What holds of every state such a run can reach.
 */
module BridgeRuns {
  import opened Bytes
  import opened SessionSteps

  /** One accepted connection: its session, and the requests written to it but not yet read. */
  datatype Conn = Conn(side: Side, inbox: seq<Request>)

  /** `active` is `Bridge.session_active`. */
  datatype Net = Net(conns: seq<Conn>, active: bool, nextId: nat)

  datatype Label =
    | Connect
    | Send(i: nat, cmd: Cmd)
    | Admit(i: nat)
    | ReadOne(i: nat)
    | Push(i: nat)
    | Done(i: nat, ok: bool)
    | LoopEnd(i: nat)
    | Leave(i: nat)

  const START := Net([], false, 0)

  predicate Enabled(n: Net, l: Label) {
    l.Connect? || (l.i < |n.conns| &&
      var c := n.conns[l.i];
      match l
      case Send(_, _) => true
      case Admit(_) => c.side.phase == Arrived
      case ReadOne(_) => c.side.phase == Active && c.inbox != []
      case Push(_) => c.side.pending.Some?
      case Done(_, _) => c.side.pending.Some?
      case LoopEnd(_) => c.side.phase == Active
      case Leave(_) => c.side.phase == Draining && c.side.pending.None?)
  }

  /** The connection a step is about, after the step. */
  function ConnStep(c: Conn, active: bool, nextId: nat, l: Label): Conn
    requires !l.Connect?
    requires l.ReadOne? ==> c.inbox != []
    requires l.Push? || l.Done? ==> c.side.pending.Some?
  {
    match l
    case Send(_, cmd) => c.(inbox := c.inbox + [Request(nextId, cmd)])
    case Admit(_) => c.(side := OnAdmit(c.side, active))
    case ReadOne(_) => Conn(OnRequest(c.side, c.inbox[0]), c.inbox[1..])
    case Push(_) => c.(side := OnPush(c.side))
    case Done(_, ok) => c.(side := OnDone(c.side, ok))
    case LoopEnd(_) => c.(side := OnLoopEnd(c.side))
    case Leave(_) => c.(side := OnGone(c.side))
  }

  function Next(n: Net, l: Label): Net {
    if !Enabled(n, l) then n
    else if l.Connect? then n.(conns := n.conns + [Conn(NEW_SIDE, [])])
    else
      n.(conns := n.conns[l.i := ConnStep(n.conns[l.i], n.active, n.nextId, l)],
         active := if l.Admit? then true else if l.Leave? then false else n.active,
         nextId := if l.Send? then n.nextId + 1 else n.nextId)
  }

  function Exec(n: Net, ls: seq<Label>): Net {
    if ls == [] then n else Next(Exec(n, ls[..|ls| - 1]), ls[|ls| - 1])
  }

  function InboxIds(rs: seq<Request>): seq<nat> {
    if rs == [] then [] else [rs[0].id] + InboxIds(rs[1..])
  }

  ghost predicate ConnInv(c: Conn, nextId: nat) {
    && SideInv(c.side)
    && Distinct(c.side.read + InboxIds(c.inbox))
    && (forall x :: x in c.side.read + InboxIds(c.inbox) ==> x < nextId)
  }

  /** At most one session is past admission and not yet gone, and the flag says whether one is. */
  ghost predicate Exclusive(n: Net) {
    && (forall i :: 0 <= i < |n.conns| && Running(n.conns[i].side) ==> n.active)
    && (forall i, j :: 0 <= i < j < |n.conns| && Running(n.conns[i].side) ==> !Running(n.conns[j].side))
    && (n.active ==> exists i :: 0 <= i < |n.conns| && Running(n.conns[i].side))
  }

  ghost predicate NetInv(n: Net) {
    && (forall i :: 0 <= i < |n.conns| ==> ConnInv(n.conns[i], n.nextId))
    && Exclusive(n)
  }

  lemma {:induction false} InboxSnoc(rs: seq<Request>, r: Request)
    ensures InboxIds(rs + [r]) == InboxIds(rs) + [r.id]
  {
    if rs != [] {
      assert (rs + [r])[1..] == rs[1..] + [r];
      InboxSnoc(rs[1..], r);
    }
  }

  lemma DistinctFront(a: seq<nat>, b: seq<nat>)
    requires Distinct(a + b)
    ensures Distinct(a)
  {
    forall x
      ensures multiset(a)[x] <= 1
    {
      assert multiset(a + b)[x] == multiset(a)[x] + multiset(b)[x];
    }
  }

  /** A fresh id keeps all ids distinct. */
  lemma SendKeeps(c: Conn, nextId: nat, cmd: Cmd)
    requires ConnInv(c, nextId)
    ensures ConnInv(c.(inbox := c.inbox + [Request(nextId, cmd)]), nextId + 1)
  {
    hide SideInv, InboxIds, Distinct;
    InboxSnoc(c.inbox, Request(nextId, cmd));
    var ids := c.side.read + InboxIds(c.inbox);
    assert c.side.read + (InboxIds(c.inbox) + [nextId]) == ids + [nextId];
    DistinctSnoc(ids, nextId);
  }

  lemma DistinctSnoc(ids: seq<nat>, id: nat)
    requires Distinct(ids) && id !in ids
    ensures Distinct(ids + [id])
  {
    assert multiset(ids + [id]) == multiset(ids) + multiset{id};
  }

  lemma ReadKeeps(c: Conn, nextId: nat)
    requires ConnInv(c, nextId) && c.side.phase == Active && c.inbox != []
    ensures ConnInv(Conn(OnRequest(c.side, c.inbox[0]), c.inbox[1..]), nextId)
  {
    RequestKeeps(c.side, c.inbox[0]);
    var id, later := c.inbox[0].id, InboxIds(c.inbox[1..]);
    assert InboxIds(c.inbox) == [id] + later;
    ReadMoves(c.side.read, id, later);
    ReadRecorded(c.side, c.inbox[0]);
    hide SideInv, Distinct, OnRequest, InboxIds;
  }

  lemma ReadMoves(read: seq<nat>, id: nat, later: seq<nat>)
    ensures (read + [id]) + later == read + ([id] + later)
  {
  }

  lemma ReadRecorded(s: Side, r: Request)
    ensures OnRequest(s, r).read == s.read + [r.id]
  {
  }

  lemma ConnKeeps(c: Conn, active: bool, nextId: nat, l: Label)
    requires ConnInv(c, nextId) && !l.Connect?
    requires Enabled(Net([c], active, nextId), l.(i := 0))
    ensures ConnInv(ConnStep(c, active, nextId, l), if l.Send? then nextId + 1 else nextId)
  {
    hide SideInv, Distinct, InboxIds;
    match l
    case Send(_, cmd) => SendKeeps(c, nextId, cmd);
    case ReadOne(_) => ReadKeeps(c, nextId);
    case Push(_) =>
      DistinctFront(c.side.read, InboxIds(c.inbox));
      PushKeeps(c.side);
    case Done(_, ok) => DoneKeeps(c.side, ok);
    case LoopEnd(_) =>
      PhaseKeeps(c.side, Draining);
      SetAbortKeeps(c.side.(phase := Draining));
    case Admit(_) =>
      ArrivedIsIdle(c.side);
      PhaseKeeps(c.side, if active then Rejected else Active);
    case Leave(_) => PhaseKeeps(c.side, Gone);
  }

  lemma ArrivedIsIdle(s: Side)
    requires SideInv(s) && s.phase == Arrived
    ensures s.pending.None? && s.lost.None?
  {
  }

  /** Which steps start and stop a session. */
  lemma RunningStep(c: Conn, active: bool, nextId: nat, l: Label)
    requires !l.Connect? && Enabled(Net([c], active, nextId), l.(i := 0))
    ensures var d := ConnStep(c, active, nextId, l);
            && (l.Admit? ==> !Running(c.side) && (Running(d.side) <==> !active))
            && (l.Leave? ==> Running(c.side) && !Running(d.side))
            && (!l.Admit? && !l.Leave? ==> (Running(d.side) <==> Running(c.side)))
  {
  }

  lemma NextExclusive(n: Net, l: Label)
    requires Exclusive(n) && Enabled(n, l)
    ensures Exclusive(Next(n, l))
  {
    var m := Next(n, l);
    if l.Connect? {
      if n.active {
        var i :| 0 <= i < |n.conns| && Running(n.conns[i].side);
        assert m.conns[i] == n.conns[i];
      }
    } else {
      RunningStep(n.conns[l.i], n.active, n.nextId, l);
      hide ConnStep;
      if n.active && !l.Leave? {
        var i :| 0 <= i < |n.conns| && Running(n.conns[i].side);
        assert Running(m.conns[i].side);
      } else if l.Admit? {
        assert Running(m.conns[l.i].side);
      }
    }
  }

  lemma NewConn(nextId: nat)
    ensures ConnInv(Conn(NEW_SIDE, []), nextId)
  {
  }

  lemma LaterIds(c: Conn, nextId: nat, later: nat)
    requires ConnInv(c, nextId) && nextId <= later
    ensures ConnInv(c, later)
  {
    hide SideInv, Distinct;
  }

  lemma NextConn(n: Net, l: Label, j: nat)
    requires NetInv(n) && Enabled(n, l) && j < |Next(n, l).conns|
    ensures ConnInv(Next(n, l).conns[j], Next(n, l).nextId)
  {
    hide SideInv, Exclusive, ConnStep, ConnInv;
    if l.Connect? && j == |n.conns| {
      NewConn(n.nextId);
    } else {
      assert ConnInv(n.conns[j], n.nextId);
      if !l.Connect? && j == l.i {
        ConnKeeps(n.conns[j], n.active, n.nextId, l);
      } else {
        LaterIds(n.conns[j], n.nextId, Next(n, l).nextId);
      }
    }
  }

  lemma NextKeeps(n: Net, l: Label)
    requires NetInv(n)
    ensures NetInv(Next(n, l))
  {
    if Enabled(n, l) {
      NextExclusive(n, l);
      hide ConnInv, Exclusive;
      forall j | 0 <= j < |Next(n, l).conns|
        ensures ConnInv(Next(n, l).conns[j], Next(n, l).nextId)
      {
        NextConn(n, l, j);
      }
    }
  }

  lemma {:induction false} EveryRun(ls: seq<Label>)
    ensures NetInv(Exec(START, ls))
  {
    if ls != [] {
      EveryRun(ls[..|ls| - 1]);
      NextKeeps(Exec(START, ls[..|ls| - 1]), ls[|ls| - 1]);
    }
  }

  /**
   * In every run: at most one handler runs across all sessions; no session is admitted while
   * another still has a command pending; each request read has had exactly one reply, bar the one
   * pending and one whose command is an array or object, read with nothing pending, which is the
   * last its session reads; and no event of a command follows its reply.
   */
  lemma OneHandlerOneReply(ls: seq<Label>)
    ensures var n := Exec(START, ls);
            && (forall i, j :: 0 <= i < j < |n.conns| && n.conns[i].side.pending.Some? ==>
                  n.conns[j].side.pending.None?)
            && (!n.active ==> forall i :: 0 <= i < |n.conns| ==> n.conns[i].side.pending.None?)
            && (forall i :: 0 <= i < |n.conns| ==>
                  OneReplyEach(n.conns[i].side) && LostLast(n.conns[i].side) && EventsFirst(n.conns[i].side.outbox))
  {
    EveryRun(ls);
    var n := Exec(START, ls);
    assert forall i :: 0 <= i < |n.conns| ==> ConnInv(n.conns[i], n.nextId) && SideInv(n.conns[i].side);
  }

  /**
   * What a session owes when a step is taken: the event its handler pushes; at the end of a handler the
   * reply whether it returned or raised; to an abort its acknowledgement; to a request read while
   * another command is pending, that it is busy; and to one read with nothing pending that can be
   * looked up and has no handler, that it is unknown.
   */
  function OwedBy(c: Conn, l: Label): seq<Out>
    requires l.Done? || l.Push? ==> c.side.pending.Some?
    requires l.ReadOne? ==> c.inbox != []
  {
    if l.Push? then [Event(c.side.pending.value.id)]
    else if l.Done? then [Response(c.side.pending.value.id, c.side.pending.value.cmd, Finished(l.ok))]
    else if !l.ReadOne? then []
    else
      var r := c.inbox[0];
      if r.cmd == Text("abort") then [Ack(r.id)]
      else if c.side.pending.Some? then [Response(r.id, r.cmd, Busy)]
      else if !r.cmd.Compound? && !Known(r.cmd) then [Response(r.id, r.cmd, Unknown)]
      else []
  }

  function Owed(n: Net, l: Label, i: nat): seq<Out> {
    if Enabled(n, l) && !l.Connect? && l.i == i then OwedBy(n.conns[i], l) else []
  }

  function Due(ls: seq<Label>, i: nat): seq<Out> {
    if ls == [] then [] else Due(ls[..|ls| - 1], i) + Owed(Exec(START, ls[..|ls| - 1]), ls[|ls| - 1], i)
  }

  lemma ConnWrites(c: Conn, active: bool, nextId: nat, l: Label)
    requires !l.Connect? && Enabled(Net([c], active, nextId), l.(i := 0))
    ensures ConnStep(c, active, nextId, l).side.outbox == c.side.outbox + OwedBy(c, l)
  {
    assert c.side.outbox + [] == c.side.outbox;
  }

  lemma StepWrites(n: Net, l: Label, i: nat)
    requires i < |n.conns|
    ensures i < |Next(n, l).conns|
    ensures Next(n, l).conns[i].side.outbox == n.conns[i].side.outbox + Owed(n, l, i)
  {
    hide ConnStep, OwedBy;
    if Enabled(n, l) && !l.Connect? && l.i == i {
      ConnWrites(n.conns[i], n.active, n.nextId, l);
    }
    assert n.conns[i].side.outbox + [] == n.conns[i].side.outbox;
  }

  /**
   * In every run what a session has written is exactly what was due, in order: a handler that raised is
   * never answered ok, nor one that returned as failed, every event comes as it was pushed, and
   * nothing is refused as busy or unknown that is not.
   */
  lemma {:induction false} OutboxIsDue(ls: seq<Label>, i: nat)
    requires i < |Exec(START, ls).conns|
    ensures Exec(START, ls).conns[i].side.outbox == Due(ls, i)
  {
    hide Owed, Next;
    if ls == [] {
      NoConns();
    } else {
      var front, last := ls[..|ls| - 1], ls[|ls| - 1];
      if i < |Exec(START, front).conns| {
        OutboxIsDue(front, i);
        StepWrites(Exec(START, front), last, i);
      } else {
        NewIsSilent(front, last, i);
      }
    }
  }

  lemma NoConns()
    ensures Exec(START, []).conns == []
  {
  }

  /** A connection that has just come has written nothing, and nothing was due before. */
  lemma NewIsSilent(ls: seq<Label>, l: Label, i: nat)
    requires |Exec(START, ls).conns| <= i < |Next(Exec(START, ls), l).conns|
    ensures Next(Exec(START, ls), l).conns[i].side.outbox == [] == Due(ls, i)
    ensures Owed(Exec(START, ls), l, i) == []
  {
    NothingDue(ls, i);
  }

  lemma {:induction false} NothingDue(ls: seq<Label>, i: nat)
    requires |Exec(START, ls).conns| <= i
    ensures Due(ls, i) == []
  {
    if ls != [] {
      var front := ls[..|ls| - 1];
      ConnsGrow(Exec(START, front), ls[|ls| - 1]);
      NothingDue(front, i);
    }
  }

  lemma ConnsGrow(n: Net, l: Label)
    ensures |n.conns| <= |Next(n, l).conns|
  {
  }

  /** Whether an abort was read, or the loop ended, since the handler now running in session `i` started. */
  function AbortDue(ls: seq<Label>, i: nat): bool {
    if ls == [] then false
    else
      var front, l := ls[..|ls| - 1], ls[|ls| - 1];
      var n := Exec(START, front);
      if l.Connect? || l.i != i || !Enabled(n, l) then AbortDue(front, i)
      else if l.LoopEnd? then true
      else if l.ReadOne? && n.conns[i].inbox[0].cmd == Text("abort") then true
      else if l.ReadOne? && n.conns[i].side.pending.None? then false
      else AbortDue(front, i)
  }

  /** The handlers of session `i` that have ended, and whether an abort had reached them by then. */
  function EndsDue(ls: seq<Label>, i: nat): seq<(nat, bool)> {
    if ls == [] then []
    else
      var front, l := ls[..|ls| - 1], ls[|ls| - 1];
      var n := Exec(START, front);
      EndsDue(front, i) +
      if Enabled(n, l) && l.Done? && l.i == i then [(n.conns[i].side.pending.value.id, AbortDue(front, i))] else []
  }

  function EndsOf(log: seq<Entry>): seq<(nat, bool)> {
    if log == [] then []
    else
      var last := log[|log| - 1];
      EndsOf(log[..|log| - 1]) + if last.Ended? then [(last.id, last.aborted)] else []
  }

  lemma EndsSnoc(log: seq<Entry>, e: Entry)
    ensures EndsOf(log + [e]) == EndsOf(log) + if e.Ended? then [(e.id, e.aborted)] else []
  {
    assert (log + [e])[..|log|] == log;
  }

  /** What a step does to the pending command's abort event and to the ends in the log. */
  lemma StepAborts(c: Conn, active: bool, nextId: nat, l: Label, due: bool)
    requires !l.Connect? && Enabled(Net([c], active, nextId), l.(i := 0))
    requires c.side.pending.Some? ==> c.side.pending.value.aborted == due
    ensures var d := ConnStep(c, active, nextId, l);
            var now := if l.LoopEnd? || (l.ReadOne? && c.inbox[0].cmd == ABORT) then true
                       else if l.ReadOne? && c.side.pending.None? then false
                       else due;
            && (d.side.pending.Some? ==> d.side.pending.value.aborted == now)
            && EndsOf(d.side.log) == EndsOf(c.side.log) + if l.Done? then [(c.side.pending.value.id, due)] else []
  {
    hide EndsOf;
    var log, next := c.side.log, ConnStep(c, active, nextId, l).side.log;
    if |next| > |log| {
      EndsSnoc(log, next[|log|]);
      assert next == log + [next[|log|]];
    }
    assert EndsOf(log) + [] == EndsOf(log);
  }

  lemma NothingEnded(ls: seq<Label>, i: nat)
    requires |Exec(START, ls).conns| <= i
    ensures EndsDue(ls, i) == []
    decreases |ls|
  {
    if ls != [] {
      var front := ls[..|ls| - 1];
      ConnsGrow(Exec(START, front), ls[|ls| - 1]);
      NothingEnded(front, i);
    }
  }

  lemma NewHasNoLog(n: Net, l: Label, i: nat)
    requires |n.conns| <= i < |Next(n, l).conns|
    ensures Next(n, l).conns[i].side == NEW_SIDE && EndsOf(NEW_SIDE.log) == [] && l.Connect?
  {
  }

  /**
   * In every run: the abort event of the pending command is set exactly if an abort was read, or the
   * loop ended, since its handler started; and so it was for every handler that has ended.
   */
  lemma {:induction false} AbortsAreDue(ls: seq<Label>, i: nat)
    requires i < |Exec(START, ls).conns|
    ensures var s := Exec(START, ls).conns[i].side;
            && (s.pending.Some? ==> s.pending.value.aborted == AbortDue(ls, i))
            && EndsOf(s.log) == EndsDue(ls, i)
  {
    hide EndsOf, ConnStep, Enabled;
    if ls == [] {
      NoConns();
    } else {
      var front, l := ls[..|ls| - 1], ls[|ls| - 1];
      var n := Exec(START, front);
      if i >= |n.conns| {
        NewHasNoLog(n, l, i);
        NothingEnded(front, i);
      } else {
        AbortsAreDue(front, i);
        assert EndsDue(front, i) + [] == EndsDue(front, i);
        if Enabled(n, l) && !l.Connect? && l.i == i {
          EnabledAlone(n, l);
          StepAborts(n.conns[i], n.active, n.nextId, l, AbortDue(front, i));
        }
      }
    }
  }

  lemma EnabledAlone(n: Net, l: Label)
    requires Enabled(n, l) && !l.Connect?
    ensures l.i < |n.conns| && Enabled(Net([n.conns[l.i]], n.active, n.nextId), l.(i := 0))
    ensures (l.ReadOne? ==> n.conns[l.i].inbox != []) && (l.Push? || l.Done? ==> n.conns[l.i].side.pending.Some?)
  {
  }

  /**
   * In every run an abort reaches the command pending when it is read and no other: each handler
   * that ended did so aborted exactly if an abort was set after its start and before its end, and
   * between the two no other handler ran.
   */
  lemma AbortReachesOnlyThePending(ls: seq<Label>, i: nat, k: nat)
    requires i < |Exec(START, ls).conns|
    requires k < |Exec(START, ls).conns[i].side.log| && Exec(START, ls).conns[i].side.log[k].Ended?
    ensures var log := Exec(START, ls).conns[i].side.log;
            exists s :: 0 <= s < k && log[s] == Started(log[k].id)
              && (forall j :: s < j < k ==> log[j] == AbortSet)
              && (log[k].aborted <==> exists j :: s < j < k && log[j] == AbortSet)
  {
    EveryRun(ls);
    var c := Exec(START, ls).conns[i];
    assert ConnInv(c, Exec(START, ls).nextId);
    var open := if c.side.pending.Some? then Some(c.side.pending.value.id) else None;
    var s := Opening(c.side.log, open, k);
    Aborted(c.side.log, s, k);
  }

  /** The entries between a handler's end and its start are aborts. */
  lemma {:induction false} Opening(log: seq<Entry>, open: Option<nat>, k: nat) returns (s: nat)
    requires Alternates(log, open) && k < |log| && log[k].Ended?
    ensures s < k && log[s] == Started(log[k].id) && forall j :: s < j < k ==> log[j] == AbortSet
    decreases |log|
  {
    if k < |log| - 1 {
      var last := log[|log| - 1];
      s := Opening(log[..|log| - 1], if last.Started? then None else if last.AbortSet? then open else Some(last.id), k);
    } else {
      s := BackToStart(log[..k], log[k].id);
    }
  }

  lemma {:induction false} BackToStart(log: seq<Entry>, id: nat) returns (s: nat)
    requires Alternates(log, Some(id))
    ensures s < |log| && log[s] == Started(id) && forall j :: s < j < |log| ==> log[j] == AbortSet
    decreases |log|
  {
    if log[|log| - 1].Started? {
      s := |log| - 1;
    } else {
      s := BackToStart(log[..|log| - 1], id);
    }
  }

  lemma {:induction false} Aborted(log: seq<Entry>, s: nat, k: nat)
    requires s < k < |log| && log[s].Started? && log[k].Ended? && AbortsScoped(log)
    requires forall j :: s < j < k ==> log[j] == AbortSet
    ensures log[k].aborted <==> exists j :: s < j < k && log[j] == AbortSet
  {
    assert log[..k][|log[..k]| - 1] == log[k - 1];
    if s < k - 1 {
      assert log[k - 1] == AbortSet;
    }
  }
}
