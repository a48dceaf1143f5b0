/** Routing of events to callbacks and typed waiters (`_dispatch_event`, `_wait_for` of `printer.py`). */
module Dispatch {
  import opened Bytes
  import opened Events

  /** The event classes a waiter can ask for; `AnyEvent` is the base class. */
  datatype Kind = AnyEvent | LidKind | PaperKind | BatteryKind | SerialKind | TimerKind | MotorKind | FirmwareKind

  predicate IsInstance(e: Event, k: Kind) {
    match k
    case AnyEvent => true
    case LidKind => e.Lid?
    case PaperKind => e.Paper?
    case BatteryKind => e.Battery?
    case SerialKind => e.ShortSerial? || e.AsciiSerial?
    case TimerKind => e.Timer?
    case MotorKind => e.MotorStop?
    case FirmwareKind => e.Firmware?
  }

  /** An entry of `_waiters`; waiters are numbered in the order they register. */
  datatype Waiter = Waiter(id: nat, kind: Kind, done: bool)

  /** A waiter's future was given the event with this number. */
  datatype Completion = Completion(waiter: nat, kind: Kind, event: nat)

  /** The printer's lists, and what has come to whom so far. */
  datatype Desk = Desk(waiters: seq<Waiter>, callbacks: seq<nat>, next: nat, events: seq<Event>,
                       completed: seq<Completion>, heard: seq<(nat, nat)>)

  const NEW_DESK := Desk([], [], 0, [], [], [])

  predicate Waiting(w: Waiter, e: Event) { !w.done && IsInstance(e, w.kind) }

  /** The first entry still waiting for such an event, or the length of the list. */
  function FirstWaiting(ws: seq<Waiter>, e: Event): (i: nat)
    ensures i <= |ws|
    ensures i < |ws| ==> Waiting(ws[i], e)
    ensures forall j :: 0 <= j < i ==> !Waiting(ws[j], e)
  {
    if ws == [] || Waiting(ws[0], e) then 0 else
      var i := FirstWaiting(ws[1..], e);
      assert forall j :: 0 < j <= i ==> ws[j] == ws[1..][j - 1] || j == |ws|;
      1 + i
  }

  function Told(callbacks: seq<nat>, event: nat): seq<(nat, nat)> {
    seq(|callbacks|, i requires 0 <= i < |callbacks| => (callbacks[i], event))
  }

  // ------------------------------------------------------------------
  // Steps
  // ------------------------------------------------------------------

  function OnListen(d: Desk, callback: nat): Desk { d.(callbacks := d.callbacks + [callback]) }

  /** A callback leaves the list, the first of its kind if it is there more than once. */
  function OnUnlisten(d: Desk, callback: nat): Desk { d.(callbacks := Removed(d.callbacks, callback)) }

  function Removed(cs: seq<nat>, c: nat): seq<nat> {
    if cs == [] then [] else if cs[0] == c then cs[1..] else [cs[0]] + Removed(cs[1..], c)
  }

  function OnRegister(d: Desk, kind: Kind): Desk {
    d.(waiters := d.waiters + [Waiter(d.next, kind, false)], next := d.next + 1)
  }

  function OnArrive(d: Desk, e: Event): Desk {
    var i := FirstWaiting(d.waiters, e);
    var number := |d.events|;
    var told := d.(events := d.events + [e], heard := d.heard + Told(d.callbacks, number));
    if i == |d.waiters| then told
    else
      var w := d.waiters[i];
      told.(waiters := d.waiters[i := w.(done := true)], completed := d.completed + [Completion(w.id, w.kind, number)])
  }

  /** A waiter leaves the list, completed or timed out. */
  function OnLeave(d: Desk, id: nat): Desk {
    d.(waiters := Without(d.waiters, id))
  }

  function Without(ws: seq<Waiter>, id: nat): seq<Waiter> {
    if ws == [] then [] else if ws[0].id == id then ws[1..] else [ws[0]] + Without(ws[1..], id)
  }

  datatype Action =
    Listen(callback: nat) | Unlisten(leaver: nat) | Register(kind: Kind) | Arrive(event: Event) | Leave(id: nat)

  function Step(d: Desk, a: Action): Desk {
    match a
    case Listen(c) => OnListen(d, c)
    case Unlisten(c) => OnUnlisten(d, c)
    case Register(k) => OnRegister(d, k)
    case Arrive(e) => OnArrive(d, e)
    case Leave(id) => OnLeave(d, id)
  }

  function Run(actions: seq<Action>): Desk {
    if actions == [] then NEW_DESK else Step(Run(actions[..|actions| - 1]), actions[|actions| - 1])
  }

  // ------------------------------------------------------------------
  // What every run keeps
  // ------------------------------------------------------------------

  predicate InOrder(ws: seq<Waiter>, next: nat) {
    && (forall i, j :: 0 <= i < j < |ws| ==> ws[i].id < ws[j].id)
    && (forall i :: 0 <= i < |ws| ==> ws[i].id < next)
  }

  /** Completions come one an event, in the order of the events, each with an event of its kind. */
  predicate OneEach(completed: seq<Completion>, events: seq<Event>) {
    && (forall c <- completed :: c.event < |events| && IsInstance(events[c.event], c.kind))
    && (forall i, j :: 0 <= i < j < |completed| ==> completed[i].event < completed[j].event)
  }

  /** Among waiters for the same class, who came first was served first. */
  predicate Fifo(completed: seq<Completion>) {
    forall i, j :: 0 <= i < j < |completed| && completed[i].kind == completed[j].kind ==>
      completed[i].waiter < completed[j].waiter
  }

  /** Nobody still waiting registered before somebody already served with the same class. */
  predicate NobodyOvertaken(ws: seq<Waiter>, completed: seq<Completion>) {
    forall w <- ws, c <- completed :: !w.done && w.kind == c.kind ==> c.waiter < w.id
  }

  predicate DeskInv(d: Desk) {
    && InOrder(d.waiters, d.next) && OneEach(d.completed, d.events)
    && Fifo(d.completed) && NobodyOvertaken(d.waiters, d.completed)
    && (forall c <- d.completed :: c.waiter < d.next)
  }

  lemma {:induction false} WithoutMembers(ws: seq<Waiter>, id: nat)
    ensures forall w <- Without(ws, id) :: w in ws
    ensures forall w <- ws :: w.id != id ==> w in Without(ws, id)
    ensures (forall i, j :: 0 <= i < j < |ws| ==> ws[i].id < ws[j].id) ==> forall w <- Without(ws, id) :: w.id != id
  {
    if ws != [] {
      WithoutMembers(ws[1..], id);
    }
  }

  lemma {:induction false} WithoutKeeps(ws: seq<Waiter>, id: nat, next: nat)
    requires InOrder(ws, next)
    ensures InOrder(Without(ws, id), next)
  {
    if ws != [] {
      TailInOrder(ws, next);
    }
    if ws != [] && ws[0].id != id {
      hide InOrder;
      WithoutKeeps(ws[1..], id, next);
      WithoutMembers(ws[1..], id);
      Headed(ws[0], ws[1..], Without(ws[1..], id), next);
    }
  }

  lemma Headed(w: Waiter, all: seq<Waiter>, kept: seq<Waiter>, next: nat)
    requires InOrder([w] + all, next) && InOrder(kept, next) && forall k <- kept :: k in all
    ensures InOrder([w] + kept, next)
  {
    forall k <- kept
      ensures w.id < k.id
    {
      var j :| 0 <= j < |all| && all[j] == k;
      assert ([w] + all)[j + 1] == k && ([w] + all)[0] == w;
    }
    assert ([w] + all)[0] == w;
  }

  lemma TailInOrder(ws: seq<Waiter>, next: nat)
    requires ws != [] && InOrder(ws, next)
    ensures InOrder(ws[1..], next) && [ws[0]] + ws[1..] == ws
  {
  }

  lemma RegisterKeeps(d: Desk, kind: Kind)
    requires DeskInv(d)
    ensures DeskInv(OnRegister(d, kind))
  {
  }

  lemma ArriveKeeps(d: Desk, e: Event)
    requires DeskInv(d)
    ensures DeskInv(OnArrive(d, e))
  {
    hide FirstWaiting, IsInstance;
    var i := FirstWaiting(d.waiters, e);
    var after := OnArrive(d, e);
    EventsGrow(d.completed, d.events, e);
    if i < |d.waiters| {
      var w := d.waiters[i];
      var c := Completion(w.id, w.kind, |d.events|);
      FirstIsOldest(d.waiters, d.next, e, w.kind);
      forall u <- after.waiters, k <- after.completed | !u.done && u.kind == k.kind
        ensures k.waiter < u.id
      {
      }
    }
  }

  lemma EventsGrow(completed: seq<Completion>, events: seq<Event>, e: Event)
    requires OneEach(completed, events)
    ensures OneEach(completed, events + [e])
  {
  }

  /** The entry that is served is the oldest of its class that still waits. */
  lemma FirstIsOldest(ws: seq<Waiter>, next: nat, e: Event, kind: Kind)
    requires InOrder(ws, next) && FirstWaiting(ws, e) < |ws| && ws[FirstWaiting(ws, e)].kind == kind
    ensures forall u <- ws :: !u.done && u.kind == kind && u != ws[FirstWaiting(ws, e)] ==>
              ws[FirstWaiting(ws, e)].id < u.id
  {
    hide FirstWaiting;
    var i := FirstWaiting(ws, e);
    forall u <- ws | !u.done && u.kind == kind && u != ws[i]
      ensures ws[i].id < u.id
    {
      var j :| 0 <= j < |ws| && ws[j] == u;
      assert Waiting(u, e);
    }
  }

  lemma {:induction false} EveryRun(actions: seq<Action>)
    ensures DeskInv(Run(actions))
  {
    if actions != [] {
      hide OnArrive, DeskInv;
      var before := actions[..|actions| - 1];
      EveryRun(before);
      StepKeeps(Run(before), actions[|actions| - 1]);
    } else {
      assert DeskInv(NEW_DESK);
    }
  }

  lemma StepKeeps(d: Desk, a: Action)
    requires DeskInv(d)
    ensures DeskInv(Step(d, a))
  {
    match a
    case Listen(c) =>
    case Unlisten(c) =>
    case Register(k) => RegisterKeeps(d, k);
    case Arrive(e) => ArriveKeeps(d, e);
    case Leave(id) =>
      WithoutKeeps(d.waiters, id, d.next);
      WithoutMembers(d.waiters, id);
  }

  /**
   * Over any sequence of registrations, departures and events: no event completes two waiters, and
   * the waiters of one class are completed in the order they registered, by events in the order
   * they came, each of that class.
   */
  lemma ServedInOrder(actions: seq<Action>, i: nat, j: nat)
    requires i < j < |Run(actions).completed|
    ensures var done, events := Run(actions).completed, Run(actions).events;
            && done[i].event < done[j].event < |events|
            && IsInstance(events[done[i].event], done[i].kind)
            && (done[i].kind == done[j].kind ==> done[i].waiter < done[j].waiter)
  {
    EveryRun(actions);
    assert Run(actions).completed[i] in Run(actions).completed && Run(actions).completed[j] in Run(actions).completed;
  }

  /** An event is wasted on no waiter exactly if nobody waits for its class. */
  lemma EventServesIff(d: Desk, e: Event)
    ensures |OnArrive(d, e).completed| == |d.completed| + 1 <==> exists w :: w in d.waiters && Waiting(w, e)
    ensures |OnArrive(d, e).completed| > |d.completed| ==>
              var c := OnArrive(d, e).completed[|d.completed|];
              exists w :: w in d.waiters && Waiting(w, e) && c == Completion(w.id, w.kind, |d.events|)
  {
    hide FirstWaiting;
    var i := FirstWaiting(d.waiters, e);
    if i < |d.waiters| {
      assert d.waiters[i] in d.waiters;
    }
  }

  /** The callbacks that have joined in a run and not left again, and the events that came, in order. */
  function Listeners(actions: seq<Action>): seq<nat> {
    if actions == [] then []
    else
      var before, last := Listeners(actions[..|actions| - 1]), actions[|actions| - 1];
      match last
      case Listen(c) => before + [c]
      case Unlisten(c) => Removed(before, c)
      case _ => before
  }

  /** Exactly one entry goes, if there is one. */
  lemma {:induction false} RemovedCount(cs: seq<nat>, c: nat)
    ensures multiset(Removed(cs, c)) == multiset(cs) - multiset{c}
  {
    if cs != [] {
      assert cs == [cs[0]] + cs[1..];
      RemovedCount(cs[1..], c);
    }
  }

  /** A callback is among the listeners exactly if it joined and has not left since, each joining once. */
  lemma ListenersStep(actions: seq<Action>, a: Action, callback: nat)
    requires multiset(Listeners(actions))[callback] <= 1
    ensures callback in Listeners(actions + [a])
       <==> a == Listen(callback) || (callback in Listeners(actions) && a != Unlisten(callback))
  {
    assert (actions + [a])[..|actions|] == actions;
    if a.Unlisten? {
      RemovedCount(Listeners(actions), a.leaver);
      assert callback in Listeners(actions + [a]) <==> multiset(Listeners(actions + [a]))[callback] > 0;
      assert callback in Listeners(actions) <==> multiset(Listeners(actions))[callback] > 0;
    }
  }

  function Arrivals(actions: seq<Action>): seq<Event> {
    if actions == [] then []
    else
      var last := actions[|actions| - 1];
      Arrivals(actions[..|actions| - 1]) + if last.Arrive? then [last.event] else []
  }

  lemma {:induction false} RunCounts(actions: seq<Action>)
    ensures Run(actions).callbacks == Listeners(actions) && Run(actions).events == Arrivals(actions)
  {
    if actions != [] {
      hide FirstWaiting, Without, Told, Removed;
      RunCounts(actions[..|actions| - 1]);
    }
  }

  /** Over any run, a callback has heard an event exactly if it was registered when the event came. */
  lemma {:induction false} EveryCallbackHears(actions: seq<Action>, callback: nat, event: nat)
    ensures (callback, event) in Run(actions).heard
       <==>
       exists k :: 0 <= k < |actions| && actions[k].Arrive? && event == |Arrivals(actions[..k])|
                   && callback in Listeners(actions[..k])
  {
    hide Step, Run, Listeners, Arrivals;
    if actions == [] {
      NothingHeard();
    } else {
      var front, last := actions[..|actions| - 1], actions[|actions| - 1];
      EveryCallbackHears(front, callback, event);
      RunCounts(front);
      HeardStep(Run(front), last, callback, event);
      assert forall k :: 0 <= k < |front| ==> front[..k] == actions[..k] && front[k] == actions[k];
      assert actions[..|front|] == front;
      if (callback, event) in Step(Run(front), last).heard && (callback, event) !in Run(front).heard {
        assert actions[|front|].Arrive?;
      }
      RunStep(actions);
    }
  }

  lemma NothingHeard()
    ensures Run([]).heard == []
  {
  }

  lemma RunStep(actions: seq<Action>)
    requires actions != []
    ensures Run(actions) == Step(Run(actions[..|actions| - 1]), actions[|actions| - 1])
  {
  }

  lemma HeardStep(d: Desk, a: Action, callback: nat, event: nat)
    ensures (callback, event) in Step(d, a).heard
       <==> (callback, event) in d.heard || (a.Arrive? && event == |d.events| && callback in d.callbacks)
  {
    if a.Arrive? {
      var told := Told(d.callbacks, |d.events|);
      if callback in d.callbacks {
        var i :| 0 <= i < |d.callbacks| && d.callbacks[i] == callback;
        assert told[i] == (callback, |d.events|);
      }
    }
  }

  // ------------------------------------------------------------------
  // The printer's lists
  // ------------------------------------------------------------------

  class Router {
    var waiters: seq<Waiter>
    var callbacks: seq<nat>
    var next: nat
    ghost var events: seq<Event>
    ghost var completed: seq<Completion>
    ghost var heard: seq<(nat, nat)>

    ghost function AsDesk(): Desk
      reads this
    {
      Desk(waiters, callbacks, next, events, completed, heard)
    }

    constructor ()
      ensures AsDesk() == NEW_DESK
    {
      waiters, callbacks, next, events, completed, heard := [], [], 0, [], [], [];
    }

    /** `on_event`. */
    method Listen(callback: nat)
      modifies this
      ensures AsDesk() == OnListen(old(AsDesk()), callback)
    {
      callbacks := callbacks + [callback];
    }

    /** `_event_callbacks.remove`, at the end of an eject and of a page. */
    method Unlisten(callback: nat)
      modifies this
      ensures AsDesk() == OnUnlisten(old(AsDesk()), callback)
    {
      callbacks := Removed(callbacks, callback);
    }

    /** The head of `_wait_for`: a new future at the end of the list. */
    method Register(kind: Kind) returns (id: nat)
      modifies this
      ensures AsDesk() == OnRegister(old(AsDesk()), kind) && id == old(next)
    {
      id := next;
      next := next + 1;
      waiters := waiters + [Waiter(id, kind, false)];
    }

    /** Its end: the entry leaves the list, whether its future was completed or timed out. */
    method Leave(id: nat)
      modifies this
      ensures AsDesk() == OnLeave(old(AsDesk()), id)
    {
      waiters := Without(waiters, id);
    }

    /** `_dispatch_event`. */
    method Dispatch(e: Event)
      modifies this
      ensures AsDesk() == OnArrive(old(AsDesk()), e)
    {
      hide IsInstance;
      ghost var told := Told(callbacks, |events|);
      var k := 0;
      while k < |callbacks|
        invariant 0 <= k <= |callbacks| && callbacks == old(callbacks)
        invariant AsDesk() == old(AsDesk()).(heard := old(heard) + told[..k])
      {
        heard := heard + [(callbacks[k], |events|)];
        k := k + 1;
      }
      assert told[..k] == told;
      ghost var first := FirstWaiting(waiters, e);
      var i := 0;
      while i < |waiters| && !(!waiters[i].done && IsInstance(e, waiters[i].kind))
        invariant 0 <= i <= first
      {
        i := i + 1;
      }
      if i < |waiters| {
        completed := completed + [Completion(waiters[i].id, waiters[i].kind, |events|)];
        waiters := waiters[i := waiters[i].(done := true)];
      }
      events := events + [e];
    }
  }
}
