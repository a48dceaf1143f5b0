/**
 * What happens around one page, as one history: what the user, the printer and the link do, what
 * the program asks and is told, and what it does. Which histories are possible, and when a sheet
 * that an attempt has begun on cannot be begun on again.
 */
module PageHistory {
  import opened Bytes
  import opened Commands
  import opened Asides
  import PrintHead

  /** `Closed` is a transport with no client: after a reconnect whose second half failed. */
  datatype Link = Up | Dropped | Closed

  datatype Answer = Yes | No | Unanswered | LinkError | ClientError

  datatype Ready = IsReady | LidIsOpen | NoPaper | Mute | Broken

  datatype Outcome = Printed | RanOut | LidOpened | Cancelled | LinkLost | TimedOut | NotConnected

  /** `eject_paper` returns True or False, or raises: the link dropped, or there is no client at all. */
  datatype EjectResult = Ejected | StillInside | LinkDown | NoClient

  datatype WaitResult = Fresh | WaitCancelled | WaitEjectRaised | WaitNoClient | WaitCut

  /**
   * The world's own doings; then the program's questions with their answers, the feeds and the
   * paper-absent events of an eject (`Gone`), the link's changes at its request and what it greets a
   * new connection with; then the beginnings and ends of what it does. Sheets are numbered as they
   * are inserted.
   */
  datatype Entry =
    | Insert(sheet: nat)
    | Remove
    | MoveLid
    | DropLink
    | SetAbort
    | Lid(answer: Answer)
    | Paper(answer: Answer)
    | FeedLines(lines: byte)
    | Gone
    | Ejecting(result: EjectResult)
    | Checked(ready: Ready)
    | Reconnect(up: bool)
    | Connect(link: Link)
    | Greet(aside: Aside)
    | Begin(bitmap: seq<byte>)
    | AttemptOver(outcome: Outcome, writes: seq<seq<byte>>, lid: Option<Answer>)
    | RecoverOver(recovered: bool)
    | EjectOver(ejected: EjectResult)
    | DrainOver
    | WaitOver(waited: WaitResult)

  /**
   * What the program did, with what it saw doing it. `touched` are the sheets that were under the
   * head at any time of an attempt, `start` is the print head's parser at its beginning, and `lid` what
   * the lid query behind the page was answered, if it was sent.
   */
  datatype Act =
    | Attempt(bitmap: seq<byte>, touched: set<nat>, start: PrintHead.Head, outcome: Outcome, writes: seq<seq<byte>>,
              lid: Option<Answer>)
    | RecoverLink(up: bool, seen: seq<Entry>)
    | Eject(result: EjectResult, seen: seq<Entry>)
    | Drain(seen: seq<Entry>)
    | Wait(waited: WaitResult, seen: seq<Entry>)

  /** `live` is whether there was a link to print over. */
  datatype Attempting = Attempting(bitmap: seq<byte>, live: bool, touched: set<nat>, start: PrintHead.Head)

  /**
   * `used` are the sheets attempts have begun on, `head` is the parser in the printer with all it has
   * read, `seen` what was seen since the last act.
   */
  datatype Scene = Scene(link: Link, cancelled: bool, lidOpen: bool, sheet: Option<nat>, next: nat, used: set<nat>,
                         head: PrintHead.Head, printing: Option<Attempting>, seen: seq<Entry>, acts: seq<Act>)

  predicate OfTheWorld(e: Entry) { e.Insert? || e.Remove? || e.MoveLid? || e.DropLink? || e.SetAbort? }

  /** Entries that belong to no beginning or end. */
  predicate InAWait(e: Entry) {
    OfTheWorld(e) || e.Lid? || e.Paper? || e.FeedLines? || e.Gone? || e.Ejecting? || e.Checked? || e.Reconnect?
    || e.Connect? || e.Greet?
  }

  // ------------------------------------------------------------------
  // Possible histories
  // ------------------------------------------------------------------

  /** A sensor that answers answers what is so. */
  predicate Truthful(s: Scene, a: Answer, value: bool) {
    match s.link
    case Up => a == Unanswered || a == if value then Yes else No
    case Dropped => a == LinkError
    case Closed => a == ClientError
  }

  /** The question went out over the link, answered or not. */
  predicate Reached(a: Answer) { a == Yes || a == No || a == Unanswered }

  /** What `Bridge.connect` writes over a new connection: the serial query, the auto-off timer's query and setting. */
  predicate Greeting(a: Aside) {
    a == Ask(SERIAL_ASCII) || a == Ask(DEVICE_TIMER) || a == Restart || a.Timer?
  }

  /** What the program wrote for an entry. */
  function Sent(e: Entry): seq<Aside> {
    match e
    case Lid(a) => if Reached(a) then [Ask(LID_STATE)] else []
    case Paper(a) => if Reached(a) then [Ask(PAPER_STATE)] else []
    case FeedLines(n) => [FeedOut(n)]
    case Greet(a) => [a]
    case _ => []
  }

  function SentBy(seen: seq<Entry>): seq<Aside> {
    if seen == [] then [] else SentBy(seen[..|seen| - 1]) + Sent(seen[|seen| - 1])
  }

  predicate Lawful(s: Scene, e: Entry) {
    match e
    case Insert(n) => s.sheet.None? && n == s.next
    case Remove => true
    case MoveLid => true
    case SetAbort => true
    case DropLink => s.link == Up
    case Lid(a) => s.printing.None? && Truthful(s, a, s.lidOpen)
    case Paper(a) => s.printing.None? && Truthful(s, a, s.sheet.Some?)
    case FeedLines(_) => s.printing.None? && s.link == Up
    case Gone => s.printing.None? && s.link == Up
    case Ejecting(r) =>
      s.printing.None? && (r == NoClient <==> s.link == Closed) && (r == LinkDown ==> s.link == Dropped)
    case Checked(_) => s.printing.None?
    case Reconnect(_) => s.printing.None?
    case Connect(l) => s.printing.None? && s.link != Up && (l == Up || l == Closed || l == s.link)
    case Greet(a) => s.printing.None? && s.link == Up && Greeting(a)
    case Begin(_) => s.printing.None? && s.seen == []
    case AttemptOver(o, w, lid) =>
      && s.printing.Some? && (lid.Some? ==> Reached(lid.value) && Truthful(s, lid.value, s.lidOpen))
      && (o == NotConnected <==> !s.printing.value.live) && (o == NotConnected ==> w == [])
      && (o == Cancelled ==> s.cancelled) && (o == LinkLost ==> s.link == Dropped)
    case _ => s.printing.None?
  }

  /** A new connection finds the parser at ground. */
  function Listening(s: Scene, e: Entry): PrintHead.Head {
    if (e.Reconnect? && e.up) || (e.Connect? && e.link == Up) then PrintHead.Head(PrintHead.Ground, s.head.done)
    else s.head
  }

  /** What was sent, the parser has read. */
  function Noted(s: Scene, e: Entry): Scene {
    s.(seen := s.seen + [e], head := PrintHead.Run(Listening(s, e), Join(Writes(Sent(e)))))
  }

  function Did(s: Scene, a: Act): Scene { s.(acts := s.acts + [a], seen := []) }

  /** A sheet under the head while printing is a sheet begun on. */
  function Touch(s: Scene, n: nat): Scene {
    if s.printing.Some? && s.printing.value.live then
      s.(used := s.used + {n}, printing := Some(s.printing.value.(touched := s.printing.value.touched + {n})))
    else s
  }

  function After(s: Scene, e: Entry): Scene {
    match e
    case Insert(n) => Touch(s.(sheet := Some(n), next := s.next + 1), n)
    case Remove => s.(sheet := None)
    case MoveLid => s.(lidOpen := !s.lidOpen)
    case SetAbort => s.(cancelled := true)
    case DropLink => s.(link := Dropped)
    case Gone => Noted(s.(sheet := None), e)
    case Reconnect(up) => Noted(s.(link := if up then Up else Closed), e)
    case Connect(l) => Noted(s.(link := l), e)
    case Begin(bitmap) =>
      var begun := s.(printing := Some(Attempting(bitmap, s.link == Up, {}, s.head)));
      if s.sheet.Some? then Touch(begun, s.sheet.value) else begun
    case AttemptOver(o, w, lid) =>
      if s.printing.None? then s
      else
        var a := s.printing.value;
        Did(s.(printing := None, head := PrintHead.Run(s.head, Join(w))),
            Attempt(a.bitmap, a.touched, a.start, o, w, lid))
    case RecoverOver(up) => Did(s, RecoverLink(up, s.seen))
    case EjectOver(r) => Did(s, Eject(r, s.seen))
    case DrainOver => Did(s, Drain(s.seen))
    case WaitOver(r) => Did(s, Wait(r, s.seen))
    case _ => Noted(s, e)
  }

  function Play(s: Scene, h: seq<Entry>): Scene {
    if h == [] then s else After(Play(s, h[..|h| - 1]), h[|h| - 1])
  }

  ghost predicate LawfulRun(s: Scene, h: seq<Entry>) {
    h == [] || (LawfulRun(s, h[..|h| - 1]) && Lawful(Play(s, h[..|h| - 1]), h[|h| - 1]))
  }

  lemma Snoc(s: Scene, h: seq<Entry>, e: Entry)
    ensures Play(s, h + [e]) == After(Play(s, h), e)
    ensures LawfulRun(s, h + [e]) <==> LawfulRun(s, h) && Lawful(Play(s, h), e)
  {
    assert (h + [e])[..|h|] == h;
  }

  /** Every entry of a possible history was possible where it stands. */
  lemma {:induction false} LawfulAt(s: Scene, h: seq<Entry>, i: nat)
    requires LawfulRun(s, h) && i < |h|
    ensures LawfulRun(s, h[..i]) && Lawful(Play(s, h[..i]), h[i])
    decreases |h|
  {
    var front := h[..|h| - 1];
    if i < |front| {
      LawfulAt(s, front, i);
      assert front[..i] == h[..i] && front[i] == h[i];
    }
  }

  lemma FrontOf(h: seq<Entry>, i: nat)
    requires h != [] && i < |h| - 1
    ensures h[..|h| - 1][..i] == h[..i] && h[..|h| - 1][i] == h[i]
  {
  }

  /** What an entry does to the acts and to what was seen. */
  lemma StepRecords(s: Scene, e: Entry)
    requires Lawful(s, e) && (s.printing.Some? ==> s.seen == [])
    ensures var t := After(s, e);
            && (t.printing.Some? ==> t.seen == [])
            && (OfTheWorld(e) || e.Begin? ==> t.acts == s.acts && t.seen == s.seen)
            && (InAWait(e) && !OfTheWorld(e) ==> t.acts == s.acts && t.seen == s.seen + [e])
            && (!InAWait(e) && !e.Begin? ==>
                  && |t.acts| == |s.acts| + 1 && t.acts[..|s.acts|] == s.acts && t.seen == []
                  && var a := t.acts[|s.acts|];
                     if e.AttemptOver? then a.Attempt? && e == AttemptOver(a.outcome, a.writes, a.lid)
                     else !a.Attempt? && a.seen == s.seen)
  {
    hide PrintHead.Run, Writes, Sent, Truthful;
  }

  /** What was seen since the last act stands in the history, in order, behind the acts before. */
  lemma {:induction false} SeenSince(s: Scene, h: seq<Entry>, k: nat) returns (i: nat)
    requires PageStarts(s) && LawfulRun(s, h) && k < |Play(s, h).seen|
    ensures i < |h| && h[i] == Play(s, h).seen[k]
    ensures Play(s, h[..i]).acts == Play(s, h).acts && Play(s, h[..i]).seen == Play(s, h).seen[..k]
  {
    hide Lawful, After, PageStarts, LawfulRun, Play;
    SeenOutside(s, h);
    if h == [] {
      EmptyHistory(s);
    } else {
      var front, last := h[..|h| - 1], h[|h| - 1];
      LastStep(s, h);
      SeenOutside(s, front);
      StepRecords(Play(s, front), last);
      if k < |Play(s, front).seen| {
        i := SeenSince(s, front, k);
        FrontOf(h, i);
      } else {
        i := |h| - 1;
      }
    }
  }

  lemma EmptyHistory(s: Scene)
    requires PageStarts(s)
    ensures Play(s, []) == s && s.seen == [] && s.acts == []
  {
  }

  lemma LastStep(s: Scene, h: seq<Entry>)
    requires LawfulRun(s, h) && h != []
    ensures LawfulRun(s, h[..|h| - 1]) && Lawful(Play(s, h[..|h| - 1]), h[|h| - 1])
    ensures Play(s, h) == After(Play(s, h[..|h| - 1]), h[|h| - 1])
  {
  }

  lemma {:induction false} SeenOutside(s: Scene, h: seq<Entry>)
    requires PageStarts(s) && LawfulRun(s, h)
    ensures Play(s, h).printing.Some? ==> Play(s, h).seen == []
  {
    hide Lawful, After, LawfulRun, Play, PageStarts;
    if h == [] {
      EmptyHistory(s);
    } else {
      LastStep(s, h);
      SeenOutside(s, h[..|h| - 1]);
      StepRecords(Play(s, h[..|h| - 1]), h[|h| - 1]);
    }
  }

  /** Where in the history an act ends. */
  lemma {:induction false} ActAt(s: Scene, h: seq<Entry>, n: nat) returns (i: nat)
    requires PageStarts(s) && LawfulRun(s, h) && n < |Play(s, h).acts|
    ensures i < |h| && LawfulRun(s, h[..i]) && Lawful(Play(s, h[..i]), h[i])
    ensures Play(s, h[..i]).acts == Play(s, h).acts[..n]
    ensures var a := Play(s, h).acts[n];
            if a.Attempt? then h[i] == AttemptOver(a.outcome, a.writes, a.lid) else Play(s, h[..i]).seen == a.seen
  {
    hide Lawful, After, PageStarts, LawfulRun, Play;
    if h == [] {
      EmptyHistory(s);
    } else {
      var front, last := h[..|h| - 1], h[|h| - 1];
      LastStep(s, h);
      SeenOutside(s, front);
      StepRecords(Play(s, front), last);
      if n < |Play(s, front).acts| {
        i := ActAt(s, front, n);
        FrontOf(h, i);
        assert Play(s, h).acts[n] == Play(s, front).acts[n] && Play(s, h).acts[..n] == Play(s, front).acts[..n];
      } else {
        i := |h| - 1;
      }
    }
  }

  /** Where in the history something stands that was seen in an act, and that it was possible there. */
  lemma SeenAt(s: Scene, h: seq<Entry>, n: nat, k: nat) returns (i: nat)
    requires PageStarts(s) && LawfulRun(s, h) && n < |Play(s, h).acts| && !Play(s, h).acts[n].Attempt?
    requires k < |Play(s, h).acts[n].seen|
    ensures i < |h| && h[i] == Play(s, h).acts[n].seen[k] && Lawful(Play(s, h[..i]), h[i])
    ensures Play(s, h[..i]).acts == Play(s, h).acts[..n] && Play(s, h[..i]).seen == Play(s, h).acts[n].seen[..k]
  {
    hide Lawful, PageStarts, LawfulRun, Play;
    var end := ActAt(s, h, n);
    i := SeenSince(s, h[..end], k);
    LawfulAt(s, h, i);
    assert h[..end][..i] == h[..i] && h[..end][i] == h[i];
  }

  /** Before the first attempt of a page. */
  predicate PageStarts(s: Scene) {
    && s.used == {} && s.printing.None? && s.seen == [] && s.acts == []
    && (s.sheet.Some? ==> s.sheet.value < s.next)
  }

  // ------------------------------------------------------------------
  // No sheet twice
  // ------------------------------------------------------------------

  /** The sensor said that no paper is there, or an eject saw the sheet leave it. */
  predicate Evidence(seen: seq<Entry>) { Paper(No) in seen || Gone in seen }

  /** Evidence among the acts since the last attempt. */
  predicate GoneSince(acts: seq<Act>) {
    acts != [] && !acts[|acts| - 1].Attempt? &&
    (Evidence(acts[|acts| - 1].seen) || GoneSince(acts[..|acts| - 1]))
  }

  predicate Clean(s: Scene) { s.sheet.Some? ==> s.sheet.value !in s.used }

  /** No attempt so far had one of these sheets under the head. */
  predicate Untouched(acts: seq<Act>, sheets: set<nat>) {
    forall a <- acts :: a.Attempt? ==> a.touched !! sheets
  }

  predicate Numbered(s: Scene) {
    (forall u <- s.used :: u < s.next) && (s.sheet.Some? ==> s.sheet.value < s.next)
  }

  predicate AllTouchedUsed(acts: seq<Act>, used: set<nat>) {
    forall a <- acts :: a.Attempt? ==> a.touched <= used
  }

  ghost predicate TouchUntouched(acts: seq<Act>) {
    forall n :: 0 <= n < |acts| && acts[n].Attempt? && GoneSince(acts[..n]) ==> Untouched(acts[..n], acts[n].touched)
  }

  ghost predicate SceneInv(s: Scene) {
    && Numbered(s) && AllTouchedUsed(s.acts, s.used) && TouchUntouched(s.acts)
    && (if s.printing.Some? then
          && s.seen == [] && s.printing.value.touched <= s.used
          && (GoneSince(s.acts) ==> Untouched(s.acts, s.printing.value.touched))
        else
          Evidence(s.seen) || GoneSince(s.acts) ==> Clean(s))
  }

  lemma ActSnoc(acts: seq<Act>, a: Act, used: set<nat>)
    requires AllTouchedUsed(acts, used) && TouchUntouched(acts)
    requires a.Attempt? ==> a.touched <= used && (GoneSince(acts) ==> Untouched(acts, a.touched))
    ensures AllTouchedUsed(acts + [a], used) && TouchUntouched(acts + [a])
    ensures GoneSince(acts + [a]) <==> !a.Attempt? && (Evidence(a.seen) || GoneSince(acts))
  {
    assert (acts + [a])[..|acts|] == acts;
    forall n | 0 <= n < |acts|
      ensures (acts + [a])[..n] == acts[..n]
    {
    }
  }

  lemma WorldKeeps(s: Scene, e: Entry)
    requires SceneInv(s) && OfTheWorld(e) && Lawful(s, e)
    ensures SceneInv(After(s, e))
  {
    hide GoneSince, TouchUntouched, Evidence;
  }

  lemma SeenSnoc(seen: seq<Entry>, e: Entry)
    ensures Evidence(seen + [e]) <==> Evidence(seen) || e == Paper(No) || e == Gone
  {
  }

  lemma NothingSeen()
    ensures !Evidence([])
  {
  }

  lemma SenseKeeps(s: Scene, e: Entry)
    requires SceneInv(s) && InAWait(e) && !OfTheWorld(e) && Lawful(s, e)
    ensures SceneInv(After(s, e))
  {
    SeenSnoc(s.seen, e);
    hide GoneSince, TouchUntouched, Evidence, AllTouchedUsed;
  }

  lemma BeginKeeps(s: Scene, e: Entry)
    requires SceneInv(s) && e.Begin? && Lawful(s, e)
    ensures SceneInv(After(s, e))
  {
    hide GoneSince, TouchUntouched;
  }

  lemma ActKeeps(s: Scene, e: Entry)
    requires SceneInv(s) && !InAWait(e) && !e.Begin? && Lawful(s, e)
    ensures SceneInv(After(s, e))
  {
    hide GoneSince, TouchUntouched, AllTouchedUsed, Untouched, Evidence;
    NothingSeen();
    var a := After(s, e).acts[|s.acts|];
    ActSnoc(s.acts, a, s.used);
  }

  lemma StepKeeps(s: Scene, e: Entry)
    requires SceneInv(s) && Lawful(s, e)
    ensures SceneInv(After(s, e))
  {
    hide SceneInv, Lawful, After;
    if OfTheWorld(e) {
      WorldKeeps(s, e);
    } else if InAWait(e) {
      SenseKeeps(s, e);
    } else if e.Begin? {
      BeginKeeps(s, e);
    } else {
      ActKeeps(s, e);
    }
  }

  lemma {:induction false} EveryHistory(s: Scene, h: seq<Entry>)
    requires PageStarts(s) && LawfulRun(s, h)
    ensures SceneInv(Play(s, h))
  {
    if h == [] {
      assert SceneInv(s);
    } else {
      hide SceneInv;
      EveryHistory(s, h[..|h| - 1]);
      StepKeeps(Play(s, h[..|h| - 1]), h[|h| - 1]);
    }
  }

  /**
   * In every possible history: an attempt before which, since the attempt before it, the sensor
   * said that the paper was gone or an eject saw it go, has no sheet under the head that any earlier
   * attempt of the page had.
   */
  lemma NoSheetTwice(s: Scene, h: seq<Entry>, m: nat, n: nat)
    requires PageStarts(s) && LawfulRun(s, h)
    requires m < n < |Play(s, h).acts| && Play(s, h).acts[m].Attempt? && Play(s, h).acts[n].Attempt?
    requires GoneSince(Play(s, h).acts[..n])
    ensures var acts := Play(s, h).acts;
            acts[m].touched !! acts[n].touched
  {
    EveryHistory(s, h);
    var acts := Play(s, h).acts;
    assert acts[..n][m] == acts[m] && acts[m] in acts[..n];
  }

  // ------------------------------------------------------------------
  // What the program can know
  // ------------------------------------------------------------------

  /** What the program sees of a history. */
  function Observed(h: seq<Entry>): seq<Entry> {
    if h == [] then []
    else Observed(h[..|h| - 1]) + if OfTheWorld(h[|h| - 1]) then [] else [h[|h| - 1]]
  }

  predicate Waiting(h: seq<Entry>) { forall e <- h :: InAWait(e) }

  /** The history with nobody touching the sheet. */
  function Undisturbed(h: seq<Entry>): seq<Entry> {
    if h == [] then []
    else
      var last := h[|h| - 1];
      Undisturbed(h[..|h| - 1]) + if last.Insert? || last.Remove? then [] else [last]
  }

  lemma WaitStep(s: Scene, e: Entry)
    requires Numbered(s) && s.printing.None? && InAWait(e) && Lawful(s, e)
    ensures var t := After(s, e);
            && Numbered(t) && t.printing.None? && t.used == s.used
            && (Clean(s) || e == Paper(No) || e == Gone ==> Clean(t))
  {
  }

  lemma WaitingFront(h: seq<Entry>)
    requires Waiting(h) && h != []
    ensures Waiting(h[..|h| - 1]) && InAWait(h[|h| - 1])
  {
    assert h[|h| - 1] in h;
  }

  lemma ObservedFront(h: seq<Entry>)
    requires h != []
    ensures var front, last := Observed(h[..|h| - 1]), h[|h| - 1];
            && Observed(h) == (if OfTheWorld(last) then front else front + [last])
            && (Evidence(Observed(h)) <==> Evidence(front) || last == Paper(No) || last == Gone)
  {
    var front, last := Observed(h[..|h| - 1]), h[|h| - 1];
    SeenSnoc(front, last);
    assert front + [] == front;
  }

  lemma {:induction false} EvidenceCleans(s: Scene, h: seq<Entry>)
    requires Numbered(s) && s.printing.None? && Waiting(h) && LawfulRun(s, h)
    ensures var t := Play(s, h);
            Numbered(t) && t.printing.None? && t.used == s.used && (Clean(s) || Evidence(Observed(h)) ==> Clean(t))
  {
    hide Waiting, Observed, Lawful, After, Numbered, Clean, Evidence;
    if h == [] {
      NothingObserved();
    } else {
      WaitingFront(h);
      ObservedFront(h);
      EvidenceCleans(s, h[..|h| - 1]);
      WaitStep(Play(s, h[..|h| - 1]), h[|h| - 1]);
    }
  }

  lemma NothingObserved()
    ensures Observed([]) == [] && !Evidence([]) && Undisturbed([]) == [] && Waiting([])
  {
  }

  /** The two states differ at most in the sheet. */
  predicate AlikeBut(t: Scene, u: Scene, sheet: Option<nat>, used: set<nat>) {
    && u.sheet == sheet && u.used == used == t.used && u.printing.None? && t.printing.None?
    && u.link == t.link && u.lidOpen == t.lidOpen && u.cancelled == t.cancelled && u.head == t.head
  }

  lemma AlikeStep(t: Scene, u: Scene, sheet: Option<nat>, used: set<nat>, e: Entry)
    requires AlikeBut(t, u, sheet, used) && sheet.Some? && InAWait(e) && Lawful(t, e) && e != Paper(No) && e != Gone
    ensures if e.Insert? || e.Remove? then AlikeBut(After(t, e), u, sheet, used)
            else Lawful(u, e) && AlikeBut(After(t, e), After(u, e), sheet, used)
  {
  }

  lemma UndisturbedFront(h: seq<Entry>)
    requires h != []
    ensures var front, last := Undisturbed(h[..|h| - 1]), h[|h| - 1];
            Undisturbed(h) == if last.Insert? || last.Remove? then front else front + [last]
  {
    assert Undisturbed(h[..|h| - 1]) + [] == Undisturbed(h[..|h| - 1]);
  }

  lemma {:induction false} SheetStays(s: Scene, h: seq<Entry>)
    requires s.sheet.Some? && s.printing.None? && Waiting(h) && LawfulRun(s, h) && !Evidence(Observed(h))
    ensures var q := Undisturbed(h);
            && Waiting(q) && LawfulRun(s, q) && Observed(q) == Observed(h)
            && AlikeBut(Play(s, h), Play(s, q), s.sheet, s.used)
  {
    hide Waiting, Observed, Undisturbed, Lawful, After, AlikeBut, Evidence;
    if h == [] {
      NothingObserved();
      AlikeSelf(s);
    } else {
      var front, last := h[..|h| - 1], h[|h| - 1];
      WaitingFront(h);
      ObservedFront(h);
      UndisturbedFront(h);
      SheetStays(s, front);
      var q := Undisturbed(front);
      AlikeStep(Play(s, front), Play(s, q), s.sheet, s.used, last);
      if !last.Insert? && !last.Remove? {
        Snoc(s, q, last);
        assert (q + [last])[..|q|] == q;
        ObservedFront(q + [last]);
        WaitingSnoc(q, last);
      } else {
        assert OfTheWorld(last);
      }
    }
  }

  lemma AlikeSelf(s: Scene)
    requires s.printing.None?
    ensures AlikeBut(s, s, s.sheet, s.used)
  {
  }

  lemma WaitingSnoc(h: seq<Entry>, e: Entry)
    requires Waiting(h) && InAWait(e)
    ensures Waiting(h + [e])
  {
  }

  /**
   * With a sheet in the printer that an attempt has begun on: whatever else may have happened, the
   * program can be sure that no such sheet is under the head exactly if it has seen that the paper
   * was gone, told by the sensor or in an eject.
   */
  lemma FreshSheetIff(s: Scene, h: seq<Entry>)
    requires Numbered(s) && s.printing.None? && s.sheet.Some? && s.sheet.value in s.used
    requires Waiting(h) && LawfulRun(s, h)
    ensures Evidence(Observed(h))
       <==>
       forall other :: Waiting(other) && LawfulRun(s, other) && Observed(other) == Observed(h) ==> Clean(Play(s, other))
  {
    hide Play, LawfulRun, Evidence, Waiting, Observed;
    if Evidence(Observed(h)) {
      forall other | Waiting(other) && LawfulRun(s, other) && Observed(other) == Observed(h)
        ensures Clean(Play(s, other))
      {
        EvidenceCleans(s, other);
      }
    } else {
      SheetStays(s, h);
      hide Undisturbed;
      assert !Clean(Play(s, Undisturbed(h)));
    }
  }
}
