/**
 * The parser in the print head over a whole page: attempts, queries, feeds and new connections go
 * through one head. When it is at ground as an attempt begins, and what it has read since the last.
 */
module PageHead {
  import opened Bytes
  import opened Commands
  import opened Asides
  import opened PrintHead
  import opened PageHistory

  /** The head where the last attempt left it. */
  function LastEnd(from: Head, acts: seq<Act>): Head {
    if acts == [] then from
    else
      var last := acts[|acts| - 1];
      if last.Attempt? then Run(last.start, Join(last.writes)) else LastEnd(from, acts[..|acts| - 1])
  }

  /** What the program wrote behind the last attempt. */
  function AsidesSince(acts: seq<Act>): seq<Aside> {
    if acts == [] || acts[|acts| - 1].Attempt? then []
    else AsidesSince(acts[..|acts| - 1]) + SentBy(acts[|acts| - 1].seen)
  }

  predicate EndsRanOut(acts: seq<Act>) {
    acts != [] && acts[|acts| - 1].Attempt? && acts[|acts| - 1].outcome == RanOut
  }

  /** An attempt that keeps the head in sync, unless the paper or the link gave out. */
  predicate KeepsSync(a: Act)
    requires a.Attempt?
  {
    && (a.outcome in {Printed, Cancelled, LidOpened, TimedOut} ==>
          Run(Head(Ground, []), Join(a.writes)).state.Ground?)
    && (a.outcome == NotConnected ==> a.writes == [])
  }

  predicate Reopens(a: Act) { !a.Attempt? && a.seen != [] && a.seen[0].Reconnect? }

  /** Every attempt keeps the head in sync, and one that ran out of paper is followed by a reconnect. */
  ghost predicate Steady(acts: seq<Act>) {
    && (forall n :: 0 <= n < |acts| && acts[n].Attempt? ==> KeepsSync(acts[n]))
    && (forall n :: 0 < n < |acts| && EndsRanOut(acts[..n]) ==> Reopens(acts[n]))
  }

  /** The head at the beginning of an attempt: at ground, behind the last attempt and whole asides. */
  predicate BeginsInSync(from: Head, before: seq<Act>, a: Act)
    requires a.Attempt?
  {
    a.outcome != NotConnected ==>
      a.start == Head(Ground, LastEnd(from, before).done + Reads(AsidesSince(before)))
  }

  ghost predicate AllBeginInSync(from: Head, acts: seq<Act>) {
    forall n :: 0 <= n < |acts| && acts[n].Attempt? ==> BeginsInSync(from, acts[..n], acts[n])
  }

  /** Something was done behind a short sheet before the reconnect. */
  predicate Strays(s: Scene) {
    EndsRanOut(s.acts) && s.seen != [] && !s.seen[0].Reconnect?
  }

  /** What the head has read: whole commands only since the last attempt, and at ground while the link is up. */
  predicate Reading(from: Head, s: Scene) {
    && s.head.done == LastEnd(from, s.acts).done + Reads(AsidesSince(s.acts) + SentBy(s.seen))
    && (s.link == Up && !(EndsRanOut(s.acts) && s.seen == []) ==> s.head.state.Ground?)
  }

  /** During an attempt the head is where it began. */
  predicate Underway(from: Head, s: Scene)
    requires s.printing.Some?
  {
    && s.seen == [] && s.printing.value.start == s.head && (!s.printing.value.live ==> s.link != Up)
    && s.head.done == LastEnd(from, s.acts).done + Reads(AsidesSince(s.acts))
    && (s.printing.value.live && !EndsRanOut(s.acts) ==> s.head.state.Ground?)
  }

  ghost predicate HeadInv(from: Head, s: Scene) {
    Steady(s.acts) ==>
      && AllBeginInSync(from, s.acts)
      && (Strays(s) || if s.printing.Some? then Underway(from, s) else Reading(from, s))
  }

  // ------------------------------------------------------------------
  // The head shifted along what it has read already
  // ------------------------------------------------------------------

  lemma StepPrepends(before: seq<Command>, h: Head, b: byte)
    ensures Step(h.(done := before + h.done), b) == Step(h, b).(done := before + Step(h, b).done)
  {
    assert forall c: Command :: before + h.done + [c] == before + (h.done + [c]);
  }

  /** What a head reads does not depend on what it has read before. */
  lemma {:induction false} RunPrepends(before: seq<Command>, h: Head, s: seq<byte>)
    ensures Run(h.(done := before + h.done), s) == Run(h, s).(done := before + Run(h, s).done)
    decreases |s|
  {
    if s != [] {
      hide Step;
      StepPrepends(before, h, s[0]);
      RunPrepends(before, Step(h, s[0]), s[1..]);
    }
  }

  /** The same from ground. */
  lemma RunFrom(done: seq<Command>, s: seq<byte>)
    ensures Run(Head(Ground, done), s)
         == Head(Run(Head(Ground, []), s).state, done + Run(Head(Ground, []), s).done)
  {
    RunPrepends(done, Head(Ground, []), s);
    assert done + [] == done;
  }

  /** Within a command that is no query, a byte keeps the head there or ends that command. */
  lemma StepInside(h: Head, b: byte)
    requires !h.state.Ground? && !h.state.Unit?
    ensures var n := Step(h, b);
            || (n.done == h.done && !n.state.Ground? && !n.state.Unit?)
            || (n.state.Ground? && |n.done| == |h.done| + 1 && !n.done[|h.done|].Query?)
  {
  }

  lemma StepAtGround(h: Head, b: byte)
    requires h.state.Ground?
    ensures Step(h, b).done == h.done || |Step(h, b).done| == |h.done| + 1
    ensures Step(h, b).done == h.done ==> !Step(h, b).state.Ground?
    ensures b == 0x11 ==> Step(h, b).state.Ground?
  {
  }

  lemma StepInUnit(h: Head)
    requires h.state.Unit?
    ensures Step(h, 0x1f).state.Ground? && |Step(h, 0x1f).done| == |h.done| + 1
  {
  }

  /** A query sent while the head is inside a command is not read as one. */
  lemma QuerySwallowed(h: Head, selector: byte)
    requires !h.state.Ground?
    ensures Run(h, EncodeQuery(selector)) != Head(Ground, h.done + [Query(selector)])
  {
    hide Step;
    ThreeSteps(h, 0x1f, 0x11, selector);
    var one := Step(h, 0x1f);
    var two := Step(one, 0x11);
    if h.state.Unit? {
      StepInUnit(h);
    } else {
      StepInside(h, 0x1f);
    }
    if one.state.Ground? {
      StepAtGround(one, 0x11);
    } else {
      StepInside(one, 0x11);
    }
    if two.state.Ground? {
      StepAtGround(two, selector);
    } else {
      StepInside(two, selector);
      assert (h.done + [Query(selector)])[|h.done|].Query?;
    }
  }

  lemma ThreeSteps(h: Head, a: byte, b: byte, c: byte)
    ensures Run(h, [a, b, c]) == Step(Step(Step(h, a), b), c)
  {
    hide Step;
    assert [a, b, c] == [a] + [b] + [c];
    RunAppend(h, [a] + [b], [c]);
    RunAppend(h, [a], [b]);
    RunOne(h, a);
    RunOne(Step(h, a), b);
    RunOne(Step(Step(h, a), b), c);
  }

  // ------------------------------------------------------------------
  // One step
  // ------------------------------------------------------------------

  lemma ActsFront(acts: seq<Act>, a: Act)
    ensures (acts + [a])[..|acts|] == acts
    ensures forall n :: 0 <= n < |acts| ==> (acts + [a])[..n] == acts[..n]
  {
  }

  lemma SteadySnoc(acts: seq<Act>, a: Act)
    ensures Steady(acts + [a]) ==>
              Steady(acts) && (a.Attempt? ==> KeepsSync(a)) && (EndsRanOut(acts) ==> Reopens(a))
  {
    ActsFront(acts, a);
    if Steady(acts + [a]) {
      forall n | 0 <= n < |acts| && acts[n].Attempt?
        ensures KeepsSync(acts[n])
      {
        assert (acts + [a])[n] == acts[n];
      }
      forall n | 0 < n < |acts| && EndsRanOut(acts[..n])
        ensures Reopens(acts[n])
      {
        assert (acts + [a])[n] == acts[n] && EndsRanOut((acts + [a])[..n]);
      }
      assert (acts + [a])[|acts|] == a;
    }
  }

  lemma BeginSnoc(from: Head, acts: seq<Act>, a: Act)
    requires AllBeginInSync(from, acts) && (a.Attempt? ==> BeginsInSync(from, acts, a))
    ensures AllBeginInSync(from, acts + [a])
  {
    ActsFront(acts, a);
  }

  lemma SentSnoc(seen: seq<Entry>, e: Entry)
    ensures SentBy(seen + [e]) == SentBy(seen) + Sent(e)
  {
    assert (seen + [e])[..|seen|] == seen;
  }

  /** What an entry written from ground adds to what the head has read. */
  lemma ReadsMore(last: seq<Command>, asides: seq<Aside>, more: seq<Aside>, h: Head)
    requires h.done == last + Reads(asides) && (more != [] ==> h.state.Ground?)
    ensures Run(h, Join(Writes(more))) == Head(h.state, last + Reads(asides + more))
  {
    hide Run, Writes, Reads, Join;
    if more == [] {
      NothingRead(h);
      assert asides + more == asides;
    } else {
      RunAsides(more, h.done);
      Distribute(asides, more);
      assert last + Reads(asides) + Reads(more) == last + (Reads(asides) + Reads(more));
    }
  }

  lemma NothingRead(h: Head)
    ensures Run(h, Join(Writes([]))) == h
  {
  }

  lemma WorldKeeps(from: Head, s: Scene, e: Entry)
    requires HeadInv(from, s) && OfTheWorld(e) && Lawful(s, e)
    ensures HeadInv(from, After(s, e))
  {
    hide Steady, AllBeginInSync, LastEnd, AsidesSince, EndsRanOut, SentBy, Reads;
  }

  lemma SenseKeeps(from: Head, s: Scene, e: Entry)
    requires HeadInv(from, s) && InAWait(e) && !OfTheWorld(e) && Lawful(s, e)
    ensures HeadInv(from, After(s, e))
  {
    hide Steady, AllBeginInSync, LastEnd, AsidesSince, EndsRanOut, SentBy, Reads, Run, Writes;
    SentSnoc(s.seen, e);
    var base := Listening(s, e);
    if Steady(s.acts) && !Strays(s) && !Strays(After(s, e)) {
      var since := AsidesSince(s.acts) + SentBy(s.seen);
      assert Sent(e) != [] ==> base.state.Ground?;
      ReadsMore(LastEnd(from, s.acts).done, since, Sent(e), base);
      assert AsidesSince(s.acts) + (SentBy(s.seen) + Sent(e)) == since + Sent(e);
    }
  }

  lemma BeginKeeps(from: Head, s: Scene, e: Entry)
    requires HeadInv(from, s) && e.Begin? && Lawful(s, e)
    ensures HeadInv(from, After(s, e))
  {
    hide Steady, AllBeginInSync, LastEnd, AsidesSince, EndsRanOut, Reads;
    assert AsidesSince(s.acts) + SentBy([]) == AsidesSince(s.acts);
  }

  lemma ActSnoc(from: Head, acts: seq<Act>, a: Act)
    ensures LastEnd(from, acts + [a]) == if a.Attempt? then Run(a.start, Join(a.writes)) else LastEnd(from, acts)
    ensures AsidesSince(acts + [a]) == if a.Attempt? then [] else AsidesSince(acts) + SentBy(a.seen)
    ensures EndsRanOut(acts + [a]) <==> a.Attempt? && a.outcome == RanOut
  {
    ActsFront(acts, a);
  }

  lemma OverKeeps(from: Head, s: Scene, e: Entry)
    requires HeadInv(from, s) && e.AttemptOver? && Lawful(s, e)
    ensures HeadInv(from, After(s, e))
  {
    hide Steady, AllBeginInSync, Reads, Run, Join, LastEnd, AsidesSince, EndsRanOut, SentBy, KeepsSync, BeginsInSync;
    var t := After(s, e);
    var a := t.acts[|s.acts|];
    SteadySnoc(s.acts, a);
    ActSnoc(from, s.acts, a);
    if Steady(t.acts) {
      assert Underway(from, s) && !EndsRanOut(s.acts);
      AttemptBegan(from, s, a);
      BeginSnoc(from, s.acts, a);
      AttemptEnds(a);
      NothingSince();
      assert t.head.done + [] == t.head.done;
    }
  }

  lemma AttemptBegan(from: Head, s: Scene, a: Act)
    requires s.printing.Some? && Underway(from, s) && !EndsRanOut(s.acts) && a.Attempt?
    requires a.start == s.head && (a.outcome == NotConnected <==> !s.printing.value.live)
    ensures BeginsInSync(from, s.acts, a)
  {
    hide Reads, LastEnd, AsidesSince, EndsRanOut;
  }

  /** Where an attempt that began at ground leaves the head. */
  lemma AttemptEnds(a: Act)
    requires a.Attempt? && KeepsSync(a)
    ensures a.start.state.Ground? && a.outcome in {Printed, Cancelled, LidOpened, TimedOut} ==>
              Run(a.start, Join(a.writes)).state.Ground?
  {
    hide Run, Join;
    RunFrom(a.start.done, Join(a.writes));
  }

  lemma NothingSince()
    ensures Reads([] + SentBy([])) == []
  {
  }

  lemma ActKeeps(from: Head, s: Scene, e: Entry)
    requires HeadInv(from, s) && !InAWait(e) && !e.Begin? && !e.AttemptOver? && Lawful(s, e)
    ensures HeadInv(from, After(s, e))
  {
    hide Steady, AllBeginInSync, Reads, Run, Join, LastEnd, AsidesSince, EndsRanOut, SentBy, Reopens;
    var t := After(s, e);
    var a := t.acts[|s.acts|];
    SteadySnoc(s.acts, a);
    ActSnoc(from, s.acts, a);
    if Steady(t.acts) {
      BeginSnoc(from, s.acts, a);
      assert EndsRanOut(s.acts) ==> Reopens(a);
      NothingSent(AsidesSince(s.acts) + SentBy(s.seen));
      NotAStray(s, a);
    }
  }

  lemma NothingSent(asides: seq<Aside>)
    ensures asides + SentBy([]) == asides
  {
  }

  lemma NotAStray(s: Scene, a: Act)
    requires EndsRanOut(s.acts) ==> Reopens(a)
    requires a.Attempt? || a.seen == s.seen
    ensures !a.Attempt? ==> !Strays(s) && !(EndsRanOut(s.acts) && s.seen == [])
  {
  }

  lemma StepKeeps(from: Head, s: Scene, e: Entry)
    requires HeadInv(from, s) && Lawful(s, e)
    ensures HeadInv(from, After(s, e))
  {
    hide HeadInv, Lawful, After;
    if OfTheWorld(e) {
      WorldKeeps(from, s, e);
    } else if InAWait(e) {
      SenseKeeps(from, s, e);
    } else if e.Begin? {
      BeginKeeps(from, s, e);
    } else if e.AttemptOver? {
      OverKeeps(from, s, e);
    } else {
      ActKeeps(from, s, e);
    }
  }

  lemma {:induction false} HeadOverHistory(s: Scene, h: seq<Entry>)
    requires PageStarts(s) && s.head.state.Ground? && LawfulRun(s, h)
    ensures HeadInv(s.head, Play(s, h))
  {
    if h == [] {
      assert s.head.done + [] == s.head.done;
      assert AsidesSince(s.acts) + SentBy(s.seen) == [];
    } else {
      hide HeadInv;
      HeadOverHistory(s, h[..|h| - 1]);
      StepKeeps(s.head, Play(s, h[..|h| - 1]), h[|h| - 1]);
    }
  }
}
