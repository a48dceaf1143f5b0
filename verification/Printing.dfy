/** `print_bitmap` as a function of what it meets: what it writes, how it ends, where the head is then. */
module Printing {
  import opened Bytes
  import opened Commands
  import opened PrintHead
  import opened Asides
  import opened RasterStream
  import opened Interruption
  import opened Transfer

  /** `now` is `before` and then some, but not all, of the planned writes. */
  predicate CutShort(now: seq<seq<byte>>, before: seq<seq<byte>>, planned: seq<seq<byte>>) {
    before <= now < before + planned
  }

  lemma CutShortLater(now: seq<seq<byte>>, before: seq<seq<byte>>, planned: seq<seq<byte>>, k: nat)
    requires k <= |planned| && CutShort(now, before + planned[..k], planned[k..])
    ensures CutShort(now, before, planned)
  {
    assert before + planned[..k] + planned[k..] == before + planned;
  }

  datatype LidAnswer = LidClosed | LidOpen | LidSilent

  /** How `print_bitmap` returns or raises. */
  datatype PrintOutcome = Printed | Stopped(why: Outcome) | NoMotorStop | NotConnected

  /** Where these writes, following a head at ground, leave it. */
  function HeadAfter(writes: seq<seq<byte>>): Head { Run(Head(Ground, []), Join(writes)) }

  function Asked(asks: bool): seq<seq<byte>> { if asks then [EncodeQuery(LID_STATE)] else [] }

  /** What a working transport is given: the transfer, and the lid query once the motor has stopped. */
  function Planned(r: Sending, asks: bool): seq<seq<byte>> {
    r.writes + Asked(r.outcome == Complete && asks)
  }

  /** The page on paper, and the lid query behind it if one was sent. */
  function PaperOf(s: Settings, bitmap: seq<byte>, height: nat, asked: bool): seq<Command>
    requires s.geometry.Valid() && |bitmap| == s.geometry.Bytes(height)
  {
    PageCommands(s, bitmap, height) + if asked then [Query(LID_STATE)] else []
  }

  /** Where the planned writes leave the head. */
  lemma PlannedHead(s: Settings, bitmap: seq<byte>, height: nat, fraction: real, chunk: nat, schedule: nat -> Tick,
                    asks: bool)
    requires s.geometry.Valid() && |bitmap| == s.geometry.Bytes(height) && chunk >= 1
    ensures var r := Send(PageOf(s, bitmap, height, fraction), chunk, schedule, 0, 0);
            && (r.outcome == Complete ==>
                  HeadAfter(Planned(r, asks)) == Head(Ground, PaperOf(s, bitmap, height, asks)))
            && (Interrupted(r.outcome) && height >= 1 && chunk >= |Prefix(s)| ==>
                  HeadAfter(Planned(r, asks)).state.Ground?)
  {
    var r := Send(PageOf(s, bitmap, height, fraction), chunk, schedule, 0, 0);
    hide Run, Join, Stream, PageCommands, Prefix, Send;
    assert r.writes + [] == r.writes;
    if r.outcome == Complete {
      HeadAfterTransfer(s, bitmap, height, fraction, chunk, schedule, []);
      assert [] + PageCommands(s, bitmap, height) == PageCommands(s, bitmap, height);
      if asks {
        JoinSnoc(r.writes, EncodeQuery(LID_STATE));
        RunAppend(Head(Ground, []), Join(r.writes), EncodeQuery(LID_STATE));
        AsideReads(Ask(LID_STATE), PageCommands(s, bitmap, height));
      } else {
        assert PageCommands(s, bitmap, height) + [] == PageCommands(s, bitmap, height);
      }
    } else if Interrupted(r.outcome) && height >= 1 && chunk >= |Prefix(s)| {
      LongChunkSafe(s, bitmap, height, fraction, chunk, schedule, []);
    }
  }

  /** Where a lost link leaves the head. */
  lemma LostHead(s: Settings, bitmap: seq<byte>, height: nat, fraction: real, chunk: nat, schedule: nat -> Tick,
                 asks: bool, before: seq<seq<byte>>, now: seq<seq<byte>>)
    requires s.geometry.Valid() && |bitmap| == s.geometry.Bytes(height) && chunk >= 1
    requires CutShort(now, before, Planned(Send(PageOf(s, bitmap, height, fraction), chunk, schedule, 0, 0), asks))
    ensures var r := Send(PageOf(s, bitmap, height, fraction), chunk, schedule, 0, 0);
            var k := |Join(now[|before|..])|;
            HeadAfter(now[|before|..]).state.Ground? <==> k <= r.stop && AtBoundary(s, bitmap, height, k)
  {
    hide Run, Join, Stream, AtBoundary, Send;
    var r := Send(PageOf(s, bitmap, height, fraction), chunk, schedule, 0, 0);
    var n := |now| - |before|;
    CutFront(now, before, r.writes, Planned(r, asks));
    HeadWhereCut(s, bitmap, height, fraction, chunk, schedule, n, []);
  }

  lemma CutFront(now: seq<seq<byte>>, before: seq<seq<byte>>, writes: seq<seq<byte>>, planned: seq<seq<byte>>)
    requires CutShort(now, before, planned) && writes <= planned && |planned| <= |writes| + 1
    ensures |now| - |before| <= |writes| && now[|before|..] == writes[..|now| - |before|]
    ensures |planned| == |writes| ==> |now| - |before| < |writes|
  {
    var n := |now| - |before|;
    assert now == (before + planned)[..|before| + n];
    assert now[|before|..] == planned[..n];
  }

  /** The transfer's writes and the lid query behind them are the planned writes. */
  lemma PlannedWrites(r: Sending, asks: bool, before: seq<seq<byte>>, now: seq<seq<byte>>)
    ensures r.outcome != Complete ==> Planned(r, asks) == r.writes
    ensures now == before + r.writes + Asked(r.outcome == Complete && asks) ==>
              now == before + Planned(r, asks) && now[|before|..] == Planned(r, asks)
    ensures CutShort(now, before, r.writes) ==> CutShort(now, before, Planned(r, asks))
    ensures now == before + r.writes && r.outcome == Complete && asks ==> CutShort(now, before, Planned(r, asks))
  {
    var rest := Asked(r.outcome == Complete && asks);
    assert before + r.writes + rest == before + (r.writes + rest);
    assert r.outcome != Complete ==> r.writes + [] == r.writes;
  }
}
