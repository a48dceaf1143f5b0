/**
 * The printer's command parser: the command grammar of the M08F protocol reference
 * as a byte-by-byte automaton. It knows nothing of the program that feeds it.
 */
module PrintHead {
  import opened Bytes

  datatype Command =
    | Init                                                        // ESC @
    | Setting(parameter: byte, value: byte)                       // ESC N p n
    | Feed(lines: byte)                                           // ESC d n
    | Query(selector: byte)                                       // 1f 11 x
    | LineFeed                                                    // 0a outside raster data
    | Raster(mode: byte, width: nat, rows: nat, data: seq<byte>)  // GS v 0, complete
    | Unknown(lead: byte)                                         // anything else

  datatype State =
    | Ground
    | Escape
    | EscapeN(got: seq<byte>)
    | EscapeD
    | Group(got: seq<byte>)
    | Unit(got: seq<byte>)
    | Pixels(mode: byte, width: nat, rows: nat, data: seq<byte>)

  datatype Head = Head(state: State, done: seq<Command>)

  function Finish(h: Head, c: Command): Head { Head(Ground, h.done + [c]) }

  function StepGround(h: Head, b: byte): Head {
    if b == 0x1b then h.(state := Escape)
    else if b == 0x1d then h.(state := Group([]))
    else if b == 0x1f then h.(state := Unit([]))
    else if b == 0x0a then Finish(h, LineFeed)
    else Finish(h, Unknown(b))
  }

  function StepEscape(h: Head, b: byte): Head {
    if b == 0x40 then Finish(h, Init)
    else if b == 0x4e then h.(state := EscapeN([]))
    else if b == 0x64 then h.(state := EscapeD)
    else Finish(h, Unknown(0x1b))
  }

  function Word(low: nat, high: nat): nat { low + 256 * high }

  /** `GS` has been read; `got` are the bytes of the raster header after it. */
  function StepGroup(h: Head, got: seq<byte>, b: byte): Head {
    var now := got + [b];
    if (|now| == 1 && b != 0x76) || (|now| == 2 && b != 0x30) then Finish(h, Unknown(0x1d))
    else if |now| < 7 then h.(state := Group(now))
    else
      StepPixels(h, now[2], Word(now[3], now[4]), Word(now[5], now[6]), [])
  }

  /** A band is complete the moment its last byte is in. */
  function StepPixels(h: Head, mode: byte, width: nat, rows: nat, data: seq<byte>): Head {
    if |data| >= rows * width then Finish(h, Raster(mode, width, rows, data))
    else h.(state := Pixels(mode, width, rows, data))
  }

  function Step(h: Head, b: byte): Head {
    match h.state
    case Ground => StepGround(h, b)
    case Escape => StepEscape(h, b)
    case EscapeN(got) =>
      if got == [] then h.(state := EscapeN([b])) else Finish(h, Setting(got[0], b))
    case EscapeD => Finish(h, Feed(b))
    case Group(got) => StepGroup(h, got, b)
    case Unit(got) =>
      if got == [] then (if b == 0x11 then h.(state := Unit([b])) else Finish(h, Unknown(0x1f)))
      else Finish(h, Query(b))
    case Pixels(mode, width, rows, data) => StepPixels(h, mode, width, rows, data + [b])
  }

  function Run(h: Head, s: seq<byte>): Head
    decreases |s|
  {
    if s == [] then h else Run(Step(h, s[0]), s[1..])
  }

  lemma {:induction false} RunAppend(h: Head, a: seq<byte>, b: seq<byte>)
    ensures Run(h, a + b) == Run(Run(h, a), b)
    decreases |a|
  {
    if a == [] {
      assert a + b == b;
    } else {
      assert (a + b)[1..] == a[1..] + b;
      RunAppend(Step(h, a[0]), a[1..], b);
    }
  }

  lemma RunOne(h: Head, b: byte)
    ensures Run(h, [b]) == Step(h, b)
  {
    assert Run(Step(h, b), []) == Step(h, b);
  }

  /** Inside a band every byte is a pixel, whatever its value. */
  lemma {:induction false} RunPixels(mode: byte, width: nat, rows: nat, data: seq<byte>, s: seq<byte>,
                                     done: seq<Command>)
    requires |data| < rows * width && |data| + |s| <= rows * width
    ensures Run(Head(Pixels(mode, width, rows, data), done), s) ==
            StepPixels(Head(Pixels(mode, width, rows, data), done), mode, width, rows, data + s)
    decreases |s|
  {
    var h := Head(Pixels(mode, width, rows, data), done);
    if s == [] {
      assert data + s == data;
    } else {
      var next := data + [s[0]];
      assert Step(h, s[0]) == StepPixels(h, mode, width, rows, next);
      assert next + s[1..] == data + s;
      if |s| == 1 {
        assert s[1..] == [] && next == data + s;
      } else {
        RunPixels(mode, width, rows, next, s[1..], done);
      }
    }
  }

  /** The eight header bytes, read from ground, open a band with the announced size. */
  lemma RunHeader(mode: byte, wl: byte, wh: byte, hl: byte, hh: byte, done: seq<Command>)
    ensures Run(Head(Ground, done), [0x1d, 0x76, 0x30, mode, wl, wh, hl, hh]) ==
            StepPixels(Head(Ground, done), mode, Word(wl, wh), Word(hl, hh), [])
  {
    var s := [0x1d, 0x76, 0x30, mode, wl, wh, hl, hh];
    RunHeaderPart(mode, wl, wh, hl, hh, done, 7);
    assert s == s[..7] + [hh];
    RunAppend(Head(Ground, done), s[..7], [hh]);
    RunOne(Run(Head(Ground, done), s[..7]), hh);
    assert s[1..7] + [hh] == [0x76, 0x30, mode, wl, wh, hl, hh];
  }

  /** Anywhere short of its last byte, a header leaves the head waiting for the rest. */
  lemma {:induction false} RunHeaderPart(mode: byte, wl: byte, wh: byte, hl: byte, hh: byte, done: seq<Command>, k: nat)
    requires 1 <= k <= 7
    ensures var s := [0x1d, 0x76, 0x30, mode, wl, wh, hl, hh];
            Run(Head(Ground, done), s[..k]) == Head(Group(s[1..k]), done)
    decreases k
  {
    var s := [0x1d, 0x76, 0x30, mode, wl, wh, hl, hh];
    if k == 1 {
      assert s[..1] == [0x1d];
      RunOne(Head(Ground, done), 0x1d);
      assert s[1..1] == [];
    } else {
      RunHeaderPart(mode, wl, wh, hl, hh, done, k - 1);
      assert s[..k] == s[..k-1] + [s[k-1]];
      RunAppend(Head(Ground, done), s[..k-1], [s[k-1]]);
      RunOne(Run(Head(Ground, done), s[..k-1]), s[k-1]);
      assert s[1..k-1] + [s[k-1]] == s[1..k];
    }
  }
}
