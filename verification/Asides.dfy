/** What the program writes beside its pages: one whole command a write. */
module Asides {
  import opened Bytes
  import opened Commands
  import opened PrintHead

  /** A device query, a feed, and the two commands that set the auto-off timer. */
  datatype Aside = Ask(selector: byte) | FeedOut(lines: byte) | Restart | Timer(value: byte) {
    function Encoded(): (s: seq<byte>)
      ensures |s| <= 4
    {
      match this
      case Ask(x) => EncodeQuery(x)
      case FeedOut(n) => [ESC, 0x64, n]
      case Restart => EncodeInit()
      case Timer(v) => EncodeAutoOffTimer(v)
    }

    /** The command the print head reads in it. */
    function Read(): Command {
      match this
      case Ask(x) => Query(x)
      case FeedOut(n) => Feed(n)
      case Restart => Init
      case Timer(v) => Setting(0x07, v)
    }
  }

  function Writes(asides: seq<Aside>): seq<seq<byte>> {
    if asides == [] then [] else [asides[0].Encoded()] + Writes(asides[1..])
  }

  function Reads(asides: seq<Aside>): seq<Command> {
    if asides == [] then [] else [asides[0].Read()] + Reads(asides[1..])
  }

  lemma {:induction false} Distribute(a: seq<Aside>, b: seq<Aside>)
    ensures Writes(a + b) == Writes(a) + Writes(b) && Reads(a + b) == Reads(a) + Reads(b)
  {
    if a == [] {
      assert a + b == b;
    } else {
      assert (a + b)[1..] == a[1..] + b;
      Distribute(a[1..], b);
    }
  }

  lemma OneAside(a: Aside)
    ensures Writes([a]) == [a.Encoded()] && Reads([a]) == [a.Read()]
  {
    assert [a][1..] == [];
  }

  /** A command of three bytes: its opening, its kind, its argument. */
  lemma RunThree(a: byte, b: byte, c: byte, one: State, two: State, command: Command, done: seq<Command>)
    requires Step(Head(Ground, done), a) == Head(one, done) && Step(Head(one, done), b) == Head(two, done)
    requires Step(Head(two, done), c) == Head(Ground, done + [command])
    ensures Run(Head(Ground, done), [a, b, c]) == Head(Ground, done + [command])
  {
    hide Step;
    var h := Head(Ground, done);
    assert [a, b, c] == [a] + [b] + [c];
    RunAppend(h, [a] + [b], [c]);
    RunAppend(h, [a], [b]);
    RunOne(h, a);
    RunOne(Head(one, done), b);
    RunOne(Head(two, done), c);
  }

  /** From ground, every aside is read as one command and leaves the head at ground. */
  lemma AsideReads(a: Aside, done: seq<Command>)
    ensures Run(Head(Ground, done), a.Encoded()) == Head(Ground, done + [a.Read()])
  {
    match a
    case Ask(x) => RunThree(0x1f, 0x11, x, Unit([]), Unit([0x11]), Query(x), done);
    case FeedOut(n) => RunThree(ESC, 0x64, n, Escape, EscapeD, Feed(n), done);
    case Restart =>
      var h := Head(Ground, done);
      assert EncodeInit() == [ESC] + [0x40];
      RunAppend(h, [ESC], [0x40]);
      RunOne(h, ESC);
      RunOne(Head(Escape, done), 0x40);
    case Timer(v) =>
      var h := Head(Ground, done);
      assert EncodeAutoOffTimer(v) == [ESC] + [0x4e, 0x07, v];
      RunAppend(h, [ESC], [0x4e, 0x07, v]);
      RunOne(h, ESC);
      assert [0x4e, 0x07, v] == [0x4e] + [0x07] + [v];
      RunAppend(Head(Escape, done), [0x4e] + [0x07], [v]);
      RunAppend(Head(Escape, done), [0x4e], [0x07]);
      RunOne(Head(Escape, done), 0x4e);
      RunOne(Head(EscapeN([]), done), 0x07);
      RunOne(Head(EscapeN([0x07]), done), v);
  }

  /** Read from ground, any asides are exactly their commands, and the head is at ground behind them. */
  lemma {:induction false} RunAsides(asides: seq<Aside>, done: seq<Command>)
    ensures Run(Head(Ground, done), Join(Writes(asides))) == Head(Ground, done + Reads(asides))
    decreases |asides|
  {
    if asides == [] {
      assert done + [] == done;
    } else {
      var a, rest := asides[0], asides[1..];
      assert Writes(asides) == [a.Encoded()] + Writes(rest) && Reads(asides) == [a.Read()] + Reads(rest);
      hide Run, Join, Writes, Reads, Aside.Encoded, Aside.Read;
      JoinCons(a.Encoded(), Writes(rest));
      RunAppend(Head(Ground, done), a.Encoded(), Join(Writes(rest)));
      AsideReads(a, done);
      RunAsides(rest, done + [a.Read()]);
      assert done + [a.Read()] + Reads(rest) == done + ([a.Read()] + Reads(rest));
    }
  }
}
