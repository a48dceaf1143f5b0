/** Notifications of the printer (`phomemo/events.py`). */
module Events {
  import opened Bytes

  const EVENT_START: byte := 0x1A
  const SERIAL_SHORT: byte := 0x03
  const BATTERY: byte := 0x04
  const LID: byte := 0x05
  const PAPER: byte := 0x06
  const FIRMWARE: byte := 0x07
  const SERIAL_ASCII: byte := 0x08
  const DEVICE_TIMER: byte := 0x09
  const MOTOR_STOP: byte := 0x0F

  /** Every event keeps the bytes it was read from; `Unknown` is the base class, used as it is. */
  datatype Event =
    | Lid(open: bool, raw: seq<byte>)
    | Paper(present: bool, raw: seq<byte>)
    | Battery(percent: nat, raw: seq<byte>)
    | ShortSerial(value: byte, raw: seq<byte>)
    | AsciiSerial(text: seq<byte>, raw: seq<byte>)
    | Timer(value: byte, minutes: nat, raw: seq<byte>)
    | MotorStop(raw: seq<byte>)
    | Firmware(major: byte, minor: byte, patch: byte, raw: seq<byte>)
    | Unknown(kind: byte, raw: seq<byte>)

  /** `_parse_one`. The charge is cut off at 100, the timer counts five minutes a step. */
  function ParseOne(data: seq<byte>): (e: Event)
    requires |data| == 3
    ensures e.raw == data && !e.Firmware? && !e.AsciiSerial?
    ensures e.Battery? ==> e.percent <= 100
  {
    var kind, value := data[1], data[2];
    var minutes := value as int * 5;
    if kind == LID then Lid(value % 2 == 1, data)
    else if kind == PAPER then Paper(value % 2 == 1, data)
    else if kind == BATTERY then Battery(Min(100, value), data)
    else if kind == SERIAL_SHORT then ShortSerial(value, data)
    else if kind == DEVICE_TIMER then Timer(value, minutes, data)
    else if kind == MOTOR_STOP then MotorStop(data)
    else Unknown(kind, data)
  }

  predicate IsFirmware(data: seq<byte>) { |data| >= 5 && data[0] == EVENT_START && data[1] == FIRMWARE }

  predicate IsAsciiSerial(data: seq<byte>) { |data| > 3 && data[0] == EVENT_START && data[1] == SERIAL_ASCII }

  /** Answers of their own length take the whole notification. */
  predicate Special(data: seq<byte>) { IsFirmware(data) || IsAsciiSerial(data) }

  /** The events of a batch of triples, up to the first that does not begin as one. */
  function Batch(data: seq<byte>): seq<Event> {
    if |data| >= 3 && data[0] == EVENT_START then [ParseOne(data[..3])] + Batch(data[3..]) else []
  }

  function Parse(data: seq<byte>): seq<Event> {
    if IsFirmware(data) then [Firmware(data[2], data[3], data[4], data)]
    else if IsAsciiSerial(data) then [AsciiSerial(data[2..], data)]
    else Batch(data)
  }

  lemma BatchAt(data: seq<byte>, offset: nat)
    requires offset + 3 <= |data| && data[offset] == EVENT_START
    ensures Batch(data[offset..]) == [ParseOne(data[offset..offset + 3])] + Batch(data[offset + 3..])
  {
    assert data[offset..][..3] == data[offset..offset + 3] && data[offset..][3..] == data[offset + 3..];
  }

  lemma BatchEnds(data: seq<byte>, offset: nat, events: seq<Event>)
    requires offset <= |data| && (offset + 3 <= |data| ==> data[offset] != EVENT_START)
    ensures events + Batch(data[offset..]) == events
  {
  }

  method ParseNotification(data: seq<byte>) returns (events: seq<Event>)
    ensures events == Parse(data)
  {
    hide ParseOne;
    if |data| >= 5 && data[0] == EVENT_START && data[1] == FIRMWARE {
      return [Firmware(data[2], data[3], data[4], data)];
    }
    if |data| > 3 && data[0] == EVENT_START && data[1] == SERIAL_ASCII {
      return [AsciiSerial(data[2..], data)];
    }
    hide Batch;
    events := [];
    var offset := 0;
    assert data[0..] == data && [] + Batch(data) == Batch(data);
    while offset + 3 <= |data|
      invariant 0 <= offset <= |data|
      invariant events + Batch(data[offset..]) == Batch(data)
    {
      if data[offset] != EVENT_START {
        break;
      }
      var chunk := data[offset..offset + 3];
      BatchAt(data, offset);
      assert events + ([ParseOne(chunk)] + Batch(data[offset + 3..]))
             == events + [ParseOne(chunk)] + Batch(data[offset + 3..]);
      events := events + [ParseOne(chunk)];
      offset := offset + 3;
    }
    BatchEnds(data, offset, events);
  }

  // ------------------------------------------------------------------
  // What a batch yields
  // ------------------------------------------------------------------

  function Raws(events: seq<Event>): seq<seq<byte>> { seq(|events|, i requires 0 <= i < |events| => events[i].raw) }

  /** The first n triples of a batch are all well-formed. */
  predicate Triples(data: seq<byte>, n: nat) {
    3 * n <= |data| && forall i :: 0 <= i < n ==> data[3 * i] == EVENT_START
  }

  lemma TriplesOfRest(data: seq<byte>, n: nat)
    requires n > 0 && |data| >= 3 && data[0] == EVENT_START
    ensures Triples(data, n) <==> Triples(data[3..], n - 1)
  {
    var rest := data[3..];
    if Triples(rest, n - 1) {
      forall i | 0 <= i < n
        ensures data[3 * i] == EVENT_START
      {
        assert i > 0 ==> data[3 * i] == rest[3 * (i - 1)];
      }
    }
    if Triples(data, n) {
      forall i | 0 <= i < n - 1
        ensures rest[3 * i] == EVENT_START
      {
        assert rest[3 * i] == data[3 * (i + 1)];
      }
    }
  }

  lemma NoTriple(data: seq<byte>, n: nat)
    requires |data| < 3 || data[0] != EVENT_START
    ensures Triples(data, n) <==> n == 0
  {
    if n > 0 && 3 * n <= |data| {
      assert data[3 * 0] != EVENT_START;
    }
  }

  /** The events are those of the longest well-formed prefix, one for each triple in order. */
  lemma {:induction false} LongestPrefix(data: seq<byte>, n: nat)
    ensures Triples(data, n) <==> n <= |Batch(data)|
    ensures n < |Batch(data)| ==> 3 * n + 3 <= |data| && Batch(data)[n] == ParseOne(data[3 * n..3 * n + 3])
    decreases |data|
  {
    hide ParseOne;
    if |data| >= 3 && data[0] == EVENT_START {
      var rest := data[3..];
      if n > 0 {
        hide Triples;
        LongestPrefix(rest, n - 1);
        TriplesOfRest(data, n);
        assert n < |Batch(data)| ==> rest[3 * (n - 1)..3 * (n - 1) + 3] == data[3 * n..3 * n + 3];
      } else {
        assert data[0..3] == data[..3];
      }
    } else {
      NoTriple(data, n);
    }
  }

  /** Nothing is lost: the raw bytes of the events are the prefix they were read from. */
  lemma {:induction false} RawsConcatenate(data: seq<byte>)
    ensures 3 * |Batch(data)| <= |data|
    ensures Join(Raws(Batch(data))) == data[..3 * |Batch(data)|]
    decreases |data|
  {
    hide ParseOne, Join;
    if |data| >= 3 && data[0] == EVENT_START {
      RawsConcatenate(data[3..]);
      var rest := Batch(data[3..]);
      assert Raws(Batch(data)) == [data[..3]] + Raws(rest);
      JoinCons(data[..3], Raws(rest));
      assert |Batch(data)| == 1 + |rest|;
      SliceSplit(data, 0, 3, 3 + 3 * |rest|);
      assert data[3..][..3 * |rest|] == data[3..3 + 3 * |rest|];
    } else {
      assert Raws(Batch(data)) == [];
      JoinNone<byte>();
    }
  }

  /** A batch with nothing left over. */
  predicate Whole(data: seq<byte>) { |data| % 3 == 0 && Triples(data, |data| / 3) }

  lemma BatchHead(data: seq<byte>)
    requires |data| >= 3 && data[0] == EVENT_START
    ensures Batch(data) == [ParseOne(data[..3])] + Batch(data[3..])
  {
  }

  lemma {:induction false} BatchDistributes(a: seq<byte>, b: seq<byte>)
    requires Whole(a)
    ensures Batch(a + b) == Batch(a) + Batch(b)
    decreases |a|
  {
    hide ParseOne;
    if a == [] {
      assert a + b == b;
    } else {
      assert a[3 * 0] == EVENT_START;
      TriplesOfRest(a, |a| / 3);
      assert (a + b)[..3] == a[..3] && (a + b)[3..] == a[3..] + b && (a + b)[0] == a[0];
      BatchHead(a);
      BatchHead(a + b);
      hide Triples, Batch;
      BatchDistributes(a[3..], b);
      assert [ParseOne(a[..3])] + (Batch(a[3..]) + Batch(b)) == [ParseOne(a[..3])] + Batch(a[3..]) + Batch(b);
    }
  }

  lemma {:induction false} RawsFit(data: seq<byte>)
    ensures forall e <- Batch(data) :: |e.raw| == 3 <= |data|
    decreases |data|
  {
    if |data| >= 3 && data[0] == EVENT_START {
      RawsFit(data[3..]);
    }
  }

  /** A special answer is not what its two halves parse to: it is one event with all the bytes. */
  lemma SpecialTakesAll(a: seq<byte>, b: seq<byte>)
    requires a != [] && b != [] && Special(a + b)
    ensures Parse(a + b) != Parse(a) + Parse(b)
  {
    RawsFit(a);
    RawsFit(b);
    assert Parse(a + b)[0].raw == a + b;
    hide Batch;
    assert forall e <- Parse(a) :: |e.raw| < |a + b|;
    assert forall e <- Parse(b) :: |e.raw| < |a + b|;
    assert forall e <- Parse(a) + Parse(b) :: |e.raw| < |a + b|;
  }

  /**
   * Parsing distributes over two notifications joined at an event boundary exactly if neither the
   * joined notification nor its second half is one of the answers of their own length, which are
   * recognised only at the very start and take the whole notification.
   */
  lemma ParseDistributesIff(a: seq<byte>, b: seq<byte>)
    requires Whole(a)
    ensures Parse(a + b) == Parse(a) + Parse(b) <==> a == [] || b == [] || (!Special(a + b) && !Special(b))
  {
    hide ParseOne, Whole, Batch;
    if a == [] {
      ParseNothing();
      assert a + b == b && [] + Parse(b) == Parse(b);
    } else if b == [] {
      ParseNothing();
      assert a + b == a && Parse(a) + [] == Parse(a);
    } else if Special(a + b) {
      hide Parse, Special;
      SpecialTakesAll(a, b);
    } else {
      PlainDistributesIff(a, b);
    }
  }

  lemma ParseNothing()
    ensures Parse([]) == []
  {
  }

  lemma PlainDistributesIff(a: seq<byte>, b: seq<byte>)
    requires Whole(a) && a != [] && !Special(a + b)
    ensures Parse(a + b) == Parse(a) + Parse(b) <==> !Special(b)
  {
    BatchDistributes(a, b);
    assert !Special(a) by {
      assert (a + b)[0] == a[0] && (a + b)[1] == a[1];
    }
    if Special(b) {
      assert Batch(b)[0] == ParseOne(b[..3]);
      assert Parse(b)[0] != Batch(b)[0];
      assert (Parse(a) + Parse(b))[|Parse(a)|] == Parse(b)[0];
      assert (Batch(a) + Batch(b))[|Parse(a)|] == Batch(b)[0];
    }
  }
}
