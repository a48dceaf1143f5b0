/**
 * The wire format of the bridge socket (`phomemo/bridge/protocol.py`) and the reading of it by the
 * C client (`printer-app/bridge.c`) as functions of the bytes still to come. JSON text is abstract:
 * a decoder from a line to what the line holds.
 */
module Framing {
  import opened Bytes

  const NEWLINE: byte := 0x0a
  const MAX_LINE := 64 * 1024
  const MAX_PAYLOAD := 16 * 1024 * 1024

  /** The JSON value of a message's "bytes" member. */
  datatype Size = Absent | Integer(n: int) | Fraction(r: real) | Boolean(b: bool) | Other

  /**
   * The members the protocol looks at; `rest` stands for all others. `size` is what Python finds
   * under "bytes", `cSize` what cJSON's lookup finds, which takes "Bytes" for it too.
   */
  datatype Message = Message(event: bool, cmd: Option<string>, ok: Option<bool>, error: Option<string>,
                             count: int, size: Size, cSize: Size, rest: string)

  /** Messages either program writes: both lookups find the same, nothing or a whole number. */
  predicate Plain(m: Message) { m.cSize == m.size && (m.size.Absent? || m.size.Integer?) }

  /** A message before a payload is attached. */
  predicate Bare(m: Message) { m.size == Absent && m.cSize == Absent }

  datatype Json = Object(m: Message) | NotObject | Malformed

  datatype Item = Got(m: Message, payload: seq<byte>) | LongLine | BadJson | BadSize | Closed

  datatype Read = Read(item: Item, rest: seq<byte>)

  /** Index of the first newline, or the length when there is none. */
  function Newline(s: seq<byte>): (i: nat)
    ensures i <= |s| && (i < |s| ==> s[i] == NEWLINE) && NEWLINE !in s[..i]
  {
    if s == [] || s[0] == NEWLINE then 0
    else
      var i := 1 + Newline(s[1..]);
      assert s[..i] == [s[0]] + s[1..][..i - 1];
      i
  }

  lemma NewlineUnique(s: seq<byte>, i: nat)
    requires i <= |s| && (i < |s| ==> s[i] == NEWLINE) && NEWLINE !in s[..i]
    ensures Newline(s) == i
  {
    var j := Newline(s);
    assert forall k :: 0 <= k < i ==> s[k] == s[..i][k];
    assert forall k :: 0 <= k < j ==> s[k] == s[..j][k];
  }

  // ------------------------------------------------------------------
  // The Python end
  // ------------------------------------------------------------------

  /** The payload length `read_message` takes from a message; None is its ProtocolError. */
  function PySize(z: Size): Option<nat> {
    match z
    case Absent => Some(0)
    case Integer(n) => if 0 <= n <= MAX_PAYLOAD then Some(n) else None
    case Boolean(b) => Some(if b then 1 else 0)
    case Fraction(_) => None
    case Other => None
  }

  /** `read_message` on a stream whose remaining bytes, up to its end, are `s`. */
  function PyRead(decode: seq<byte> -> Json, s: seq<byte>): Read {
    var i := Newline(s);
    if i == |s| then Read(if |s| > MAX_LINE then LongLine else Closed, s)
    else if i + 1 > MAX_LINE then Read(LongLine, s)
    else
      var rest := s[i + 1..];
      match decode(s[..i])
      case Malformed => Read(BadJson, rest)
      case NotObject => Read(BadJson, rest)
      case Object(m) =>
        var size := PySize(m.size);
        if size.None? then Read(BadSize, rest)
        else if |rest| < size.value then Read(Closed, rest)
        else Read(Got(m, rest[..size.value]), rest[size.value..])
  }

  /** `encode_message`: the payload's length goes into the object, its bytes behind the line. */
  function Attach(m: Message, payload: seq<byte>): Message {
    if payload == [] then m else m.(size := Integer(|payload|), cSize := Integer(|payload|))
  }

  function Encode(encode: Message -> seq<byte>, m: Message, payload: seq<byte>): seq<byte> {
    encode(Attach(m, payload)) + [NEWLINE] + payload
  }

  /** What both ends rely on: the text of a message decodes to it and contains no newline. */
  ghost predicate JsonLaws(encode: Message -> seq<byte>, decode: seq<byte> -> Json) {
    forall m :: Plain(m) ==> decode(encode(m)) == Object(m) && NEWLINE !in encode(m)
  }

  /** The line with its newline and the payload keep to the limits. */
  predicate FrameFits(encode: Message -> seq<byte>, m: Message, payload: seq<byte>) {
    |encode(Attach(m, payload))| + 1 <= MAX_LINE && |payload| <= MAX_PAYLOAD
  }

  /** A frame is read back, payload and all, exactly when its line and payload fit the limits. */
  lemma FrameRoundTrip(encode: Message -> seq<byte>, decode: seq<byte> -> Json, m: Message, payload: seq<byte>,
                       rest: seq<byte>)
    requires JsonLaws(encode, decode) && Bare(m)
    ensures FrameFits(encode, m, payload) <==> |encode(Attach(m, payload))| < 65536 && |payload| <= 16777216
    ensures FrameFits(encode, m, payload) ==>
              PyRead(decode, Encode(encode, m, payload) + rest) == Read(Got(Attach(m, payload), payload), rest)
    ensures !FrameFits(encode, m, payload) ==>
              !PyRead(decode, Encode(encode, m, payload) + rest).item.Got?
  {
    var line := encode(Attach(m, payload));
    var s := Encode(encode, m, payload) + rest;
    assert s[..|line|] == line;
    NewlineUnique(s, |line|);
    assert s[|line| + 1..] == payload + rest;
    assert (payload + rest)[..|payload|] == payload && (payload + rest)[|payload|..] == rest;
    assert s[|line| + 1..][..0] == [];
  }

  // ------------------------------------------------------------------
  // The C end
  // ------------------------------------------------------------------

  /** The payload length the C client discards; None is "invalid payload length". */
  function CSize(z: Size): Option<nat> {
    match z
    case Absent => Some(0)
    case Integer(n) => if 0 <= n <= MAX_PAYLOAD then Some(n) else None
    case Fraction(r) => if 0.0 <= r <= MAX_PAYLOAD as real then Some(r.Floor) else None
    case Boolean(_) => None
    case Other => None
  }

  /**
   * One call of the C `read_message` when the bytes buffered and still to come are `s`. An
   * over-long line stays in the buffer; malformed text and a bad length cost only their line.
   */
  function CRead(decode: seq<byte> -> Json, s: seq<byte>): Read {
    var i := Newline(s);
    if i >= MAX_LINE then Read(LongLine, s)
    else if i == |s| then Read(Closed, [])
    else
      var rest := s[i + 1..];
      match decode(s[..i])
      case Malformed => Read(BadJson, rest)
      case NotObject => Read(BadJson, rest)
      case Object(m) =>
        var size := CSize(m.cSize);
        if size.None? then Read(BadSize, rest)
        else if |rest| < size.value then Read(Closed, [])
        else Read(Got(m, rest[..size.value]), rest[size.value..])
  }

  /** The two ends take the same payload length except for a fraction in range and a boolean. */
  lemma SizesAgreeIff(z: Size)
    ensures PySize(z) == CSize(z)
       <==> !(z.Boolean? || (z.Fraction? && 0.0 <= z.r <= MAX_PAYLOAD as real))
  {
  }

  /** The bytes begin with a line within the limit that holds an object. */
  predicate ObjectLine(decode: seq<byte> -> Json, s: seq<byte>) {
    Newline(s) < |s| && Newline(s) + 1 <= MAX_LINE && decode(s[..Newline(s)]).Object?
  }

  /** A length that is accepted and whose bytes are there. */
  predicate Taken(size: Option<nat>, there: nat) { size.Some? && size.value <= there }

  /** The ends accept the same: the same message with the same payload, leaving the same rest. */
  predicate Agree(decode: seq<byte> -> Json, s: seq<byte>) {
    && (PyRead(decode, s).item.Got? <==> CRead(decode, s).item.Got?)
    && (CRead(decode, s).item.Got? ==> CRead(decode, s) == PyRead(decode, s))
  }

  /**
   * The C reader and the Python reader are one on every byte stream, except exactly where an object
   * gives the two ends different lengths and one of these lengths is taken.
   */
  lemma ReadersAgreeIff(decode: seq<byte> -> Json, s: seq<byte>)
    ensures Agree(decode, s)
       <==>
       !ObjectLine(decode, s) ||
       (var m, there := decode(s[..Newline(s)]).m, |s| - Newline(s) - 1;
        PySize(m.size) == CSize(m.cSize) || (!Taken(PySize(m.size), there) && !Taken(CSize(m.cSize), there)))
  {
    hide PySize, CSize, Newline, PyRead, CRead;
    if ObjectLine(decode, s) {
      PyAtLine(decode, s);
      CAtLine(decode, s);
    } else {
      NoObjectLine(decode, s);
    }
  }

  /** What the Python end does with an object line. */
  lemma PyAtLine(decode: seq<byte> -> Json, s: seq<byte>)
    requires ObjectLine(decode, s)
    ensures var m, rest := decode(s[..Newline(s)]).m, s[Newline(s) + 1..];
            var size := PySize(m.size);
            if Taken(size, |rest|) then PyRead(decode, s) == Read(Got(m, rest[..size.value]), rest[size.value..])
            else !PyRead(decode, s).item.Got?
  {
    hide PySize, Newline;
  }

  lemma CAtLine(decode: seq<byte> -> Json, s: seq<byte>)
    requires ObjectLine(decode, s)
    ensures var m, rest := decode(s[..Newline(s)]).m, s[Newline(s) + 1..];
            var size := CSize(m.cSize);
            if Taken(size, |rest|) then CRead(decode, s) == Read(Got(m, rest[..size.value]), rest[size.value..])
            else !CRead(decode, s).item.Got?
  {
    hide CSize, Newline;
  }

  lemma NoObjectLine(decode: seq<byte> -> Json, s: seq<byte>)
    requires !ObjectLine(decode, s)
    ensures !PyRead(decode, s).item.Got? && !CRead(decode, s).item.Got?
  {
    hide PySize, CSize, Newline;
  }

  /** Where they differ: a fraction, a boolean, and a member whose name differs in case. */
  lemma ReadersDiffer(decode: seq<byte> -> Json, line: seq<byte>, m: Message, payload: seq<byte>)
    requires NEWLINE !in line && |line| < MAX_LINE && decode(line) == Object(m) && |payload| == 3
    ensures m.size == Fraction(2.5) == m.cSize || m.size == Boolean(true) == m.cSize
            || (m.size == Absent && m.cSize == Integer(3)) ==>
              !Agree(decode, line + [NEWLINE] + payload)
  {
    var s := line + [NEWLINE] + payload;
    assert s[..|line|] == line;
    NewlineUnique(s, |line|);
    ReadersAgreeIff(decode, s);
    hide Agree;
    FloorOfHalves();
  }

  lemma FloorOfHalves()
    ensures CSize(Fraction(2.5)) == Some(2)
  {
  }

  // ------------------------------------------------------------------
  // Whole streams
  // ------------------------------------------------------------------

  datatype Frame = Frame(m: Message, payload: seq<byte>)

  /** The messages at the front of a stream, up to the first thing that is not one. */
  function CMessages(decode: seq<byte> -> Json, s: seq<byte>): seq<Message>
    decreases |s|
  {
    var r := CRead(decode, s);
    if !r.item.Got? then [] else [r.item.m] + CMessages(decode, r.rest)
  }

  lemma CMessagesStep(decode: seq<byte> -> Json, s: seq<byte>)
    ensures var r := CRead(decode, s);
            if r.item.Got? then |r.rest| < |s| && CMessages(decode, s) == [r.item.m] + CMessages(decode, r.rest)
            else CMessages(decode, s) == []
  {
  }

  function EncodeAll(encode: Message -> seq<byte>, frames: seq<Frame>): seq<byte> {
    if frames == [] then [] else Encode(encode, frames[0].m, frames[0].payload) + EncodeAll(encode, frames[1..])
  }

  function Attached(frames: seq<Frame>): seq<Message> {
    if frames == [] then [] else [Attach(frames[0].m, frames[0].payload)] + Attached(frames[1..])
  }

  /** Any number of frames the Python end writes are the messages the C end reads, in order. */
  lemma {:induction false} StreamsRoundTrip(encode: Message -> seq<byte>, decode: seq<byte> -> Json, frames: seq<Frame>)
    requires JsonLaws(encode, decode)
    requires forall f :: f in frames ==> Bare(f.m) && FrameFits(encode, f.m, f.payload)
    ensures CMessages(decode, EncodeAll(encode, frames)) == Attached(frames)
  {
    if frames != [] {
      var f := frames[0];
      var s := EncodeAll(encode, frames);
      FrameRoundTrip(encode, decode, f.m, f.payload, EncodeAll(encode, frames[1..]));
      var line := encode(Attach(f.m, f.payload));
      assert s[..|line|] == line;
      NewlineUnique(s, |line|);
      ReadersAgreeIff(decode, s);
      StreamsRoundTrip(encode, decode, frames[1..]);
    } else {
      assert Newline([]) == 0;
    }
  }

  // ------------------------------------------------------------------
  // Replies
  // ------------------------------------------------------------------

  datatype Answer = Reply(m: Message) | Refused(m: Message) | NoReply(why: Item)

  datatype Answered = Answered(answer: Answer, events: seq<Message>, rest: seq<byte>)

  /** A message `reply` passes over: an event, or the acknowledgement of an abort. */
  predicate Skipped(m: Message, pending: string) {
    m.event || (m.cmd == Some("abort") && pending != "abort")
  }

  /** `phomemo_bridge_reply` on the bytes still to come. */
  function CReply(decode: seq<byte> -> Json, s: seq<byte>, pending: string): Answered
    decreases |s|
  {
    var r := CRead(decode, s);
    if !r.item.Got? then Answered(NoReply(r.item), [], r.rest)
    else
      var m := r.item.m;
      if Skipped(m, pending) then
        var later := CReply(decode, r.rest, pending);
        if m.event then later.(events := [m] + later.events) else later
      else Answered(if m.ok == Some(true) then Reply(m) else Refused(m), [], r.rest)
  }

  /** One message of `CReply`, by its kind. */
  lemma ReplyStep(decode: seq<byte> -> Json, s: seq<byte>, pending: string)
    ensures var r := CRead(decode, s);
            && |r.rest| <= |s| && (r.item.Got? ==> |r.rest| < |s|)
            && (!r.item.Got? ==> CReply(decode, s, pending) == Answered(NoReply(r.item), [], r.rest))
            && (r.item.Got? && !Skipped(r.item.m, pending) ==>
                  CReply(decode, s, pending)
                  == Answered(if r.item.m.ok == Some(true) then Reply(r.item.m) else Refused(r.item.m), [], r.rest))
            && (r.item.Got? && Skipped(r.item.m, pending) ==>
                  var later := CReply(decode, r.rest, pending);
                  CReply(decode, s, pending)
                  == later.(events := (if r.item.m.event then [r.item.m] else []) + later.events))
  {
  }

  /** The events among messages. */
  function EventsOf(ms: seq<Message>): seq<Message> {
    if ms == [] then [] else (if ms[0].event then [ms[0]] else []) + EventsOf(ms[1..])
  }

  /**
   * The reply is the first message of the stream that is neither an event nor the acknowledgement of
   * an abort. The events before it, all of them, are handed over in order, and what is behind it stays.
   */
  lemma {:induction false} ReplyIsFirstAnswer(decode: seq<byte> -> Json, s: seq<byte>, pending: string) returns (n: nat)
    ensures var ms, a := CMessages(decode, s), CReply(decode, s, pending);
            && n <= |ms| && (n == |ms| <==> a.answer.NoReply?) && a.events == EventsOf(ms[..n])
            && (forall k :: 0 <= k < n ==> ms[k].event || (ms[k].cmd == Some("abort") && pending != "abort"))
            && (n < |ms| ==>
                  && !ms[n].event && (ms[n].cmd == Some("abort") ==> pending == "abort")
                  && a.answer == (if ms[n].ok == Some(true) then Reply(ms[n]) else Refused(ms[n]))
                  && CMessages(decode, a.rest) == ms[n + 1..])
    decreases |s|
  {
    var r := CRead(decode, s);
    CMessagesStep(decode, s);
    ReplyStep(decode, s, pending);
    n := 0;
    if r.item.Got? && Skipped(r.item.m, pending) {
      var k := ReplyIsFirstAnswer(decode, r.rest, pending);
      n := k + 1;
      var ms, later := CMessages(decode, s), CMessages(decode, r.rest);
      hide CRead, CReply, CMessages;
      assert ms == [r.item.m] + later;
      assert forall i :: 0 < i < n ==> ms[i] == later[i - 1];
      EventsStep(r.item.m, later, k);
    }
  }

  lemma EventsStep(m: Message, later: seq<Message>, k: nat)
    requires k <= |later|
    ensures EventsOf(([m] + later)[..k + 1]) == (if m.event then [m] else []) + EventsOf(later[..k])
    ensures ([m] + later)[k + 1..] == later[k..]
    ensures k < |later| ==> ([m] + later)[k + 2..] == later[k + 1..]
  {
    assert ([m] + later)[..k + 1] == [m] + later[..k];
  }
}
