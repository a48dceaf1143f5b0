/**
 * The C client's end of the bridge socket (`printer-app/bridge.c`): a receive buffer that grows
 * by doubling, is filled by reads of any size and shifted down as messages are consumed.
 */
module BridgeLink {
  import opened Bytes
  import opened Framing

  const PENDING_SIZE := 32
  const SCRATCH_SIZE := 4096

  /** A connected stream socket: `unread` is everything the peer will send before it closes. */
  class Socket {
    var unread: seq<byte>
    var sent: seq<byte>

    constructor (incoming: seq<byte>)
      ensures unread == incoming && sent == []
    {
      unread := incoming;
      sent := [];
    }

    /** `read`: an error, or some of the bytes asked for; none exactly at the end of the stream. */
    method Read(want: nat) returns (ok: bool, data: seq<byte>)
      requires want >= 1
      modifies this
      ensures sent == old(sent)
      ensures ok ==> data + unread == old(unread) && |data| <= want && (data == [] <==> old(unread) == [])
      ensures !ok ==> unread == old(unread)
    {
      var fails: bool := *;
      if fails {
        return false, [];
      }
      if unread == [] {
        return true, [];
      }
      var n: nat :| 1 <= n <= want && n <= |unread|;
      data := unread[..n];
      unread := unread[n..];
      ok := true;
    }

    /** `send`: an error, or some of the bytes taken, at least one. */
    method Send(data: seq<byte>) returns (ok: bool, n: nat)
      requires data != []
      modifies this
      ensures unread == old(unread)
      ensures ok ==> 1 <= n <= |data| && sent == old(sent) + data[..n]
      ensures !ok ==> sent == old(sent)
    {
      var fails: bool := *;
      if fails {
        return false, 0;
      }
      n :| 1 <= n <= |data|;
      sent := sent + data[..n];
      ok := true;
    }
  }

  datatype Filled = Line(length: nat) | TooLong | AtEnd | ReadFailed

  /** What one `read_message` returns; the payload of a message is discarded. */
  datatype Received = Obj(m: Message) | Failed(why: Item) | SocketError

  datatype ReplyResult = Has(answer: Answer) | Lost

  class Link {
    const socket: Socket
    var open: bool
    var line: array<byte>
    var lineLen: nat
    var pending: string

    /** Sizes the doubling can reach. */
    static predicate SizeOk(n: nat) {
      n in {0, 4096, 8192, 16384, 32768, 65536}
    }

    ghost predicate Valid()
      reads this
    {
      SizeOk(line.Length) && lineLen <= line.Length <= MAX_LINE && |pending| < PENDING_SIZE
    }

    /** Bytes received or still to be received that no message has consumed. */
    ghost function Unparsed(): seq<byte>
      reads this, line, socket
      requires Valid()
    {
      line[..lineLen] + socket.unread
    }

    constructor (s: Socket)
      ensures Valid() && open && socket == s && Unparsed() == s.unread && pending == "" && fresh(line)
    {
      socket := s;
      open := true;
      line := new byte[0];
      lineLen := 0;
      pending := "";
    }

    /** `drop_link`. */
    method DropLink()
      requires Valid()
      modifies this
      ensures Valid() && !open && lineLen == 0 && pending == "" && line == old(line)
    {
      open := false;
      lineLen := 0;
      pending := "";
    }

    /** `memchr(b->line, '\n', b->line_len)`. */
    method FindNewline() returns (i: nat)
      requires Valid()
      ensures i <= lineLen && (i < lineLen ==> line[i] == NEWLINE) && NEWLINE !in line[..i]
    {
      i := 0;
      while i < lineLen && line[i] != NEWLINE
        invariant i <= lineLen && NEWLINE !in line[..i]
      {
        i := i + 1;
      }
    }

    /** `realloc` to the next size, contents kept. */
    method Grow()
      requires Valid() && lineLen == line.Length < MAX_LINE
      modifies this
      ensures Valid() && fresh(line) && lineLen == old(lineLen)
      ensures line.Length == if old(line.Length) == 0 then 4096 else 2 * old(line.Length)
      ensures line[..lineLen] == old(line[..lineLen])
      ensures open == old(open) && pending == old(pending)
    {
      var size := if line.Length > 0 then line.Length * 2 else 4096;
      var bigger := new byte[size];
      var i := 0;
      while i < lineLen
        invariant 0 <= i <= lineLen
        invariant bigger[..i] == line[..i] && line[..lineLen] == old(line[..lineLen])
        invariant line == old(line) && lineLen == old(lineLen)
        modifies bigger
      {
        bigger[i] := line[i];
        i := i + 1;
      }
      line := bigger;
    }

    /**
     * `fill_line`: reads until the buffer holds a line. Whatever the sizes of the reads, what it
     * finds is the first newline of the bytes to come; and every read asks for at least one byte.
     */
    method FillLine() returns (r: Filled)
      requires Valid() && open
      modifies this, line, socket
      ensures Valid() && (line == old(line) || fresh(line)) && socket.sent == old(socket.sent)
      ensures open ==> Unparsed() == old(Unparsed()) && pending == old(pending)
      ensures r.Line? ==> open && r.length < lineLen && r.length == Newline(old(Unparsed())) < MAX_LINE
                          && line[..r.length] == old(Unparsed())[..r.length]
      ensures r.TooLong? ==> open && Newline(old(Unparsed())) >= MAX_LINE
      ensures r.AtEnd? ==> !open && Newline(old(Unparsed())) == |old(Unparsed())| < MAX_LINE
      ensures r.ReadFailed? ==> !open
    {
      while true
        invariant Valid() && open && (line == old(line) || fresh(line)) && socket.sent == old(socket.sent)
        invariant Unparsed() == old(Unparsed()) && pending == old(pending)
        decreases |socket.unread|
      {
        var nl := FindNewline();
        ghost var all := Unparsed();
        assert all[..nl] == line[..nl];
        if nl < lineLen {
          assert all[nl] == NEWLINE;
          NewlineUnique(all, nl);
          return Line(nl);
        }
        if lineLen >= MAX_LINE {
          NewlineBeyond(all, lineLen);
          return TooLong;
        }
        if lineLen == line.Length {
          Grow();
        }
        var ok, data := socket.Read(line.Length - lineLen);
        if !ok {
          DropLink();
          return ReadFailed;
        }
        if data == [] {
          assert all[..lineLen] == all;
          NewlineUnique(all, |all|);
          DropLink();
          return AtEnd;
        }
        Store(data);
      }
    }

    static lemma NewlineBeyond(s: seq<byte>, n: nat)
      requires n <= |s| && NEWLINE !in s[..n]
      ensures Newline(s) >= n
    {
      var i := Newline(s);
      assert forall k :: 0 <= k < n ==> s[k] == s[..n][k];
    }

    /** What `read` does to the buffer. */
    method Store(data: seq<byte>)
      requires Valid() && lineLen + |data| <= line.Length
      modifies this, line
      ensures Valid() && line == old(line) && lineLen == old(lineLen) + |data|
      ensures line[..lineLen] == old(line[..lineLen]) + data
      ensures open == old(open) && pending == old(pending)
    {
      var i := 0;
      while i < |data|
        invariant 0 <= i <= |data| && line == old(line) && lineLen == old(lineLen)
        invariant line[..lineLen] == old(line[..lineLen])
        invariant line[lineLen..lineLen + i] == data[..i]
        modifies line
      {
        line[lineLen + i] := data[i];
        i := i + 1;
      }
      lineLen := lineLen + |data|;
    }

    /** `consume`: the `memmove` that drops the first `count` buffered bytes. */
    method Consume(count: nat)
      requires Valid() && count <= lineLen
      modifies this, line
      ensures Valid() && line == old(line) && lineLen == old(lineLen) - count
      ensures line[..lineLen] == old(line[..lineLen])[count..]
      ensures open == old(open) && pending == old(pending)
    {
      var i := 0;
      while i < lineLen - count
        invariant 0 <= i <= lineLen - count && line == old(line) && lineLen == old(lineLen)
        invariant forall k :: 0 <= k < i ==> line[k] == old(line[k + count])
        invariant forall k :: i + count <= k < lineLen ==> line[k] == old(line[k])
        modifies line
      {
        line[i] := line[i + count];
        i := i + 1;
      }
      lineLen := lineLen - count;
    }

    static lemma DropFront(s: seq<byte>, k: nat, front: seq<byte>, rest: seq<byte>)
      requires k <= |s| && s[k..] == front + rest
      ensures k + |front| <= |s| && s[k + |front|..] == rest
    {
      assert s[k + |front|..] == s[k..][|front|..];
    }

    /** `discard_payload`: from the buffer first, then through a scratch buffer. */
    method DiscardPayload(count: nat) returns (ok: bool, closed: bool)
      requires Valid() && open
      modifies this, line, socket
      ensures Valid() && line == old(line) && socket.sent == old(socket.sent)
      ensures ok ==>
                open && count <= |old(Unparsed())| && Unparsed() == old(Unparsed())[count..] && pending == old(pending)
      ensures !ok ==> !open
      ensures !ok && closed ==> |old(Unparsed())| < count
    {
      var size := count;
      ghost var start := Unparsed();
      while size > 0
        invariant Valid() && open && line == old(line) && pending == old(pending) && socket.sent == old(socket.sent)
        invariant 0 <= size <= count && count - size <= |start|
        invariant Unparsed() == start[count - size..]
        decreases size
      {
        if lineLen > 0 {
          var take := Min(lineLen, size);
          ghost var buffered := line[..lineLen];
          Consume(take);
          assert buffered + socket.unread == buffered[..take] + (buffered[take..] + socket.unread);
          DropFront(start, count - size, buffered[..take], Unparsed());
          size := size - take;
        } else {
          assert line[..0] + socket.unread == socket.unread;
          var readOk, data := socket.Read(Min(size, SCRATCH_SIZE));
          if !readOk {
            DropLink();
            return false, false;
          }
          if data == [] {
            DropLink();
            return false, true;
          }
          assert line[..0] + socket.unread == socket.unread;
          DropFront(start, count - size, data, socket.unread);
          size := size - |data|;
        }
      }
      return true, false;
    }

    /**
     * `read_message`. Unless the socket fails it returns what `CRead` says of the bytes to come
     * and leaves exactly the rest, for every way the reads may have cut them.
     */
    method ReadMessage(decode: seq<byte> -> Json) returns (r: Received)
      requires Valid() && open
      modifies this, line, socket
      ensures Valid() && (line == old(line) || fresh(line)) && socket.sent == old(socket.sent)
      ensures r.SocketError? ==> !open
      ensures !r.SocketError? ==> var c := CRead(decode, old(Unparsed()));
                && (if r.Obj? then c.item.Got? && r.m == c.item.m else !c.item.Got? && r.why == c.item)
                && (open <==> !c.item.Closed?)
                && (open ==> Unparsed() == c.rest && pending == old(pending))
    {
      hide Newline, CSize;
      ghost var all := Unparsed();
      var filled := FillLine();
      if filled.ReadFailed? {
        return SocketError;
      }
      if filled.AtEnd? {
        return Failed(Closed);
      }
      if filled.TooLong? {
        return Failed(LongLine);
      }
      var obj := decode(line[..filled.length]);
      ghost var buffered := line[..lineLen];
      Consume(filled.length + 1);
      assert Unparsed() == all[filled.length + 1..];
      if !obj.Object? {
        return Failed(BadJson);
      }
      var size := CSize(obj.m.cSize);
      if size.None? {
        return Failed(BadSize);
      }
      var ok, closed := DiscardPayload(size.value);
      if !ok {
        return if closed then Failed(Closed) else SocketError;
      }
      r := Obj(obj.m);
    }

    /**
     * `read_message` over and over. Unless the socket fails, the objects it returned up to the
     * first failure are the messages of the whole stream, in order, however the reads cut it.
     */
    method ReadAll(decode: seq<byte> -> Json) returns (messages: seq<Message>, end: Received)
      requires Valid() && open
      modifies this, line, socket
      ensures Valid() && socket.sent == old(socket.sent) && !end.Obj?
      ensures messages <= CMessages(decode, old(Unparsed()))
      ensures end.Failed? ==> messages == CMessages(decode, old(Unparsed()))
    {
      hide CRead, CMessages;
      messages := [];
      ghost var all := CMessages(decode, Unparsed());
      assert [] + all == all;
      while true
        invariant Valid() && open && (line == old(line) || fresh(line)) && socket.sent == old(socket.sent)
        invariant all == messages + CMessages(decode, Unparsed())
        decreases |Unparsed()|
      {
        ghost var now := Unparsed();
        CMessagesStep(decode, now);
        end := ReadMessage(decode);
        if !end.Obj? {
          assert messages + [] == messages;
          return;
        }
        ghost var later := CMessages(decode, Unparsed());
        assert messages + ([end.m] + later) == messages + [end.m] + later;
        messages := messages + [end.m];
      }
    }

    /**
     * `phomemo_bridge_reply`. Unless the socket fails it returns what `CReply` says of the bytes
     * to come: the first message that is neither an event nor the acknowledgement of an abort,
     * with every event before it handed to the callback in order.
     */
    method Reply(decode: seq<byte> -> Json) returns (r: ReplyResult, events: seq<Message>)
      requires Valid()
      modifies this, line, socket
      ensures Valid() && socket.sent == old(socket.sent)
      ensures !old(open) ==> r.Lost? && socket.unread == old(socket.unread)
      ensures r.Lost? ==> !open
      ensures r.Has? ==> var a := CReply(decode, old(Unparsed()), old(pending));
                r.answer == a.answer && events == a.events && (open ==> Unparsed() == a.rest)
    {
      events := [];
      if !open {
        return Lost, [];
      }
      ghost var all := CReply(decode, Unparsed(), pending);
      NothingBefore(all);
      hide CRead, CReply, After, Skipped;
      while true
        invariant Valid() && open && (line == old(line) || fresh(line)) && socket.sent == old(socket.sent)
        invariant pending == old(pending)
        invariant all == After(events, CReply(decode, Unparsed(), pending))
        decreases |Unparsed()|
      {
        ghost var now := CReply(decode, Unparsed(), pending);
        ReplyStep(decode, Unparsed(), pending);
        var got := ReadMessage(decode);
        if got.SocketError? {
          return Lost, events;
        }
        if got.Failed? {
          NothingAfter(events, now);
          return Has(NoReply(got.why)), events;
        }
        if !Skipped(got.m, pending) {
          NothingAfter(events, now);
          return Has(if got.m.ok == Some(true) then Answer.Reply(got.m) else Refused(got.m)), events;
        }
        OneAfter(events, got.m, CReply(decode, Unparsed(), pending), now);
        if got.m.event {
          events := events + [got.m];
        }
      }
    }

    /** `write_all`: everything, or a prefix and a dropped link. */
    method WriteAll(data: seq<byte>) returns (ok: bool)
      requires Valid() && open
      modifies this, socket
      ensures Valid() && line == old(line) && socket.unread == old(socket.unread)
      ensures ok ==>
                open && socket.sent == old(socket.sent) + data && pending == old(pending) && lineLen == old(lineLen)
      ensures !ok ==> !open && old(socket.sent) <= socket.sent <= old(socket.sent) + data
    {
      var done := 0;
      while done < |data|
        invariant Valid() && open && line == old(line) && lineLen == old(lineLen) && pending == old(pending)
        invariant 0 <= done <= |data| && socket.sent == old(socket.sent) + data[..done]
                  && socket.unread == old(socket.unread)
        decreases |data| - done
      {
        var sent, n := socket.Send(data[done..]);
        if !sent {
          DropLink();
          return false;
        }
        assert data[..done] + data[done..][..n] == data[..done + n];
        done := done + n;
      }
      assert data[..done] == data;
      ok := true;
    }

    /**
     * `phomemo_bridge_send`: the frame `encode_message` defines, and `pending` names the request
     * from here on unless it is an abort.
     */
    method SendRequest(encode: Message -> seq<byte>, request: Message, payload: seq<byte>) returns (ok: bool)
      requires Valid()
      modifies this, socket
      ensures Valid() && line == old(line) && socket.unread == old(socket.unread)
      ensures !old(open) ==> !ok && socket.sent == old(socket.sent)
      ensures ok ==>
                open && socket.sent == old(socket.sent) + Encode(encode, request, payload) && lineLen == old(lineLen)
      ensures ok ==> pending == if request.cmd.Some? && request.cmd.value != "abort"
                                then Truncated(request.cmd.value) else old(pending)
      ensures !ok ==> !open && old(socket.sent) <= socket.sent <= old(socket.sent) + Encode(encode, request, payload)
    {
      if !open {
        return false;
      }
      var text := encode(Attach(request, payload));
      if request.cmd.Some? && request.cmd.value != "abort" {
        pending := Truncated(request.cmd.value);
      }
      ok := WriteAll(text + [NEWLINE]);
      if ok && |payload| > 0 {
        ok := WriteAll(payload);
      }
    }
  }

  /** An answer with the events that came before it. */
  function After(events: seq<Message>, a: Answered): Answered { a.(events := events + a.events) }

  lemma NothingBefore(a: Answered)
    ensures After([], a) == a
  {
    assert [] + a.events == a.events;
  }

  lemma NothingAfter(events: seq<Message>, a: Answered)
    requires a.events == []
    ensures After(events, a) == a.(events := events)
  {
    assert events + [] == events;
  }

  lemma OneAfter(events: seq<Message>, m: Message, later: Answered, now: Answered)
    requires now == later.(events := (if m.event then [m] else []) + later.events)
    ensures After(events, now) == After(if m.event then events + [m] else events, later)
  {
    assert events + ([m] + later.events) == events + [m] + later.events;
    assert [] + later.events == later.events;
  }

  /** `snprintf` into the 32 bytes of `pending`. */
  function Truncated(s: string): string {
    if |s| < PENDING_SIZE then s else s[..PENDING_SIZE - 1]
  }
}
