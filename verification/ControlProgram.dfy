/** The control connection as both ends update it in place: fixed read buffers, a queue, a write pointer. */
module ControlProgram {
  import opened Wrappers
  import opened Framing
  import opened Control
  import opened ControlInvariants

  /** Drops the first `advance` bytes of the `len` in use by moving the others to the front. */
  method AdvanceReadBuffer(buffer: array<Byte>, len: nat, advance: nat) returns (remainder: nat)
    requires len <= buffer.Length
    modifies buffer
    ensures remainder == if advance <= len then len - advance else 0
    ensures advance <= len ==> buffer[..remainder] == old(buffer[advance..len])
  {
    if advance >= len {
      remainder := 0;
      return;
    }
    remainder := len - advance;
    for i := 0 to remainder
      invariant forall k | 0 <= k < i :: buffer[k] == old(buffer[advance + k])
      invariant forall k | i <= k < buffer.Length :: buffer[k] == old(buffer[k])
    {
      buffer[i] := buffer[advance + i];
    }
  }

  /** Appends what recv delivered. */
  method AppendToBuffer(buffer: array<Byte>, len: nat, chunk: Bytes)
    requires len + |chunk| <= buffer.Length
    modifies buffer
    ensures buffer[..len + |chunk|] == old(buffer[..len]) + chunk
  {
    for i := 0 to |chunk|
      invariant forall k | 0 <= k < len :: buffer[k] == old(buffer[k])
      invariant forall k | 0 <= k < i :: buffer[len + k] == chunk[k]
    {
      buffer[len + i] := chunk[i];
    }
  }

  // ---------------------------------------------------------------------------------------------------
  // Dispatching does not look at the read buffer

  lemma {:induction false} NotifyAllIgnoresInput(s: System, names: seq<string>, rest: Bytes)
    ensures NotifyAll(s.(readBuf := rest), names) == NotifyAll(s, names).(readBuf := rest)
    decreases |names|
  {
    if names != [] {
      NotifyAllIgnoresInput(NotifyClient(s, names[0]), names[1..], rest);
      assert NotifyClient(s.(readBuf := rest), names[0]) == NotifyClient(s, names[0]).(readBuf := rest);
    }
  }

  lemma {:induction false} DispatchIgnoresInput(link: Link, s: System, request: Bytes, rest: Bytes)
    ensures Dispatch(link, s.(readBuf := rest), request) == Dispatch(link, s, request).(readBuf := rest)
  {
    var h := link.Handle(|s.requests|, request);
    if h.Performed? {
      NotifyAllIgnoresInput(s.(requests := s.requests + [request]), h.notices, rest);
    }
  }

  /** What is left of recv_ready once it has `buf` in the read buffer. */
  ghost function Continue(link: Link, s: System, buf: Bytes): (r: System)
    requires link.Valid()
  {
    var parsed := Parse(link.decode, buf);
    var s1 := DispatchAll(link, s.(readBuf := parsed.rest), parsed.values);
    if parsed.malformed then InternalError(s1, EINVAL, "") else s1
  }

  /** `s` has the buffer the loop looks at; taking the first object out of it and dispatching it leaves the
      outcome of the whole loop unchanged. */
  lemma {:induction false} ContinueStep(link: Link, s: System)
    requires link.Valid() && s.readBuf != [] && link.decode(s.readBuf).Complete?
    ensures var found := link.decode(s.readBuf);
            var rest := s.readBuf[found.length..];
            Continue(link, s, s.readBuf) == Continue(link, Dispatch(link, s.(readBuf := rest), found.value), rest)
  {
    var found := link.decode(s.readBuf);
    var rest := s.readBuf[found.length..];
    DispatchIgnoresInput(link, s, found.value, Parse(link.decode, rest).rest);
    DispatchIgnoresInput(link, s, found.value, rest);
  }

  lemma {:induction false} ContinueEnds(link: Link, s: System)
    requires link.Valid() && (s.readBuf == [] || !link.decode(s.readBuf).Complete?)
    ensures Continue(link, s, s.readBuf) ==
            if s.readBuf != [] && link.decode(s.readBuf).Malformed? then InternalError(s, EINVAL, "") else s
  {
  }

  class ServerConnection {
    const link: Link
    const readBuffer: array<Byte>
    var readLen: nat
    var queue: seq<Entry>
    var unsent: Option<Bytes>    // the write_len bytes at write_ptr
    var writeInterest: bool
    var dropAfter: bool
    var acceptEvents: bool
    var open: bool
    var wire: Bytes
    var requests: seq<Bytes>

    ghost var clientBuf: Bytes
    ghost var decoded: seq<Msg>
    ghost var received: Bytes
    ghost var history: seq<Entry>
    ghost var taken: seq<Entry>

    ghost predicate Valid()
      reads this
    {
      && link.Valid()
      && readBuffer.Length == SERVER_BUFFER && readLen <= SERVER_BUFFER
      && (unsent.Some? ==> unsent.value != [])
    }

    ghost function Abs(): (s: System)
      reads this, readBuffer
      requires Valid()
    {
      System(open, readBuffer[..readLen], queue, unsent, writeInterest, dropAfter, acceptEvents, wire,
             clientBuf, decoded, received, requests, history, taken)
    }

    constructor (link: Link)
      requires link.Valid()
      ensures Valid() && this.link == link && fresh(readBuffer) && Abs() == CONNECTED
    {
      this.link := link;
      readBuffer := new Byte[SERVER_BUFFER];
      readLen, queue, unsent := 0, [], None;
      writeInterest, dropAfter, acceptEvents, open, wire := false, false, false, true, [];
      clientBuf, decoded, received, requests, history, taken := [], [], [], [], [], [];
    }

    method SetEventMask()
      requires Valid()
      modifies this`writeInterest
      ensures Valid() && Abs() == SetMask(old(Abs()))
    {
      writeInterest := |queue| > 0 || (unsent.Some? && |unsent.value| > 0);
    }

    method Enqueue(e: Entry)
      requires Valid()
      modifies this`queue, this`history, this`writeInterest
      ensures Valid() && Abs() == Append(old(Abs()), e)
    {
      queue := queue + [e];
      history := history + [e];
      SetEventMask();
    }

    method EnqueueInternalError(code: int, text: string)
      requires Valid()
      modifies this`queue, this`writeInterest, this`dropAfter
      ensures Valid() && Abs() == InternalError(old(Abs()), code, text)
    {
      queue := [Entry(Reply(Absent, code, text), Internal)] + queue;
      SetEventMask();
      dropAfter := true;
    }

    method EnqueueEvent(name: string)
      requires Valid()
      modifies this`queue, this`history, this`writeInterest
      ensures Valid() && Abs() == NotifyClient(old(Abs()), name)
    {
      if !acceptEvents { return; }
      Enqueue(Entry(Notice(name), ForEvent));
    }

    method EnqueueEvents(names: seq<string>)
      requires Valid()
      modifies this`queue, this`history, this`writeInterest
      ensures Valid() && Abs() == NotifyAll(old(Abs()), names)
    {
      for i := 0 to |names|
        invariant Valid() && NotifyAll(Abs(), names[i..]) == NotifyAll(old(Abs()), names)
      {
        assert names[i..][1..] == names[i + 1..];
        EnqueueEvent(names[i]);
      }
    }

    method CarryOutCommand(h: Handling)
      requires Valid()
      modifies this`queue, this`history, this`writeInterest, this`acceptEvents
      ensures Valid() && Abs() == CarryOut(old(Abs()), h)
    {
      match h
      case Subscribed(_) => acceptEvents := true;
      case Performed(_, notices, _, _) => EnqueueEvents(notices);
      case _ =>
    }

    method DispatchCommand(request: Bytes)
      requires Valid()
      modifies this`queue, this`history, this`writeInterest, this`acceptEvents, this`requests
      ensures Valid() && Abs() == Dispatch(link, old(Abs()), request)
    {
      var k := |requests|;
      var h := link.Handle(k, request);
      requests := requests + [request];
      CarryOutCommand(h);
      Enqueue(Entry(ReplyTo(h), ForRequest(k)));
    }

    method NextObject() returns (request: Option<Bytes>, failed: bool)
      requires Valid()
      modifies this`readLen, readBuffer
      ensures Valid()
      ensures var buf := old(readBuffer[..readLen]);
              if buf == [] then request == None && !failed && readBuffer[..readLen] == buf
              else match link.decode(buf)
                   case Complete(n, v) =>
                     request == Some(v) && !failed && n <= |buf| && readBuffer[..readLen] == buf[n..]
                   case Incomplete => request == None && !failed && readBuffer[..readLen] == buf
                   case Malformed => request == None && failed && readBuffer[..readLen] == buf
    {
      request, failed := None, false;
      if readLen == 0 { return; }
      match link.decode(readBuffer[..readLen])
      case Complete(n, v) =>
        readLen := AdvanceReadBuffer(readBuffer, readLen, n);
        request := Some(v);
      case Incomplete =>
      case Malformed => failed := true;
    }

    /** One round of the loop in recv_ready: it leaves the outcome of the remaining rounds unchanged. */
    method DispatchNext() returns (more: bool, failed: bool)
      requires Valid()
      modifies this, readBuffer
      ensures Valid()
      ensures more ==> !failed && readLen < old(readLen)
      ensures Continue(link, old(Abs()), old(Abs()).readBuf) ==
              if more then Continue(link, Abs(), Abs().readBuf)
              else if failed then InternalError(Abs(), EINVAL, "")
              else Abs()
    {
      var request;
      request, failed := NextObject();
      more := request.Some?;
      if more {
        ContinueStep(link, old(Abs()));
        DispatchCommand(request.value);
      } else {
        ContinueEnds(link, old(Abs()));
      }
    }

    /** Dispatches every complete object in the read buffer. */
    method DispatchObjects()
      requires Valid()
      modifies this, readBuffer
      ensures Valid() && Abs() == Continue(link, old(Abs()), old(Abs()).readBuf)
    {
      var more, failed := true, false;
      while more
        invariant Valid() && (more ==> !failed)
        invariant Continue(link, old(Abs()), old(Abs()).readBuf) ==
                  if more then Continue(link, Abs(), Abs().readBuf)
                  else if failed then InternalError(Abs(), EINVAL, "")
                  else Abs()
        decreases more, readLen
      {
        more, failed := DispatchNext();
      }
      if failed {
        EnqueueInternalError(EINVAL, "");
      }
    }

    method ReadChunk(chunk: Bytes)
      requires Valid() && readLen + |chunk| <= SERVER_BUFFER
      modifies this`readLen, this`received, readBuffer
      ensures Valid()
      ensures Abs() == old(Abs()).(readBuf := old(Abs()).readBuf + chunk, received := old(received) + chunk)
    {
      AppendToBuffer(readBuffer, readLen, chunk);
      readLen := readLen + |chunk|;
      received := received + chunk;
    }

    /** One readable socket with `chunk` to read. */
    method ReceiveRequests(chunk: Bytes)
      requires Valid() && 0 < |chunk| && readLen + |chunk| <= SERVER_BUFFER
      modifies this, readBuffer
      ensures Valid() && Abs() == RecvReady(link, old(Abs()), chunk)
    {
      ReadChunk(chunk);
      GoalAtStart(link, old(Abs()), chunk);
      DispatchObjects();
    }

    method TakeMessage()
      requires Valid()
      modifies this`unsent, this`taken, this`queue
      ensures Valid() && Abs() == TakeNext(link, old(Abs()))
    {
      if unsent.None? && |queue| > 0 {
        unsent := Some(link.encode(queue[0].msg));
        taken := taken + [queue[0]];
        queue := queue[1..];
      }
    }

    method EmitBytes(count: nat)
      requires Valid() && unsent.Some?
      modifies this`wire, this`unsent
      ensures Valid() && Abs() == Emit(old(Abs()), count)
    {
      var left := unsent.value;
      var n := if count <= |left| then count else |left|;
      wire := wire + left[..n];
      unsent := Some(left[n..]);
      if |left| - n == 0 {
        unsent := None;
      }
    }

    method SendPending(count: nat)
      requires Valid()
      modifies this
      ensures Valid() && Abs() == SendReady(link, old(Abs()), count)
    {
      TakeMessage();
      if unsent.None? {
        SetEventMask();
        return;
      }
      EmitBytes(count);
      if unsent.None? && dropAfter {
        open := false;
        return;
      }
      SetEventMask();
    }

    /** The readable half of on_ready, with what recv would return. Whatever it does is a step of the model or,
        when there was nothing to read, none. */
    method OnReadable(input: SocketRead)
      requires Valid() && Inv(link, Abs()) && open
      requires input.Data? ==> 0 < |input.bytes|
      modifies this, readBuffer
      ensures Valid() && Inv(link, Abs())
      ensures var s := old(Abs());
              if |s.readBuf| == SERVER_BUFFER then Steps(link, s, Overflow, Abs())
              else match input
                   case Data(bytes) => |s.readBuf| < SERVER_BUFFER && Steps(link, s, Recv(Received(s, bytes)), Abs())
                   case Again => Abs() == s
                   case Broken => Steps(link, s, RecvError, Abs())
                   case Closed => Steps(link, s, Hangup, Abs())
    {
      ghost var s := Abs();
      var space := SERVER_BUFFER - readLen;
      if space == 0 {
        StepKeepsInv(link, s, Overflow);
        EnqueueInternalError(EIO, "Buffer overflow");
        return;
      }
      match input
      case Data(bytes) =>
        StepKeepsInv(link, s, Recv(Received(s, bytes)));
        ReceiveRequests(if |bytes| <= space then bytes else bytes[..space]);
      case Again =>
      case Broken =>
        StepKeepsInv(link, s, RecvError);
        EnqueueInternalError(EIO, "Read failed");
      case Closed =>
        StepKeepsInv(link, s, Hangup);
        open := false;
    }

    /** The writable half of on_ready, with what send would return: a number of bytes, none when the socket is
        full, or a failure that ends the connection. */
    method OnWritable(output: SocketWrite)
      requires Valid() && Inv(link, Abs()) && open && writeInterest
      modifies this
      ensures Valid() && Inv(link, Abs())
      ensures Steps(link, old(Abs()), if output.Sent? then Send(output.count) else SendError, Abs())
    {
      hide Inv, SendReady;
      if output.Sent? {
        StepKeepsInv(link, Abs(), Send(output.count));
        SendPending(output.count);
      } else {
        StepKeepsInv(link, Abs(), SendError);
        TakeMessage();
        open := false;
      }
    }
  }

  /** The event is legal in `s` and leads to `r`. */
  ghost predicate Steps(link: Link, s: System, e: Event, r: System)
  {
    link.Valid() && Legal(link, s, e) && r == Step(link, s, e)
  }

  datatype SocketRead = Data(bytes: Bytes) | Again | Broken | Closed

  datatype SocketWrite = Sent(count: nat) | WriteFailed

  /** recv fills at most the space that is left. */
  ghost function Received(s: System, bytes: Bytes): (chunk: Bytes)
    requires |s.readBuf| <= SERVER_BUFFER
  {
    if |bytes| <= SERVER_BUFFER - |s.readBuf| then bytes else bytes[..SERVER_BUFFER - |s.readBuf|]
  }

  lemma {:induction false} GoalAtStart(link: Link, s: System, chunk: Bytes)
    requires link.Valid()
    ensures var s1 := s.(readBuf := s.readBuf + chunk, received := s.received + chunk);
            RecvReady(link, s, chunk) == Continue(link, s1, s.readBuf + chunk)
  {
  }

  // ---------------------------------------------------------------------------------------------------
  // The client

  /** What read_one_object ends with: a message, or the errno it leaves. */
  datatype ReadResult = Got(msg: Msg) | NeedMore | Garbage | TooLong | Stopped(why: Wait)

  /** What poll and recv can come back with. */
  datatype Wait = Arrives(size: nat) | Interrupted | PollFailed | TimedOut | RecvFailed | Disconnected

  /** Waiting ends here; an interrupted poll is repeated while the client waits for events. */
  predicate Stops(w: Wait, waitForEvents: bool)
  {
    !w.Arrives? && !(w.Interrupted? && waitForEvents)
  }

  class Client {
    const decode: Bytes -> Decoded<Msg>
    const readBuffer: array<Byte>
    var readLen: nat

    ghost predicate Valid()
      reads this
    {
      Lawful(decode) && readBuffer.Length == CLIENT_BUFFER && readLen <= CLIENT_BUFFER
    }

    ghost function Buffered(): (r: Bytes)
      reads this, readBuffer
      requires Valid()
    {
      readBuffer[..readLen]
    }

    constructor (decode: Bytes -> Decoded<Msg>)
      requires Lawful(decode)
      ensures Valid() && this.decode == decode && Buffered() == [] && fresh(readBuffer)
    {
      this.decode := decode;
      readBuffer := new Byte[CLIENT_BUFFER];
      readLen := 0;
    }

    /** The first message of the buffer is removed from it; otherwise the buffer stays as it is. */
    method FromBuffer() returns (r: ReadResult)
      requires Valid()
      modifies this`readLen, readBuffer
      ensures Valid()
      ensures After(decode, old(Buffered()), r, Buffered())
    {
      if readLen == 0 {
        return NeedMore;
      }
      match decode(readBuffer[..readLen])
      case Complete(n, m) =>
        readLen := AdvanceReadBuffer(readBuffer, readLen, n);
        r := Got(m);
      case Incomplete => r := if readLen == CLIENT_BUFFER then TooLong else NeedMore;
      case Malformed => r := Garbage;
    }

    /** One recv of at most `size` bytes. */
    method Receive(socket: Bytes, used: nat, size: nat) returns (n: nat)
      requires Valid() && used <= |socket|
      modifies this`readLen, readBuffer
      ensures Valid() && used + n <= |socket|
      ensures Buffered() == old(Buffered()) + socket[used..used + n]
      ensures n == 0 ==> size == 0 || used == |socket| || old(readLen) == CLIENT_BUFFER
    {
      var space := CLIENT_BUFFER - readLen;
      n := if size <= space then size else space;
      if n > |socket| - used { n := |socket| - used; }
      AppendToBuffer(readBuffer, readLen, socket[used..used + n]);
      readLen := readLen + n;
    }

    /** One recv, and a look at what is buffered then. */
    method ReadMore(socket: Bytes, used: nat, size: nat, ghost before: Bytes) returns (r: ReadResult, n: nat)
      requires Valid() && used < |socket| && size > 0 && readLen < CLIENT_BUFFER
      requires Buffered() == before + socket[..used]
      modifies this`readLen, readBuffer
      ensures Valid() && 0 < n && used + n <= |socket|
      ensures After(decode, before + socket[..used + n], r, Buffered())
    {
      n := Receive(socket, used, size);
      JoinRead(before, socket, used, n);
      hide After;
      r := FromBuffer();
    }

    /** Reads from a connection over which `socket` and no more will ever come; waits[i] is what the i-th poll
        and recv come back with, a recv of at most `size` bytes at the end of the stream finding it closed. The
        message is the first one of everything buffered and read, what was read behind it stays buffered, and
        nothing is lost when the wait is given up. */
    method ReadOne(socket: Bytes, waits: seq<Wait>, waitForEvents: bool) returns (r: ReadResult, used: nat)
      requires Valid()
      requires forall i | 0 <= i < |waits| && waits[i].Arrives? :: waits[i].size > 0
      modifies this`readLen, readBuffer
      ensures Valid() && used <= |socket|
      ensures After(decode, old(Buffered()) + socket[..used], if r.Stopped? then NeedMore else r, Buffered())
      ensures r.Stopped? ==>
                || (r.why.Disconnected? && used == |socket|)
                || (exists i | 0 <= i < |waits| :: waits[i] == r.why && Stops(waits[i], waitForEvents)
                                                  && !StopsBefore(waits, i, waitForEvents))
      ensures r.NeedMore? ==> !StopsBefore(waits, |waits|, waitForEvents)
    {
      used := 0;
      assert old(Buffered()) + socket[..0] == old(Buffered());
      r := FromBuffer();
      var i := 0;
      while r.NeedMore? && i < |waits|
        invariant Valid() && used <= |socket| && i <= |waits|
        invariant After(decode, old(Buffered()) + socket[..used], r, Buffered())
        invariant !StopsBefore(waits, i, waitForEvents)
      {
        hide StopsBefore, Lawful;
        var w := waits[i];
        NotBefore(waits, i, waitForEvents);
        if Stops(w, waitForEvents) { return Stopped(w), used; }
        if w.Arrives? {
          if used == |socket| { return Stopped(Disconnected), used; }
          var n;
          r, n := ReadMore(socket, used, w.size, old(Buffered()));
          used := used + n;
        }
        i := i + 1;
      }
    }
  }

  lemma NotBefore(waits: seq<Wait>, n: nat, waitForEvents: bool)
    requires n < |waits| && !StopsBefore(waits, n, waitForEvents)
    ensures StopsBefore(waits, n + 1, waitForEvents) <==> Stops(waits[n], waitForEvents)
  {
  }

  ghost predicate StopsBefore(waits: seq<Wait>, n: nat, waitForEvents: bool)
    requires n <= |waits|
  {
    exists i | 0 <= i < n :: Stops(waits[i], waitForEvents)
  }

  lemma {:induction false} JoinRead(a: Bytes, socket: Bytes, used: nat, n: nat)
    requires used + n <= |socket|
    ensures (a + socket[..used]) + socket[used..used + n] == a + socket[..used + n]
  {
  }

  /** `r` is what the bytes `all` lead to and `rest` what they leave in the buffer. */
  ghost predicate After(decode: Bytes -> Decoded<Msg>, all: Bytes, r: ReadResult, rest: Bytes)
  {
    && r == Outcome(decode, all)
    && (r.Got? ==> decode(all).length <= |all| && rest == all[decode(all).length..])
    && (!r.Got? ==> rest == all)
  }

  ghost function Outcome(decode: Bytes -> Decoded<Msg>, buf: Bytes): (r: ReadResult)
  {
    if buf == [] then NeedMore
    else match decode(buf)
         case Complete(_, m) => Got(m)
         case Incomplete => if |buf| == CLIENT_BUFFER then TooLong else NeedMore
         case Malformed => Garbage
  }
}
