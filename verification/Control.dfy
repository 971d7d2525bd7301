/** One control connection: the server's side of it (src/ctl-server.c), the byte stream to the client, and
the client's reader (src/ctl-client.c).

`System` also keeps the history that the properties speak about: the bytes and the requests the server
received, the messages it queued, the messages it took from the queue and the messages the client
decoded. */
module Control {
  import opened Wrappers
  import opened Framing

  /** The "id" member of a request: only strings and numbers can be echoed. */
  datatype Id = Absent | Text(text: string) | Number(number: int) | Composite

  datatype Msg = Reply(id: Id, code: int, data: string) | Notice(name: string)

  /** What jsonipc_request_parse_new looks at. */
  datatype Envelope = Envelope(hasMethod: bool, id: Id)
  {
    predicate Valid() { hasMethod && !id.Composite? }
  }

  /** What a command does: it is unknown or has bad parameters, it asks for events, or it is carried out,
      raising notices on the way. */
  datatype Command =
    | Refuse(code: int, text: string)
    | Subscribe
    | Perform(notices: seq<string>, code: int, data: string)

  /** What becomes of a request object. */
  datatype Handling =
    | Invalid
    | Refused(id: Id, code: int, text: string)
    | Subscribed(id: Id)
    | Performed(id: Id, notices: seq<string>, code: int, data: string)

  function ReplyTo(h: Handling): (m: Msg)
  {
    match h
    case Invalid => Reply(Absent, EINVAL, "")
    case Refused(id, code, text) => Reply(id, code, text)
    case Subscribed(id) => Reply(id, 0, "")
    case Performed(id, _, code, data) => Reply(id, code, data)
  }

  datatype Origin = ForRequest(index: nat) | ForEvent | Internal

  datatype Entry = Entry(msg: Msg, origin: Origin)

  /** The decoders, the encoder and the behaviour of the commands. A command may do something else each time
      it is run, so it is given the number of the request. */
  datatype Link = Link(decode: Bytes -> Decoded<Bytes>, envelope: Bytes -> Envelope,
                       command: (nat, Bytes) -> Command,
                       encode: Msg -> Bytes, clientDecode: Bytes -> Decoded<Msg>)
  {
    ghost predicate Valid()
    {
      && Lawful(decode) && Lawful(clientDecode)
      && (forall m :: encode(m) != [] && clientDecode(encode(m)) == Complete(|encode(m)|, m))
    }

    function Handle(k: nat, request: Bytes): (h: Handling)
    {
      var e := envelope(request);
      if !e.Valid() then Invalid
      else match command(k, request)
           case Refuse(code, text) => Refused(e.id, code, text)
           case Subscribe => Subscribed(e.id)
           case Perform(notices, code, data) => Performed(e.id, notices, code, data)
    }
  }

  const SERVER_BUFFER := 512
  const CLIENT_BUFFER := 1024
  const EIO := 5
  const EINVAL := 22

  datatype System = System(
    // ctl_client of the server
    open: bool,
    readBuf: Bytes,
    queue: seq<Entry>,
    unsent: Option<Bytes>,
    writeInterest: bool,
    dropAfter: bool,
    acceptEvents: bool,
    // the stream to the client, and the client
    wire: Bytes,
    clientBuf: Bytes,
    decoded: seq<Msg>,
    // history
    received: Bytes,
    requests: seq<Bytes>,
    history: seq<Entry>,
    taken: seq<Entry>)

  const CONNECTED := System(true, [], [], None, false, false, false, [], [], [], [], [], [], [])

  datatype Event =
    | Recv(chunk: Bytes)
    | Overflow
    | RecvError
    | Hangup
    | Send(count: nat)
    | SendError
    | Notify(name: string)
    | ClientRecv(count: nat)
    | ClientTake

  // ---------------------------------------------------------------------------------------------------
  // src/ctl-server.c

  function SetMask(s: System): (r: System)
    ensures r == s.(writeInterest := r.writeInterest)
  {
    s.(writeInterest := s.queue != [] || (s.unsent.Some? && s.unsent.value != []))
  }

  function Append(s: System, e: Entry): (r: System)
  {
    SetMask(s.(queue := s.queue + [e], history := s.history + [e]))
  }

  /** An internal error overtakes everything that is queued, and the connection ends with the next message
      that is sent completely. */
  function InternalError(s: System, code: int, text: string): (r: System)
  {
    SetMask(s.(queue := [Entry(Reply(Absent, code, text), Internal)] + s.queue)).(dropAfter := true)
  }

  function NotifyClient(s: System, name: string): (r: System)
    ensures r == s.(queue := r.queue, history := r.history, writeInterest := r.writeInterest)
  {
    if s.acceptEvents then Append(s, Entry(Notice(name), ForEvent)) else s
  }

  function NotifyAll(s: System, names: seq<string>): (r: System)
    ensures r == s.(queue := r.queue, history := r.history, writeInterest := r.writeInterest)
    decreases |names|
  {
    if names == [] then s else NotifyAll(NotifyClient(s, names[0]), names[1..])
  }

  /** What carrying out a command does to its own client before the command is answered. */
  function CarryOut(s: System, h: Handling): (r: System)
    ensures r == s.(queue := r.queue, history := r.history, writeInterest := r.writeInterest,
                    acceptEvents := r.acceptEvents)
  {
    match h
    case Subscribed(_) => s.(acceptEvents := true)
    case Performed(_, notices, _, _) => NotifyAll(s, notices)
    case _ => s
  }

  function Dispatch(link: Link, s: System, request: Bytes): (r: System)
    ensures r == s.(queue := r.queue, history := r.history, writeInterest := r.writeInterest,
                    requests := s.requests + [request], acceptEvents := r.acceptEvents)
  {
    var k := |s.requests|;
    var h := link.Handle(k, request);
    Append(CarryOut(s.(requests := s.requests + [request]), h), Entry(ReplyTo(h), ForRequest(k)))
  }

  function DispatchAll(link: Link, s: System, requests: seq<Bytes>): (r: System)
    ensures r == s.(queue := r.queue, history := r.history, writeInterest := r.writeInterest,
                   requests := s.requests + requests, acceptEvents := r.acceptEvents)
    decreases |requests|
  {
    if requests == [] then s
    else
      assert s.requests + requests == (s.requests + [requests[0]]) + requests[1..];
      DispatchAll(link, Dispatch(link, s, requests[0]), requests[1..])
  }

  function RecvReady(link: Link, s: System, chunk: Bytes): (r: System)
    requires link.Valid()
  {
    var parsed := Parse(link.decode, s.readBuf + chunk);
    var s1 := DispatchAll(link, s.(readBuf := parsed.rest, received := s.received + chunk), parsed.values);
    if parsed.malformed then InternalError(s1, EINVAL, "") else s1
  }

  function TakeNext(link: Link, s: System): (r: System)
  {
    if s.unsent.None? && s.queue != [] then
      s.(unsent := Some(link.encode(s.queue[0].msg)), queue := s.queue[1..], taken := s.taken + [s.queue[0]])
    else s
  }

  /** `count` bytes of what is left go out; none when the socket is full. */
  function Emit(s: System, count: nat): (r: System)
    requires s.unsent.Some?
  {
    var u := s.unsent.value;
    var n := if count <= |u| then count else |u|;
    s.(wire := s.wire + u[..n], unsent := if n == |u| then None else Some(u[n..]))
  }

  function SendReady(link: Link, s: System, count: nat): (r: System)
  {
    var s1 := TakeNext(link, s);
    if s1.unsent.None? then SetMask(s1)
    else
      var s2 := Emit(s1, count);
      if s2.unsent.None? && s2.dropAfter then s2.(open := false) else SetMask(s2)
  }

  // ---------------------------------------------------------------------------------------------------
  // src/ctl-client.c

  function ClientReceives(s: System, count: nat): (r: System)
    requires count <= |s.wire|
  {
    s.(clientBuf := s.clientBuf + s.wire[..count], wire := s.wire[count..])
  }

  function ClientTakes(link: Link, s: System): (r: System)
  {
    match link.clientDecode(s.clientBuf)
    case Complete(n, m) =>
      if n <= |s.clientBuf| then s.(clientBuf := s.clientBuf[n..], decoded := s.decoded + [m]) else s
    case _ => s
  }

  // ---------------------------------------------------------------------------------------------------
  // Events

  predicate Legal(link: Link, s: System, e: Event)
  {
    match e
    case Recv(chunk) => s.open && 0 < |chunk| && |s.readBuf| + |chunk| <= SERVER_BUFFER
    case Overflow => s.open && |s.readBuf| == SERVER_BUFFER
    case RecvError => s.open && |s.readBuf| < SERVER_BUFFER
    case Hangup => s.open && |s.readBuf| < SERVER_BUFFER
    case Send(_) => s.open && s.writeInterest
    case SendError => s.open && s.writeInterest
    case Notify(_) => s.open
    case ClientRecv(count) => 0 < count <= |s.wire| && |s.clientBuf| + count <= CLIENT_BUFFER
    case ClientTake => s.clientBuf != []
  }

  function Step(link: Link, s: System, e: Event): (r: System)
    requires link.Valid() && Legal(link, s, e)
  {
    match e
    case Recv(chunk) => RecvReady(link, s, chunk)
    case Overflow => InternalError(s, EIO, "Buffer overflow")
    case RecvError => InternalError(s, EIO, "Read failed")
    case Hangup => s.(open := false)
    case Send(count) => SendReady(link, s, count)
    case SendError => TakeNext(link, s).(open := false)
    case Notify(name) => NotifyClient(s, name)
    case ClientRecv(count) => ClientReceives(s, count)
    case ClientTake => ClientTakes(link, s)
  }
}
