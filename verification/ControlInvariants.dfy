/** What every interleaving of a control connection keeps. */
module ControlInvariants {
  import opened Framing
  import opened Control

  // ---------------------------------------------------------------------------------------------------
  // The queue and its history

  /** The entries other than internal errors. */
  ghost function Regular(es: seq<Entry>): (r: seq<Entry>)
  {
    if es == [] then []
    else Regular(es[..|es| - 1]) + (if es[|es| - 1].origin.Internal? then [] else [es[|es| - 1]])
  }

  /** The numbers of the requests that the entries answer, in order. */
  ghost function Answers(es: seq<Entry>): (r: seq<nat>)
  {
    if es == [] then []
    else Answers(es[..|es| - 1]) + (if es[|es| - 1].origin.ForRequest? then [es[|es| - 1].origin.index] else [])
  }

  ghost function UpTo(n: nat): (r: seq<nat>)
    ensures |r| == n && forall i | 0 <= i < n :: r[i] == i
  {
    if n == 0 then [] else UpTo(n - 1) + [n - 1]
  }

  /** Entry i answers a request for events. */
  ghost predicate Subscribes(link: Link, requests: seq<Bytes>, e: Entry)
  {
    e.origin.ForRequest? && e.origin.index < |requests| &&
    link.Handle(e.origin.index, requests[e.origin.index]).Subscribed?
  }

  ghost predicate SubscribedIn(link: Link, requests: seq<Bytes>, es: seq<Entry>)
  {
    exists j :: 0 <= j < |es| && Subscribes(link, requests, es[j])
  }

  ghost predicate EntryFits(link: Link, requests: seq<Bytes>, history: seq<Entry>, i: nat)
    requires i < |history|
  {
    match history[i].origin
    case ForRequest(k) => k < |requests| && history[i].msg == ReplyTo(link.Handle(k, requests[k]))
    case ForEvent => history[i].msg.Notice? && SubscribedIn(link, requests, history[..i])
    case Internal => false
  }

  /** The first n requests are answered once each, in order, by their own replies; no notice comes before
      the answer to a request for events. */
  ghost predicate Orderly(link: Link, requests: seq<Bytes>, history: seq<Entry>, n: nat)
  {
    && n <= |requests|
    && Answers(history) == UpTo(n)
    && (forall i: nat | i < |history| :: EntryFits(link, requests, history, i))
  }

  /** `flow` is what was taken from the queue followed by what is in it. */
  ghost predicate Kept(link: Link, requests: seq<Bytes>, history: seq<Entry>, flow: seq<Entry>, n: nat)
  {
    Orderly(link, requests, history, n) && Regular(flow) == history
  }

  /** Between requests the client is sent events only if it has asked for them and was told so. */
  ghost predicate Queued(link: Link, requests: seq<Bytes>, history: seq<Entry>, flow: seq<Entry>, events: bool)
  {
    Kept(link, requests, history, flow, |requests|) && (events ==> SubscribedIn(link, requests, history))
  }

  // ---------------------------------------------------------------------------------------------------
  // The stream

  ghost function Stream(link: Link, es: seq<Entry>): (r: Bytes)
  {
    if es == [] then [] else link.encode(es[0].msg) + Stream(link, es[1..])
  }

  /** The bytes that have not reached the client's buffer. */
  ghost function Downstream(s: System): (r: Bytes)
  {
    s.wire + (if s.unsent.Some? then s.unsent.value else [])
  }

  /** The client decoded the first messages taken from the queue, and what it has not decoded of the others
      is in its buffer, on the wire and in the write buffer, in that order. */
  ghost predicate Carried(link: Link, taken: seq<Entry>, decoded: seq<Msg>, underway: Bytes)
  {
    && |decoded| <= |taken|
    && (forall i | 0 <= i < |decoded| :: decoded[i] == taken[i].msg)
    && Stream(link, taken[|decoded|..]) == underway
  }

  /** What the server has dispatched and what it still holds is what the whole stream received so far
      parses into, however it was cut. */
  ghost predicate Faithful(link: Link, received: Bytes, requests: seq<Bytes>, readBuf: Bytes)
    requires link.Valid()
  {
    && |readBuf| <= SERVER_BUFFER
    && requests == Parse(link.decode, received).values
    && readBuf == Parse(link.decode, received).rest
  }

  /** The server waits for the socket to become writable exactly while something is left to send. */
  ghost predicate Attentive(s: System)
  {
    && (s.open ==> (s.writeInterest <==> s.queue != [] || s.unsent.Some?))
    && (s.unsent.Some? ==> s.unsent.value != [])
  }

  ghost predicate Inv(link: Link, s: System)
    requires link.Valid()
  {
    Base(link, s) && Attentive(s)
  }

  ghost predicate Base(link: Link, s: System)
    requires link.Valid()
  {
    && Queued(link, s.requests, s.history, s.taken + s.queue, s.acceptEvents)
    && Carried(link, s.taken, s.decoded, s.clientBuf + Downstream(s))
    && Faithful(link, s.received, s.requests, s.readBuf)
    && |s.clientBuf| <= CLIENT_BUFFER
  }

  // ---------------------------------------------------------------------------------------------------
  // Queueing

  lemma {:induction false} RegularAppend(a: seq<Entry>, b: seq<Entry>)
    ensures Regular(a + b) == Regular(a) + Regular(b)
    decreases |b|
  {
    if b == [] {
      assert a + b == a;
    } else {
      assert (a + b)[..|a + b| - 1] == a + b[..|b| - 1];
      RegularAppend(a, b[..|b| - 1]);
    }
  }

  lemma {:induction false} AnswersAppend(a: seq<Entry>, b: seq<Entry>)
    ensures Answers(a + b) == Answers(a) + Answers(b)
    decreases |b|
  {
    if b == [] {
      assert a + b == a;
    } else {
      assert (a + b)[..|a + b| - 1] == a + b[..|b| - 1];
      AnswersAppend(a, b[..|b| - 1]);
    }
  }

  lemma {:induction false} SubscribedMonotone(link: Link, r1: seq<Bytes>, r2: seq<Bytes>, a: seq<Entry>, b: seq<Entry>)
    requires SubscribedIn(link, r1, a) && r1 <= r2 && a <= b
    ensures SubscribedIn(link, r2, b)
  {
    var j :| 0 <= j < |a| && Subscribes(link, r1, a[j]);
    assert Subscribes(link, r2, b[j]);
  }

  lemma {:induction false} AppendFlow(flow: seq<Entry>, e: Entry)
    requires !e.origin.Internal?
    ensures Regular(flow + [e]) == Regular(flow) + [e]
  {
    RegularAppend(flow, [e]);
    assert Regular([e]) == [e];
  }

  lemma {:induction false} FitsAppend(link: Link, requests: seq<Bytes>, more: seq<Bytes>, history: seq<Entry>, e: Entry,
                                      i: nat)
    requires i < |history| && EntryFits(link, requests, history, i) && requests <= more
    ensures EntryFits(link, more, history + [e], i)
    ensures EntryFits(link, more, history, i)
  {
    assert (history + [e])[..i] == history[..i];
    if history[i].origin.ForEvent? {
      SubscribedMonotone(link, requests, more, history[..i], history[..i]);
    }
  }

  lemma {:induction false} MoreRequests(link: Link, requests: seq<Bytes>, more: seq<Bytes>, history: seq<Entry>, n: nat)
    requires Orderly(link, requests, history, n) && requests <= more
    ensures Orderly(link, more, history, n)
  {
    forall i: nat | i < |history| ensures EntryFits(link, more, history, i) {
      FitsAppend(link, requests, more, history, Entry(Notice(""), ForEvent), i);
    }
  }

  lemma {:induction false} NoticeFits(link: Link, requests: seq<Bytes>, history: seq<Entry>, name: string, n: nat)
    requires Orderly(link, requests, history, n) && SubscribedIn(link, requests, history)
    ensures Orderly(link, requests, history + [Entry(Notice(name), ForEvent)], n)
  {
    var e := Entry(Notice(name), ForEvent);
    AnswersAppend(history, [e]);
    assert Answers([e]) == [];
    forall i: nat | i < |history + [e]| ensures EntryFits(link, requests, history + [e], i) {
      if i < |history| { FitsAppend(link, requests, requests, history, e, i); }
      else { assert (history + [e])[..i] == history; }
    }
  }

  lemma {:induction false} AnswerFits(link: Link, requests: seq<Bytes>, history: seq<Entry>, n: nat)
    requires Orderly(link, requests, history, n) && n < |requests|
    ensures Orderly(link, requests, history + [Entry(ReplyTo(link.Handle(n, requests[n])), ForRequest(n))], n + 1)
  {
    var e := Entry(ReplyTo(link.Handle(n, requests[n])), ForRequest(n));
    AnswersAppend(history, [e]);
    assert Answers([e]) == [n];
    forall i: nat | i < |history + [e]| ensures EntryFits(link, requests, history + [e], i) {
      if i < |history| { FitsAppend(link, requests, requests, history, e, i); }
    }
  }

  ghost predicate KeptBy(link: Link, s: System, n: nat)
  {
    Kept(link, s.requests, s.history, s.taken + s.queue, n)
  }

  ghost predicate Told(link: Link, s: System)
  {
    SubscribedIn(link, s.requests, s.history)
  }

  lemma {:induction false} AppendKeeps(link: Link, s: System, e: Entry, n: nat)
    requires Regular(s.taken + s.queue) == s.history && !e.origin.Internal?
    requires Orderly(link, s.requests, s.history + [e], n)
    ensures KeptBy(link, Append(s, e), n)
  {
    assert s.taken + (s.queue + [e]) == (s.taken + s.queue) + [e];
    AppendFlow(s.taken + s.queue, e);
  }

  lemma {:induction false} NotifyKeeps(link: Link, s: System, name: string, n: nat)
    requires KeptBy(link, s, n) && (s.acceptEvents ==> Told(link, s))
    ensures var r := NotifyClient(s, name); KeptBy(link, r, n) && (s.acceptEvents ==> Told(link, r))
  {
    if s.acceptEvents {
      var e := Entry(Notice(name), ForEvent);
      NoticeFits(link, s.requests, s.history, name, n);
      AppendKeeps(link, s, e, n);
      SubscribedMonotone(link, s.requests, s.requests, s.history, s.history + [e]);
    }
  }

  lemma {:induction false} NotifyAllKeeps(link: Link, s: System, names: seq<string>, n: nat)
    requires KeptBy(link, s, n) && (s.acceptEvents ==> Told(link, s))
    ensures var r := NotifyAll(s, names); KeptBy(link, r, n) && (s.acceptEvents ==> Told(link, r))
    decreases |names|
  {
    if names != [] {
      NotifyKeeps(link, s, names[0], n);
      NotifyAllKeeps(link, NotifyClient(s, names[0]), names[1..], n);
    }
  }

  lemma {:induction false} CarryOutKeeps(link: Link, s: System, h: Handling, n: nat)
    requires KeptBy(link, s, n) && (s.acceptEvents ==> Told(link, s))
    ensures var r := CarryOut(s, h); KeptBy(link, r, n) && (r.acceptEvents ==> h.Subscribed? || Told(link, r))
  {
    if h.Performed? { NotifyAllKeeps(link, s, h.notices, n); }
  }

  lemma {:induction false} AnswerKeeps(link: Link, s: System, n: nat)
    requires KeptBy(link, s, n) && n < |s.requests|
    requires s.acceptEvents ==> link.Handle(n, s.requests[n]).Subscribed? || Told(link, s)
    ensures var r := Append(s, Entry(ReplyTo(link.Handle(n, s.requests[n])), ForRequest(n)));
            KeptBy(link, r, n + 1) && (r.acceptEvents ==> Told(link, r))
  {
    var e := Entry(ReplyTo(link.Handle(n, s.requests[n])), ForRequest(n));
    AnswerFits(link, s.requests, s.history, n);
    AppendKeeps(link, s, e, n + 1);
    if link.Handle(n, s.requests[n]).Subscribed? {
      assert Subscribes(link, s.requests, (s.history + [e])[|s.history|]);
    } else if s.acceptEvents {
      SubscribedMonotone(link, s.requests, s.requests, s.history, s.history + [e]);
    }
  }

  lemma {:induction false} DispatchKeeps(link: Link, s: System, request: Bytes)
    requires KeptBy(link, s, |s.requests|) && (s.acceptEvents ==> Told(link, s))
    ensures var r := Dispatch(link, s, request);
            KeptBy(link, r, |r.requests|) && (r.acceptEvents ==> Told(link, r))
  {
    var k := |s.requests|;
    var s1 := s.(requests := s.requests + [request]);
    MoreRequests(link, s.requests, s1.requests, s.history, k);
    if s.acceptEvents { SubscribedMonotone(link, s.requests, s1.requests, s.history, s.history); }
    CarryOutKeeps(link, s1, link.Handle(k, request), k);
    AnswerKeeps(link, CarryOut(s1, link.Handle(k, request)), k);
  }

  lemma {:induction false} DispatchAllKeeps(link: Link, s: System, requests: seq<Bytes>)
    requires KeptBy(link, s, |s.requests|) && (s.acceptEvents ==> Told(link, s))
    ensures var r := DispatchAll(link, s, requests);
            KeptBy(link, r, |r.requests|) && (r.acceptEvents ==> Told(link, r))
    decreases |requests|
  {
    if requests != [] {
      DispatchKeeps(link, s, requests[0]);
      DispatchAllKeeps(link, Dispatch(link, s, requests[0]), requests[1..]);
    }
  }

  lemma {:induction false} DispatchAllAttentive(link: Link, s: System, requests: seq<Bytes>)
    requires Attentive(s)
    ensures Attentive(DispatchAll(link, s, requests))
    decreases |requests|
  {
    if requests != [] {
      DispatchAllAttentive(link, Dispatch(link, s, requests[0]), requests[1..]);
    }
  }

  lemma {:induction false} OvertakingFlow(taken: seq<Entry>, queue: seq<Entry>, e: Entry)
    requires e.origin.Internal?
    ensures Regular(taken + ([e] + queue)) == Regular(taken + queue)
  {
    assert taken + ([e] + queue) == (taken + [e]) + queue;
    RegularAppend(taken + [e], queue);
    RegularAppend(taken, [e]);
    RegularAppend(taken, queue);
    assert Regular([e]) == [];
  }

  lemma {:induction false} InternalErrorKeeps(link: Link, s: System, code: int, text: string)
    requires link.Valid() && Inv(link, s)
    ensures Inv(link, InternalError(s, code, text))
  {
    OvertakingFlow(s.taken, s.queue, Entry(Reply(Absent, code, text), Internal));
  }

  // ---------------------------------------------------------------------------------------------------
  // Receiving requests

  lemma {:induction false} MalformedRest<V(!new)>(decode: Bytes -> Decoded<V>, s: Bytes)
    requires Lawful(decode) && Parse(decode, s).malformed
    ensures Parse(decode, s).rest != []
    decreases |s|
  {
    if decode(s).Complete? { MalformedRest(decode, s[decode(s).length..]); }
  }

  /** Reading one more chunk: where the stream was cut does not matter. */
  lemma {:induction false} ParseChunk<V(!new)>(decode: Bytes -> Decoded<V>, s: Bytes, t: Bytes)
    requires Lawful(decode)
    ensures var a := Parse(decode, s);
            var b := Parse(decode, a.rest + t);
            Parse(decode, s + t) == Parsed(a.values + b.values, b.rest, b.malformed)
  {
    ParseAppend(decode, s, t);
    var a := Parse(decode, s);
    if a.malformed {
      MalformedRest(decode, s);
      ParseRest(decode, s);
      assert decode(a.rest + t).Malformed?;
      assert a.values + [] == a.values;
    }
  }

  lemma {:induction false} RecvIsFaithful(link: Link, s: System, chunk: Bytes)
    requires link.Valid() && Inv(link, s) && Legal(link, s, Recv(chunk))
    ensures var parsed := Parse(link.decode, s.readBuf + chunk);
            Faithful(link, s.received + chunk, s.requests + parsed.values, parsed.rest)
  {
    ParseChunk(link.decode, s.received, chunk);
    ParseRest(link.decode, s.readBuf + chunk);
  }

  lemma {:induction false} RecvKeeps(link: Link, s: System, chunk: Bytes)
    requires link.Valid() && Inv(link, s) && Legal(link, s, Recv(chunk))
    ensures Inv(link, RecvReady(link, s, chunk))
  {
    var parsed := Parse(link.decode, s.readBuf + chunk);
    RecvIsFaithful(link, s, chunk);
    var s1 := s.(readBuf := parsed.rest, received := s.received + chunk);
    DispatchAllKeeps(link, s1, parsed.values);
    DispatchAllAttentive(link, s1, parsed.values);
    var s2 := DispatchAll(link, s1, parsed.values);
    assert Inv(link, s2);
    InternalErrorKeeps(link, s2, EINVAL, "");
  }

  // ---------------------------------------------------------------------------------------------------
  // Sending and decoding

  lemma {:induction false} StreamAppend(link: Link, a: seq<Entry>, e: Entry)
    ensures Stream(link, a + [e]) == Stream(link, a) + link.encode(e.msg)
    decreases |a|
  {
    if a == [] {
      assert a + [e] == [e];
      assert Stream(link, [e]) == link.encode(e.msg);
    } else {
      assert (a + [e])[1..] == a[1..] + [e];
      StreamAppend(link, a[1..], e);
    }
  }

  lemma {:induction false} CarryMore(link: Link, taken: seq<Entry>, decoded: seq<Msg>, underway: Bytes, e: Entry)
    requires Carried(link, taken, decoded, underway)
    ensures Carried(link, taken + [e], decoded, underway + link.encode(e.msg))
  {
    assert (taken + [e])[|decoded|..] == taken[|decoded|..] + [e];
    StreamAppend(link, taken[|decoded|..], e);
  }

  lemma {:induction false} MoveBytes(a: Bytes, u: Bytes, b: Bytes, n: nat)
    requires n <= |u|
    ensures (a + u[..n]) + u[n..] == a + u
    ensures (a + u[..n]) + (u[n..] + b) == a + (u + b)
  {
    assert u == u[..n] + u[n..];
  }

  lemma {:induction false} RegroupFlow(taken: seq<Entry>, queue: seq<Entry>)
    requires queue != []
    ensures (taken + [queue[0]]) + queue[1..] == taken + queue
  {
  }

  lemma {:induction false} TakeKeeps(link: Link, s: System)
    requires link.Valid() && Base(link, s)
    ensures Base(link, TakeNext(link, s))
  {
    hide Queued, Carried, Faithful;
    if s.unsent.None? && s.queue != [] {
      var text := link.encode(s.queue[0].msg);
      RegroupFlow(s.taken, s.queue);
      CarryMore(link, s.taken, s.decoded, s.clientBuf + Downstream(s), s.queue[0]);
      assert (s.clientBuf + Downstream(s)) + text == s.clientBuf + (s.wire + text);
    }
  }

  lemma {:induction false} EmitKeeps(link: Link, s: System, count: nat)
    requires link.Valid() && Base(link, s) && s.unsent.Some?
    ensures Base(link, Emit(s, count))
  {
    var u := s.unsent.value;
    var n := if count <= |u| then count else |u|;
    MoveBytes(s.wire, u, [], n);
    assert Downstream(Emit(s, count)) == Downstream(s);
  }

  lemma {:induction false} MaskKeeps(link: Link, s: System)
    requires link.Valid() && Base(link, s)
    ensures Base(link, SetMask(s)) && Base(link, s.(open := false))
  {
    assert Downstream(SetMask(s)) == Downstream(s) == Downstream(s.(open := false));
  }

  lemma {:induction false} SendIsAttentive(link: Link, s: System, count: nat)
    requires link.Valid() && Attentive(s)
    ensures Attentive(SendReady(link, s, count))
  {
  }

  lemma {:induction false} SendKeeps(link: Link, s: System, count: nat)
    requires link.Valid() && Base(link, s)
    ensures Base(link, SendReady(link, s, count))
  {
    var s1 := TakeNext(link, s);
    TakeKeeps(link, s);
    if s1.unsent.None? {
      MaskKeeps(link, s1);
    } else {
      EmitKeeps(link, s1, count);
      MaskKeeps(link, Emit(s1, count));
    }
  }

  /** The client's buffer begins with the next message the server took, as far as it has arrived. */
  lemma {:induction false} NextMessage(link: Link, s: System)
    requires link.Valid() && Inv(link, s) && s.clientBuf != []
    ensures |s.decoded| < |s.taken|
    ensures var m := s.taken[|s.decoded|].msg;
            var found := link.clientDecode(s.clientBuf);
            && (found.Complete? ==> found == Complete(|link.encode(m)|, m))
            && !found.Malformed?
            && (found.Incomplete? ==> |s.clientBuf| < |link.encode(m)|)
  {
    FirstMessage(link, s.taken[|s.decoded|..], s.clientBuf, Downstream(s));
  }

  lemma {:induction false} FirstMessage(link: Link, pending: seq<Entry>, arrived: Bytes, others: Bytes)
    requires link.Valid() && arrived != [] && Stream(link, pending) == arrived + others
    ensures pending != []
    ensures var text := link.encode(pending[0].msg);
            var found := link.clientDecode(arrived);
            && (found.Complete? ==> found == Complete(|text|, pending[0].msg))
            && !found.Malformed?
            && (found.Incomplete? ==> |arrived| < |text|)
  {
    assert pending != [];
    var text := link.encode(pending[0].msg);
    var total := arrived + others;
    assert total == text + Stream(link, pending[1..]);
    assert link.clientDecode(total) == link.clientDecode(text);
    if |arrived| >= |text| {
      assert arrived == total[..|arrived|];
      assert arrived == text + arrived[|text|..];
    }
  }

  lemma {:induction false} TakesKeeps(link: Link, s: System)
    requires link.Valid() && Inv(link, s) && s.clientBuf != []
    ensures Inv(link, ClientTakes(link, s))
  {
    NextMessage(link, s);
    if link.clientDecode(s.clientBuf).Complete? {
      DecodeKeeps(link, s.taken, s.decoded, s.clientBuf, Downstream(s));
    }
  }

  lemma {:induction false} DecodeKeeps(link: Link, taken: seq<Entry>, decoded: seq<Msg>, arrived: Bytes, others: Bytes)
    requires link.Valid() && Carried(link, taken, decoded, arrived + others) && arrived != []
    requires link.clientDecode(arrived).Complete?
    ensures var found := link.clientDecode(arrived);
            found.length <= |arrived| && Carried(link, taken, decoded + [found.value], arrived[found.length..] + others)
  {
    var pending := taken[|decoded|..];
    FirstMessage(link, pending, arrived, others);
    var n := |link.encode(pending[0].msg)|;
    assert Stream(link, pending[1..]) == (arrived + others)[n..];
    assert (arrived + others)[n..] == arrived[n..] + others;
    assert taken[|decoded| + 1..] == pending[1..];
  }

  lemma {:induction false} StepKeepsInv(link: Link, s: System, e: Event)
    requires link.Valid() && Inv(link, s) && Legal(link, s, e)
    ensures Inv(link, Step(link, s, e))
  {
    match e
    case Recv(chunk) => RecvKeeps(link, s, chunk);
    case Overflow => InternalErrorKeeps(link, s, EIO, "Buffer overflow");
    case RecvError => InternalErrorKeeps(link, s, EIO, "Read failed");
    case Hangup =>
    case Send(count) =>
      SendKeeps(link, s, count);
      SendIsAttentive(link, s, count);
    case SendError => TakeKeeps(link, s);
    case Notify(name) => NotifyKeeps(link, s, name, |s.requests|);
    case ClientRecv(count) =>
      MoveBytes(s.clientBuf, s.wire, if s.unsent.Some? then s.unsent.value else [], count);
    case ClientTake => TakesKeeps(link, s);
  }

  // ---------------------------------------------------------------------------------------------------
  // Runs

  ghost predicate LegalRun(link: Link, s: System, events: seq<Event>)
    requires link.Valid()
    decreases |events|
  {
    events != [] ==> Legal(link, s, events[0]) && LegalRun(link, Step(link, s, events[0]), events[1..])
  }

  ghost function Run(link: Link, s: System, events: seq<Event>): (r: System)
    requires link.Valid() && LegalRun(link, s, events)
    decreases |events|
  {
    if events == [] then s else Run(link, Step(link, s, events[0]), events[1..])
  }

  lemma {:induction false} RunKeepsInv(link: Link, s: System, events: seq<Event>)
    requires link.Valid() && LegalRun(link, s, events) && Inv(link, s)
    ensures Inv(link, Run(link, s, events))
    decreases |events|
  {
    if events != [] {
      StepKeepsInv(link, s, events[0]);
      RunKeepsInv(link, Step(link, s, events[0]), events[1..]);
    }
  }

  lemma {:induction false} ConnectedInv(link: Link)
    requires link.Valid()
    ensures Inv(link, CONNECTED)
  {
    assert CONNECTED.taken + CONNECTED.queue == [];
    assert CONNECTED.clientBuf + Downstream(CONNECTED) == [];
  }

  /** The requests that the server carries out depend on the bytes it received and not on how they were
      cut: two runs that received the same bytes dispatched the same requests and hold the same rest. */
  lemma {:induction false} ChunkingIndependence(link: Link, run1: seq<Event>, run2: seq<Event>)
    requires link.Valid() && LegalRun(link, CONNECTED, run1) && LegalRun(link, CONNECTED, run2)
    requires Run(link, CONNECTED, run1).received == Run(link, CONNECTED, run2).received
    ensures Run(link, CONNECTED, run1).requests == Run(link, CONNECTED, run2).requests
    ensures Run(link, CONNECTED, run1).readBuf == Run(link, CONNECTED, run2).readBuf
  {
    ConnectedInv(link);
    RunKeepsInv(link, CONNECTED, run1);
    RunKeepsInv(link, CONNECTED, run2);
  }

  /** If what the client sends is a stream of complete requests that fit into the read buffer, the server
      never reports an overflow or a syntax error, wherever the stream is cut. */
  lemma {:induction false} NoOverflow(link: Link, events: seq<Event>, all: Bytes)
    requires link.Valid() && LegalRun(link, CONNECTED, events)
    requires AllFit(link.decode, all, SERVER_BUFFER) && Run(link, CONNECTED, events).received <= all
    ensures var s := Run(link, CONNECTED, events);
            !Legal(link, s, Overflow) && !Parse(link.decode, s.received).malformed
  {
    ConnectedInv(link);
    RunKeepsInv(link, CONNECTED, events);
    var s := Run(link, CONNECTED, events);
    FittingRest(link.decode, all, |s.received|, SERVER_BUFFER);
    assert all[..|s.received|] == s.received;
  }

  lemma {:induction false} RegularPrefix(a: seq<Entry>, k: nat)
    requires k <= |a|
    ensures Regular(a[..k]) <= Regular(a)
  {
    RegularAppend(a[..k], a[k..]);
    assert a == a[..k] + a[k..];
  }

  lemma {:induction false} AnswersOfRegular(es: seq<Entry>)
    ensures Answers(Regular(es)) == Answers(es)
    decreases |es|
  {
    if es != [] {
      var front := es[..|es| - 1];
      var e := es[|es| - 1];
      AnswersOfRegular(front);
      if e.origin.Internal? {
        assert Regular(es) == Regular(front);
        assert Answers(es) == Answers(front);
      } else {
        assert Regular(es) == Regular(front) + [e];
        AnswersAppend(Regular(front), [e]);
        assert Answers([e]) == if e.origin.ForRequest? then [e.origin.index] else [];
      }
    }
  }

  /** Where entry i of the flow stands in the history. */
  lemma {:induction false} PlaceInHistory(flow: seq<Entry>, i: nat)
    requires i < |flow| && !flow[i].origin.Internal?
    ensures var k := |Regular(flow[..i])|;
            k < |Regular(flow)| && Regular(flow)[k] == flow[i] && Regular(flow)[..k] == Regular(flow[..i])
  {
    assert flow[..i + 1] == flow[..i] + [flow[i]];
    AppendFlow(flow[..i], flow[i]);
    RegularPrefix(flow, i + 1);
  }

  lemma {:induction false} SeenAnswer(link: Link, requests: seq<Bytes>, flow: seq<Entry>, i: nat)
    requires Orderly(link, requests, Regular(flow), |requests|) && i < |flow| && flow[i].origin.ForRequest?
    ensures var k := flow[i].origin.index; k < |requests| && flow[i].msg == ReplyTo(link.Handle(k, requests[k]))
  {
    PlaceInHistory(flow, i);
    assert EntryFits(link, requests, Regular(flow), |Regular(flow[..i])|);
  }

  lemma {:induction false} SeenNotice(link: Link, requests: seq<Bytes>, flow: seq<Entry>, i: nat)
    requires Orderly(link, requests, Regular(flow), |requests|) && i < |flow| && flow[i].origin.ForEvent?
    ensures SubscribedIn(link, requests, flow[..i])
  {
    PlaceInHistory(flow, i);
    assert EntryFits(link, requests, Regular(flow), |Regular(flow[..i])|);
    SubscribedSource(link, requests, flow[..i]);
  }

  lemma {:induction false} SubscribedSource(link: Link, requests: seq<Bytes>, es: seq<Entry>)
    requires SubscribedIn(link, requests, Regular(es))
    ensures SubscribedIn(link, requests, es)
  {
    var j :| 0 <= j < |Regular(es)| && Subscribes(link, requests, Regular(es)[j]);
    var l := RegularSource(es, j);
    assert Subscribes(link, requests, es[l]);
  }

  lemma {:induction false} AnswersPrefix(a: seq<Entry>, k: nat)
    requires k <= |a|
    ensures Answers(a[..k]) <= Answers(a)
  {
    AnswersAppend(a[..k], a[k..]);
    assert a == a[..k] + a[k..];
  }

  /** The messages among which the client decodes its replies: over every interleaving of partial sends and
      receives, the first messages the server took, whole and in order. */
  ghost predicate InStep(link: Link, s: System)
  {
    && |s.decoded| <= |s.taken|
    && (forall i | 0 <= i < |s.decoded| :: s.decoded[i] == s.taken[i].msg)
    && (s.open ==> (s.writeInterest <==> s.queue != [] || s.unsent.Some?))
  }

  /** The reply to request k: it echoes the id and says what the command said; a request without a method or with an
      id that cannot be echoed is refused as invalid. */
  ghost function RightReply(link: Link, k: nat, request: Bytes): (m: Msg)
  {
    var e := link.envelope(request);
    if !e.hasMethod || e.id.Composite? then Reply(Absent, EINVAL, "")
    else match link.command(k, request)
         case Refuse(code, text) => Reply(e.id, code, text)
         case Subscribe => Reply(e.id, 0, "")
         case Perform(_, code, data) => Reply(e.id, code, data)
  }

  /** The replies among the messages leave in the order of the requests, one each, with the reply that the
      request got; a notice follows the answer to a request for events. */
  ghost predicate WellAnswered(link: Link, requests: seq<Bytes>, flow: seq<Entry>)
  {
    && Answers(flow) <= UpTo(|requests|)
    && (forall i | 0 <= i < |flow| && flow[i].origin.ForRequest? ::
          flow[i].origin.index < |requests| &&
          flow[i].msg == RightReply(link, flow[i].origin.index, requests[flow[i].origin.index]))
    && (forall i | 0 <= i < |flow| && flow[i].origin.ForEvent? :: SubscribedIn(link, requests, flow[..i]))
  }

  lemma {:induction false} FlowIsAnswered(link: Link, requests: seq<Bytes>, flow: seq<Entry>, k: nat)
    requires Orderly(link, requests, Regular(flow), |requests|) && k <= |flow|
    ensures WellAnswered(link, requests, flow[..k]) && Answers(flow) == UpTo(|requests|)
  {
    AnswersOfRegular(flow);
    AnswersPrefix(flow, k);
    forall i | 0 <= i < k && flow[..k][i].origin.ForRequest?
      ensures flow[i].origin.index < |requests| &&
              flow[i].msg == ReplyTo(link.Handle(flow[i].origin.index, requests[flow[i].origin.index]))
    {
      SeenAnswer(link, requests, flow, i);
    }
    forall i | 0 <= i < k && flow[..k][i].origin.ForEvent? ensures SubscribedIn(link, requests, flow[..k][..i]) {
      SeenNotice(link, requests, flow, i);
      assert flow[..k][..i] == flow[..i];
    }
  }

  /** What the client decodes: the first messages the server took, and among them the answers to the first
      requests that the received bytes parse into. No request is left without an answer in the flow. */
  lemma {:induction false} ClientSees(link: Link, events: seq<Event>)
    requires link.Valid() && LegalRun(link, CONNECTED, events)
    ensures var s := Run(link, CONNECTED, events);
            && InStep(link, s)
            && s.requests == Parse(link.decode, s.received).values
            && WellAnswered(link, s.requests, s.taken[..|s.decoded|])
            && Answers(s.taken + s.queue) == UpTo(|s.requests|)
  {
    ConnectedInv(link);
    RunKeepsInv(link, CONNECTED, events);
    var s := Run(link, CONNECTED, events);
    FlowIsAnswered(link, s.requests, s.taken + s.queue, |s.decoded|);
    assert (s.taken + s.queue)[..|s.decoded|] == s.taken[..|s.decoded|];
  }

  /** The client never finds bytes it cannot parse, and its buffer is too small exactly for a message longer
      than the buffer. */
  lemma {:induction false} ClientReads(link: Link, events: seq<Event>)
    requires link.Valid() && LegalRun(link, CONNECTED, events)
    ensures var s := Run(link, CONNECTED, events);
            s.clientBuf != [] ==>
              && |s.decoded| < |s.taken|
              && !link.clientDecode(s.clientBuf).Malformed?
              && (|s.clientBuf| == CLIENT_BUFFER ==>
                    (link.clientDecode(s.clientBuf).Incomplete? <==>
                     |link.encode(s.taken[|s.decoded|].msg)| > CLIENT_BUFFER))
  {
    ConnectedInv(link);
    RunKeepsInv(link, CONNECTED, events);
    var s := Run(link, CONNECTED, events);
    if s.clientBuf != [] { NextMessage(link, s); }
  }

  /** Once everything underway has arrived and was decoded, the client has seen every message taken. */
  lemma {:induction false} NothingIsLost(link: Link, s: System)
    requires link.Valid() && Inv(link, s) && s.clientBuf == [] && s.wire == [] && s.unsent.None?
    ensures |s.decoded| == |s.taken|
  {
    assert s.clientBuf + Downstream(s) == [];
  }

  lemma {:induction false} RegularSource(es: seq<Entry>, j: nat) returns (l: nat)
    requires j < |Regular(es)|
    ensures l < |es| && es[l] == Regular(es)[j]
    decreases |es|
  {
    var front := es[..|es| - 1];
    if j < |Regular(front)| {
      l := RegularSource(front, j);
    } else {
      l := |es| - 1;
    }
  }
}
