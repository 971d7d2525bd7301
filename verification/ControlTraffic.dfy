/** Which messages a control client is sent, and in which order, told from what arrived at the server alone. */
module ControlTraffic {
  import opened Framing
  import opened Control
  import opened ControlInvariants

  // ---------------------------------------------------------------------------------------------------
  // Told from the events

  /** The bytes that the events brought to the server. */
  ghost function Arrived(events: seq<Event>): (r: Bytes)
  {
    if events == [] then []
    else Arrived(events[..|events| - 1]) + (if events[|events| - 1].Recv? then events[|events| - 1].chunk else [])
  }

  /** The requests that they make up. */
  ghost function Asked(link: Link, events: seq<Event>): (r: seq<Bytes>)
    requires link.Valid()
  {
    Parse(link.decode, Arrived(events)).values
  }

  /** Request k is carried out: it has a method and an id that can be echoed. */
  ghost predicate Understood(link: Link, request: Bytes)
  {
    link.envelope(request).hasMethod && !link.envelope(request).id.Composite?
  }

  /** Request k is a request for events. */
  ghost predicate AsksForEvents(link: Link, k: nat, request: Bytes)
  {
    Understood(link, request) && link.command(k, request).Subscribe?
  }

  /** The notices that carrying out request k raises. */
  ghost function RaisedBy(link: Link, k: nat, request: Bytes): (r: seq<Msg>)
  {
    if Understood(link, request) && link.command(k, request).Perform? then Notices(link.command(k, request).notices)
    else []
  }

  ghost function Notices(names: seq<string>): (r: seq<Msg>)
  {
    if names == [] then [] else [Notice(names[0])] + Notices(names[1..])
  }

  /** One of the first k requests is a request for events. */
  ghost predicate SubscribedBefore(link: Link, requests: seq<Bytes>, k: nat)
    requires k <= |requests|
  {
    exists j: nat | j < k :: AsksForEvents(link, j, requests[j])
  }

  /** What the requests from the k-th on are answered: each with the notices that it raises for its own client, if that
      asked for events before, and then its reply. */
  ghost function AnsweredFrom(link: Link, requests: seq<Bytes>, k: nat): (r: seq<Msg>)
    decreases |requests| - k
  {
    if k >= |requests| then []
    else
      (if SubscribedBefore(link, requests, k) then RaisedBy(link, k, requests[k]) else []) +
      [RightReply(link, k, requests[k])] + AnsweredFrom(link, requests, k + 1)
  }

  /** All messages for the client, in order: the answers to its requests, and the events raised by others after its
      first request for events was carried out. */
  ghost function Due(link: Link, events: seq<Event>): (r: seq<Msg>)
    requires link.Valid()
  {
    if events == [] then []
    else
      var before, asked := events[..|events| - 1], Asked(link, events[..|events| - 1]);
      Due(link, before) +
      match events[|events| - 1]
      case Notify(name) => if SubscribedBefore(link, asked, |asked|) then [Notice(name)] else []
      case Recv(_) => AnsweredFrom(link, Asked(link, events), |asked|)
      case _ => []
  }

  // ---------------------------------------------------------------------------------------------------
  // What is queued

  /** The messages of the entries, apart from reports of internal errors. */
  ghost function Said(es: seq<Entry>): (r: seq<Msg>)
  {
    if es == [] then []
    else Said(es[..|es| - 1]) + (if es[|es| - 1].origin.Internal? then [] else [es[|es| - 1].msg])
  }

  lemma {:induction false} SaidAppend(a: seq<Entry>, b: seq<Entry>)
    ensures Said(a + b) == Said(a) + Said(b)
    decreases |b|
  {
    if b == [] {
      assert a + b == a;
    } else {
      assert (a + b)[..|a + b| - 1] == a + b[..|b| - 1];
      SaidAppend(a, b[..|b| - 1]);
    }
  }

  ghost function Flow(s: System): (r: seq<Entry>) { s.taken + s.queue }

  lemma AppendSays(s: System, e: Entry)
    ensures Said(Flow(Append(s, e))) == Said(Flow(s)) + if e.origin.Internal? then [] else [e.msg]
  {
    assert Flow(Append(s, e)) == Flow(s) + [e];
    SaidAppend(Flow(s), [e]);
    assert [e][..0] == [];
  }

  lemma {:induction false} NotifyAllSays(s: System, names: seq<string>)
    ensures Said(Flow(NotifyAll(s, names))) == Said(Flow(s)) + if s.acceptEvents then Notices(names) else []
    decreases |names|
  {
    if names != [] {
      if s.acceptEvents { AppendSays(s, Entry(Notice(names[0]), ForEvent)); }
      NotifyAllSays(NotifyClient(s, names[0]), names[1..]);
    }
  }

  /** How a request is handled, in terms of its envelope and its command. */
  lemma HandledAs(link: Link, k: nat, request: Bytes)
    ensures var h := link.Handle(k, request);
            && (h.Subscribed? <==> AsksForEvents(link, k, request))
            && RaisedBy(link, k, request) == (if h.Performed? then Notices(h.notices) else [])
            && ReplyTo(h) == RightReply(link, k, request)
  {
  }

  lemma CarryOutSays(s: System, h: Handling)
    ensures var r := CarryOut(s, h);
            && Said(Flow(r)) == Said(Flow(s)) + (if h.Performed? && s.acceptEvents then Notices(h.notices) else [])
            && r.acceptEvents == (s.acceptEvents || h.Subscribed?)
  {
    if h.Performed? { NotifyAllSays(s, h.notices); }
  }

  lemma DispatchSays(link: Link, s: System, request: Bytes)
    ensures var r, k := Dispatch(link, s, request), |s.requests|;
            && Said(Flow(r)) == Said(Flow(s)) + (if s.acceptEvents then RaisedBy(link, k, request) else [])
                                + [RightReply(link, k, request)]
            && r.acceptEvents == (s.acceptEvents || AsksForEvents(link, k, request))
  {
    HandledAs(link, |s.requests|, request);
    hide Said, CarryOut, Link.Handle, RaisedBy, AsksForEvents, RightReply, Notices;
    var s1, h := s.(requests := s.requests + [request]), link.Handle(|s.requests|, request);
    assert Flow(s1) == Flow(s);
    CarryOutSays(s1, h);
    AppendSays(CarryOut(s1, h), Entry(ReplyTo(h), ForRequest(|s.requests|)));
  }

  lemma SubscribedStep(link: Link, requests: seq<Bytes>, k: nat)
    requires k < |requests|
    ensures SubscribedBefore(link, requests, k + 1) <==>
            SubscribedBefore(link, requests, k) || AsksForEvents(link, k, requests[k])
  {
  }

  lemma {:induction false} DispatchAllSays(link: Link, s: System, more: seq<Bytes>)
    requires s.acceptEvents <==> SubscribedBefore(link, s.requests + more, |s.requests|)
    ensures var r, all := DispatchAll(link, s, more), s.requests + more;
            && Said(Flow(r)) == Said(Flow(s)) + AnsweredFrom(link, all, |s.requests|)
            && (r.acceptEvents <==> SubscribedBefore(link, all, |all|))
    decreases |more|
  {
    hide Dispatch, Said, Flow, SubscribedBefore;
    var all := s.requests + more;
    if more == [] {
      assert all == s.requests;
    } else {
      assert all[|s.requests|] == more[0];
      var s1 := Dispatch(link, s, more[0]);
      assert s1.requests + more[1..] == all;
      DispatchSays(link, s, more[0]);
      SubscribedStep(link, all, |s.requests|);
      DispatchAllSays(link, s1, more[1..]);
    }
  }

  // ---------------------------------------------------------------------------------------------------
  // Over runs

  /** The state is what the events tell. */
  ghost predicate Notified(link: Link, s: System, events: seq<Event>)
    requires link.Valid()
  {
    && s.received == Arrived(events)
    && s.requests == Asked(link, events)
    && (s.acceptEvents <==> SubscribedBefore(link, s.requests, |s.requests|))
    && Said(Flow(s)) == Due(link, events)
  }

  lemma InternalErrorSays(s: System, code: int, text: string)
    ensures Said(Flow(InternalError(s, code, text))) == Said(Flow(s))
  {
    var e := Entry(Reply(Absent, code, text), Internal);
    assert Flow(InternalError(s, code, text)) == (s.taken + [e]) + s.queue;
    SaidAppend(s.taken + [e], s.queue);
    SaidAppend(s.taken, [e]);
    SaidAppend(s.taken, s.queue);
    assert [e][..0] == [];
  }

  /** What one event more tells. */
  lemma OneMore(link: Link, before: seq<Event>, e: Event)
    requires link.Valid()
    ensures Arrived(before + [e]) == Arrived(before) + if e.Recv? then e.chunk else []
    ensures !e.Recv? && !e.Notify? ==> Due(link, before + [e]) == Due(link, before)
    ensures e.Notify? ==>
              Due(link, before + [e]) == Due(link, before) +
                if SubscribedBefore(link, Asked(link, before), |Asked(link, before)|) then [Notice(e.name)] else []
    ensures e.Recv? ==>
              Due(link, before + [e]) == Due(link, before) +
                AnsweredFrom(link, Asked(link, before + [e]), |Asked(link, before)|)
  {
    assert (before + [e])[..|before|] == before;
  }

  lemma RecvIsNotified(link: Link, s: System, before: seq<Event>, chunk: Bytes)
    requires link.Valid() && Inv(link, s) && Notified(link, s, before) && Legal(link, s, Recv(chunk))
    ensures Notified(link, RecvReady(link, s, chunk), before + [Recv(chunk)])
  {
    OneMore(link, before, Recv(chunk));
    RecvIsFaithful(link, s, chunk);
    hide Inv, Parse, Due, Arrived, SubscribedBefore, AnsweredFrom, Said;
    var parsed := Parse(link.decode, s.readBuf + chunk);
    var s1 := s.(readBuf := parsed.rest, received := s.received + chunk);
    assert Flow(s1) == Flow(s);
    SubscribedEarlier(link, s.requests, parsed.values);
    DispatchAllSays(link, s1, parsed.values);
    InternalErrorSays(DispatchAll(link, s1, parsed.values), EINVAL, "");
  }

  lemma SubscribedEarlier(link: Link, requests: seq<Bytes>, more: seq<Bytes>)
    ensures SubscribedBefore(link, requests + more, |requests|) <==> SubscribedBefore(link, requests, |requests|)
  {
    forall j: nat | j < |requests| ensures (requests + more)[j] == requests[j] {}
  }

  /** Sending and what the client does leave everything as it was. */
  lemma OtherKeepsFlow(link: Link, s: System, e: Event)
    requires link.Valid() && Legal(link, s, e)
    requires !e.Recv? && !e.Overflow? && !e.RecvError? && !e.Notify?
    ensures var r := Step(link, s, e);
            && r.received == s.received && r.requests == s.requests
            && r.acceptEvents == s.acceptEvents && Flow(r) == Flow(s)
  {
    hide Lawful;
    assert Flow(TakeNext(link, s)) == Flow(s);
  }

  lemma OtherIsNotified(link: Link, s: System, before: seq<Event>, e: Event)
    requires link.Valid() && Notified(link, s, before) && Legal(link, s, e)
    requires !e.Recv? && !e.Overflow? && !e.RecvError? && !e.Notify?
    ensures Notified(link, Step(link, s, e), before + [e])
  {
    hide Parse, Due, Arrived, SubscribedBefore, Said, Lawful, Step, Legal;
    OneMore(link, before, e);
    OtherKeepsFlow(link, s, e);
    assert Arrived(before) + [] == Arrived(before);
  }

  lemma StepIsNotified(link: Link, s: System, before: seq<Event>, e: Event)
    requires link.Valid() && Inv(link, s) && Notified(link, s, before) && Legal(link, s, e)
    ensures Notified(link, Step(link, s, e), before + [e])
  {
    hide Inv, Parse, Due, Arrived, SubscribedBefore, Said, Flow, Lawful, RecvReady, SendReady;
    match e
    case Recv(chunk) => RecvIsNotified(link, s, before, chunk);
    case Overflow =>
      OneMore(link, before, e);
      InternalErrorSays(s, EIO, "Buffer overflow");
    case RecvError =>
      OneMore(link, before, e);
      InternalErrorSays(s, EIO, "Read failed");
    case Notify(name) =>
      OneMore(link, before, e);
      if s.acceptEvents { AppendSays(s, Entry(Notice(name), ForEvent)); }
      assert Due(link, before) + [] == Due(link, before);
    case _ => OtherIsNotified(link, s, before, e);
  }

  /** A run of one event more takes one step more. */
  lemma {:induction false} RunLast(link: Link, s: System, events: seq<Event>)
    requires link.Valid() && LegalRun(link, s, events) && events != []
    ensures var before, e := events[..|events| - 1], events[|events| - 1];
            && LegalRun(link, s, before) && Legal(link, Run(link, s, before), e)
            && Run(link, s, events) == Step(link, Run(link, s, before), e)
    decreases |events|
  {
    hide Step, Legal;
    var s1 := Step(link, s, events[0]);
    if |events| == 1 {
      assert events[1..] == [] && events[..0] == [];
      assert Run(link, s1, []) == s1;
    } else {
      RunLast(link, s1, events[1..]);
      assert events[..|events| - 1][1..] == events[1..][..|events| - 2];
    }
  }

  lemma NothingNotified(link: Link)
    requires link.Valid()
    ensures Notified(link, CONNECTED, [])
  {
    hide Lawful;
    assert Flow(CONNECTED) == [];
  }

  lemma {:induction false} RunIsNotified(link: Link, events: seq<Event>)
    requires link.Valid() && LegalRun(link, CONNECTED, events)
    ensures Notified(link, Run(link, CONNECTED, events), events)
    decreases |events|
  {
    hide Notified, Step, Legal, Inv, Lawful;
    if events == [] {
      NothingNotified(link);
    } else {
      var before := events[..|events| - 1];
      RunLast(link, CONNECTED, events);
      RunIsNotified(link, before);
      ConnectedInv(link);
      RunKeepsInv(link, CONNECTED, before);
      StepIsNotified(link, Run(link, CONNECTED, before), before, events[|events| - 1]);
      assert before + [events[|events| - 1]] == events;
    }
  }

  /** Over every run: the server has the bytes that arrived, and the messages it took and holds, apart from reports of
      errors, are exactly those due, in order. */
  lemma {:induction false} MessagesAreExact(link: Link, events: seq<Event>)
    requires link.Valid() && LegalRun(link, CONNECTED, events)
    ensures var s := Run(link, CONNECTED, events);
            && s.received == Arrived(events)
            && s.requests == Asked(link, events)
            && Said(s.taken + s.queue) == Due(link, events)
            && Said(s.taken) <= Due(link, events)
  {
    hide Said, Due, Run, SubscribedBefore;
    RunIsNotified(link, events);
    var s := Run(link, CONNECTED, events);
    SaidAppend(s.taken, s.queue);
  }
}
