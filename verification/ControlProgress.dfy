/** A connection without errors always makes progress: from every state, what is queued can reach the client. */
module ControlProgress {
  import opened Framing
  import opened Control
  import opened ControlInvariants

  /** Everything the client may ever decode fits into its buffer. */
  ghost predicate AllShort(link: Link, es: seq<Entry>)
  {
    forall i | 0 <= i < |es| :: |link.encode(es[i].msg)| <= CLIENT_BUFFER
  }

  lemma {:induction false} RunAppend(link: Link, s: System, a: seq<Event>, b: seq<Event>)
    requires link.Valid() && LegalRun(link, s, a) && LegalRun(link, Run(link, s, a), b)
    ensures LegalRun(link, s, a + b) && Run(link, s, a + b) == Run(link, Run(link, s, a), b)
    decreases |a|
  {
    hide Lawful, Step, Legal;
    if a == [] {
      assert a + b == b;
    } else {
      assert (a + b)[1..] == a[1..] + b;
      RunAppend(link, Step(link, s, a[0]), a[1..], b);
    }
  }

  lemma {:induction false} OneEvent(link: Link, s: System, e: Event)
    requires link.Valid() && Legal(link, s, e)
    ensures LegalRun(link, s, [e]) && Run(link, s, [e]) == Step(link, s, e)
  {
    hide Lawful, Step, Legal;
    assert [e][1..] == [];
    assert Run(link, Step(link, s, e), []) == Step(link, s, e);
  }

  // ---------------------------------------------------------------------------------------------------
  // The server sends

  /** What is left of the message underway goes out, or the next message does. */
  lemma SendGoesOut(link: Link, s: System)
    requires link.Valid() && Inv(link, s) && s.open && !s.dropAfter && (s.unsent.Some? || s.queue != [])
    ensures Legal(link, s, Send(|TakeNext(link, s).unsent.value|))
    ensures var r := Step(link, s, Send(|TakeNext(link, s).unsent.value|));
            && r.open && !r.dropAfter && r.unsent.None?
            && r.taken + r.queue == s.taken + s.queue
            && |r.queue| == (if s.unsent.Some? then |s.queue| else |s.queue| - 1)
            && r.decoded == s.decoded && r.clientBuf == s.clientBuf
  {
    hide Lawful, Base;
  }

  /** The queue can be emptied. */
  lemma {:induction false} Drains(link: Link, s: System) returns (events: seq<Event>)
    requires link.Valid() && Inv(link, s) && s.open && !s.dropAfter
    ensures LegalRun(link, s, events) && forall i | 0 <= i < |events| :: events[i].Send?
    ensures var r := Run(link, s, events);
            && Inv(link, r) && r.open && r.queue == [] && r.unsent.None? && r.taken == s.taken + s.queue
            && r.decoded == s.decoded
    decreases |s.queue|, s.unsent.Some?
  {
    hide Inv, Step, Legal, Lawful;
    if s.unsent.None? && s.queue == [] {
      events := [];
      assert s.taken + s.queue == s.taken;
    } else {
      SendGoesOut(link, s);
      var e := Send(|TakeNext(link, s).unsent.value|);
      StepKeepsInv(link, s, e);
      OneEvent(link, s, e);
      var rest := Drains(link, Step(link, s, e));
      events := [e] + rest;
      RunAppend(link, s, [e], rest);
    }
  }

  // ---------------------------------------------------------------------------------------------------
  // The client receives

  /** The next message for the client, of which a beginning is in its buffer. */
  lemma NextArrives(link: Link, s: System)
    requires link.Valid() && Inv(link, s) && s.unsent.None? && |s.decoded| < |s.taken|
    ensures var text := link.encode(s.taken[|s.decoded|].msg);
            && text != [] && |text| <= |s.clientBuf| + |s.wire|
            && (|s.clientBuf| >= |text| ==>
                  link.clientDecode(s.clientBuf) == Complete(|text|, s.taken[|s.decoded|].msg))
  {
    var pending := s.taken[|s.decoded|..];
    var text := link.encode(pending[0].msg);
    assert Downstream(s) == s.wire;
    assert s.clientBuf + s.wire == text + Stream(link, pending[1..]);
    if |s.clientBuf| >= |text| {
      assert s.clientBuf == (s.clientBuf + s.wire)[..|s.clientBuf|];
      assert s.clientBuf == text + s.clientBuf[|text|..];
    }
  }

  /** The missing bytes of it can be received. */
  lemma ReceivesRest(link: Link, s: System, text: Bytes)
    requires link.Valid() && |s.clientBuf| < |text| <= |s.clientBuf| + |s.wire| && |text| <= CLIENT_BUFFER
    ensures var e := ClientRecv(|text| - |s.clientBuf|);
            && Legal(link, s, e)
            && var r := Step(link, s, e);
               |r.clientBuf| == |text| && r.taken == s.taken && r.unsent == s.unsent && r.decoded == s.decoded
  {
    hide Lawful;
  }

  /** Once it is complete it can be decoded. */
  lemma TakesWhole(link: Link, s: System, text: Bytes, m: Msg)
    requires link.Valid() && 0 < |text| <= |s.clientBuf| && link.clientDecode(s.clientBuf) == Complete(|text|, m)
    ensures Legal(link, s, ClientTake)
    ensures var r := Step(link, s, ClientTake);
            r.decoded == s.decoded + [m] && r.taken == s.taken && r.unsent == s.unsent
  {
    hide Lawful;
  }

  /** It can be received completely and decoded. */
  lemma TakesNext(link: Link, s: System) returns (events: seq<Event>)
    requires link.Valid() && Inv(link, s) && s.unsent.None? && |s.decoded| < |s.taken|
    requires |link.encode(s.taken[|s.decoded|].msg)| <= CLIENT_BUFFER
    ensures LegalRun(link, s, events) && forall i | 0 <= i < |events| :: events[i].ClientRecv? || events[i].ClientTake?
    ensures var r := Run(link, s, events);
            && Inv(link, r) && r.taken == s.taken && r.unsent == s.unsent
            && r.decoded == s.decoded + [s.taken[|s.decoded|].msg]
  {
    hide Inv, Lawful, Step, Legal;
    NextArrives(link, s);
    var m := s.taken[|s.decoded|].msg;
    var text := link.encode(m);
    events := [];
    var s1 := s;
    if |s.clientBuf| < |text| {
      var e := ClientRecv(|text| - |s.clientBuf|);
      ReceivesRest(link, s, text);
      StepKeepsInv(link, s, e);
      OneEvent(link, s, e);
      events, s1 := [e], Step(link, s, e);
      NextArrives(link, s1);
    }
    TakesWhole(link, s1, text, m);
    StepKeepsInv(link, s1, ClientTake);
    OneEvent(link, s1, ClientTake);
    RunAppend(link, s, events, [ClientTake]);
    events := events + [ClientTake];
  }

  lemma {:induction false} DecodesAll(link: Link, s: System) returns (events: seq<Event>)
    requires link.Valid() && Inv(link, s) && s.unsent.None? && AllShort(link, s.taken[|s.decoded|..])
    requires |s.decoded| <= |s.taken|
    ensures LegalRun(link, s, events) && forall i | 0 <= i < |events| :: events[i].ClientRecv? || events[i].ClientTake?
    ensures var r := Run(link, s, events); Inv(link, r) && r.taken == s.taken && |r.decoded| == |s.taken|
    decreases |s.taken| - |s.decoded|
  {
    hide Inv, Step, Legal, Lawful;
    if |s.decoded| == |s.taken| {
      events := [];
    } else {
      var pending := s.taken[|s.decoded|..];
      assert pending[0] == s.taken[|s.decoded|];
      var first := TakesNext(link, s);
      var s1 := Run(link, s, first);
      assert s1.taken[|s1.decoded|..] == pending[1..];
      var rest := DecodesAll(link, s1);
      RunAppend(link, s, first, rest);
      events := first + rest;
    }
  }

  /** The messages of the entries. */
  ghost function Messages(es: seq<Entry>): (r: seq<Msg>)
    ensures |r| == |es| && forall i | 0 <= i < |r| :: r[i] == es[i].msg
  {
    seq(|es|, i requires 0 <= i < |es| => es[i].msg)
  }

  /** From every state of an open connection without an error there are sends, receives and reads after which the
      client has decoded every message taken and queued, in order, if each fits into its buffer. */
  lemma EverythingArrives(link: Link, before: seq<Event>) returns (events: seq<Event>)
    requires link.Valid() && LegalRun(link, CONNECTED, before)
    requires var s := Run(link, CONNECTED, before); s.open && !s.dropAfter && AllShort(link, s.taken + s.queue)
    ensures var s := Run(link, CONNECTED, before);
            && LegalRun(link, s, events)
            && (forall i | 0 <= i < |events| :: events[i].Send? || events[i].ClientRecv? || events[i].ClientTake?)
            && Run(link, s, events).decoded == Messages(s.taken + s.queue)
  {
    hide Step, Legal, Lawful;
    ConnectedInv(link);
    RunKeepsInv(link, CONNECTED, before);
    var s := Run(link, CONNECTED, before);
    var sends := Drains(link, s);
    var s1 := Run(link, s, sends);
    assert |s1.decoded| <= |s1.taken|;
    var takes := DecodesAll(link, s1);
    RunAppend(link, s, sends, takes);
    events := sends + takes;
  }
}
