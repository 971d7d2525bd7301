/** What becomes of the report of an internal error, over every run of the connection after it. */
module ControlErrors {
  import opened Wrappers
  import opened Framing
  import opened Control
  import opened ControlInvariants

  /** The event makes the server report an internal error. */
  predicate Raises(link: Link, s: System, e: Event)
    requires link.Valid()
  {
    match e
    case Recv(chunk) => Parse(link.decode, s.readBuf + chunk).malformed
    case Overflow => true
    case RecvError => true
    case _ => false
  }

  function Report(e: Event): (r: Entry)
  {
    match e
    case Overflow => Entry(Reply(Absent, EIO, "Buffer overflow"), Internal)
    case RecvError => Entry(Reply(Absent, EIO, "Read failed"), Internal)
    case _ => Entry(Reply(Absent, EINVAL, ""), Internal)
  }

  predicate TakesOne(e: Event) { e.Send? || e.SendError? }

  /** Some event of the run takes a message from the queue. */
  predicate TakesAny(events: seq<Event>)
  {
    events != [] && (TakesOne(events[0]) || TakesAny(events[1..]))
  }

  /** The report at the head of the queue when the first message is taken: that of the last error before. */
  ghost function Overtaking(link: Link, s: System, report: Entry, events: seq<Event>): (r: Entry)
    requires link.Valid() && LegalRun(link, s, events)
    decreases |events|
  {
    if events == [] || TakesOne(events[0]) then report
    else Overtaking(link, Step(link, s, events[0]), if Raises(link, s, events[0]) then Report(events[0]) else report,
                    events[1..])
  }

  /** No other error is raised before the first message is taken. */
  ghost predicate Undisturbed(link: Link, s: System, events: seq<Event>)
    requires link.Valid() && LegalRun(link, s, events)
    decreases |events|
  {
    events == [] || TakesOne(events[0]) ||
    (!Raises(link, s, events[0]) && Undisturbed(link, Step(link, s, events[0]), events[1..]))
  }

  // ---------------------------------------------------------------------------------------------------
  // When the connection is closed

  /** The send writes the rest of the message underway, or all of the next one. */
  predicate Completes(link: Link, s: System, count: nat)
  {
    if s.unsent.Some? then |s.unsent.value| <= count
    else s.queue != [] && |link.encode(s.queue[0].msg)| <= count
  }

  /** The server closes the connection: at a hangup, at a failed write, and with the first message completed after an
      error. */
  ghost predicate Closes(link: Link, s: System, events: seq<Event>, failed: bool)
    requires link.Valid() && LegalRun(link, s, events)
    decreases |events|
  {
    events != [] &&
    (|| events[0].Hangup? || events[0].SendError?
     || (events[0].Send? && failed && Completes(link, s, events[0].count))
     || Closes(link, Step(link, s, events[0]), events[1..], failed || Raises(link, s, events[0])))
  }

  lemma ClosingSend(link: Link, s: System, count: nat)
    ensures var r := SendReady(link, s, count);
            (r.open <==> s.open && !(s.dropAfter && Completes(link, s, count))) && r.dropAfter == s.dropAfter
  {
  }

  lemma ClosingStep(link: Link, s: System, e: Event)
    requires link.Valid() && Legal(link, s, e)
    ensures var r := Step(link, s, e);
            && (r.open <==> s.open && !e.Hangup? && !e.SendError? &&
                            !(e.Send? && s.dropAfter && Completes(link, s, e.count)))
            && (r.dropAfter <==> s.dropAfter || Raises(link, s, e))
  {
    hide Lawful, Parse, SendReady, Completes;
    if e.Send? { ClosingSend(link, s, e.count); }
  }

  lemma {:induction false} ClosedStays(link: Link, s: System, events: seq<Event>)
    requires link.Valid() && LegalRun(link, s, events) && !s.open
    ensures !Run(link, s, events).open
    decreases |events|
  {
    if events != [] {
      hide Step, Legal, Lawful, Raises, Completes;
      ClosingStep(link, s, events[0]);
      ClosedStays(link, Step(link, s, events[0]), events[1..]);
    }
  }

  lemma {:induction false} ClosesFrom(link: Link, s: System, events: seq<Event>)
    requires link.Valid() && LegalRun(link, s, events) && s.open
    ensures Run(link, s, events).open <==> !Closes(link, s, events, s.dropAfter)
    decreases |events|
  {
    if events != [] {
      hide Step, Legal, Lawful, Raises, Completes;
      ClosingStep(link, s, events[0]);
      var s1 := Step(link, s, events[0]);
      if s1.open { ClosesFrom(link, s1, events[1..]); } else { ClosedStays(link, s1, events[1..]); }
    }
  }

  /** Over every run the connection is open if and only if none of its events closed it. */
  lemma ClosesExactly(link: Link, events: seq<Event>)
    requires link.Valid() && LegalRun(link, CONNECTED, events)
    ensures Run(link, CONNECTED, events).open <==> !Closes(link, CONNECTED, events, false)
  {
    ClosesFrom(link, CONNECTED, events);
  }

  // ---------------------------------------------------------------------------------------------------
  // Once a message is underway, it is the last

  /** The connection is closed, or it is to be dropped and a message is partly written. */
  ghost predicate Finishing(s: System)
  {
    !s.open || (s.dropAfter && s.unsent.Some? && s.unsent.value != [])
  }

  lemma {:induction false} SendFinishes(link: Link, s: System, count: nat)
    requires s.open && Finishing(s)
    ensures var r := SendReady(link, s, count); Finishing(r) && r.taken == s.taken
  {
  }

  lemma {:induction false} FinishingStep(link: Link, s: System, e: Event)
    requires link.Valid() && Legal(link, s, e) && Finishing(s)
    ensures Finishing(Step(link, s, e)) && Step(link, s, e).taken == s.taken
  {
    if e.Send? { SendFinishes(link, s, e.count); }
  }

  lemma {:induction false} NothingMoreIsTaken(link: Link, s: System, events: seq<Event>)
    requires link.Valid() && LegalRun(link, s, events) && Finishing(s)
    ensures Run(link, s, events).taken == s.taken && Finishing(Run(link, s, events))
    decreases |events|
  {
    if events != [] {
      FinishingStep(link, s, events[0]);
      NothingMoreIsTaken(link, Step(link, s, events[0]), events[1..]);
    }
  }

  // ---------------------------------------------------------------------------------------------------
  // Until then the last report is at the head of the queue

  ghost predicate Headed(s: System, report: Entry)
  {
    s.open && s.dropAfter && s.unsent.None? && s.writeInterest && s.queue != [] && s.queue[0] == report
  }

  lemma {:induction false} NotifyAllHeaded(s: System, names: seq<string>, report: Entry)
    requires s.queue != [] && s.queue[0] == report
    ensures var r := NotifyAll(s, names); r.queue != [] && r.queue[0] == report
    decreases |names|
  {
    if names != [] { NotifyAllHeaded(NotifyClient(s, names[0]), names[1..], report); }
  }

  lemma {:induction false} DispatchAllHeaded(link: Link, s: System, requests: seq<Bytes>, report: Entry)
    requires s.queue != [] && s.queue[0] == report
    ensures var r := DispatchAll(link, s, requests); r.queue != [] && r.queue[0] == report
    decreases |requests|
  {
    if requests != [] {
      var h := link.Handle(|s.requests|, requests[0]);
      if h.Performed? { NotifyAllHeaded(s.(requests := s.requests + [requests[0]]), h.notices, report); }
      DispatchAllHeaded(link, Dispatch(link, s, requests[0]), requests[1..], report);
    }
  }

  lemma {:induction false} WaitingStep(link: Link, s: System, e: Event, report: Entry)
    requires link.Valid() && Legal(link, s, e) && Headed(s, report) && !TakesOne(e)
    ensures var r := Step(link, s, e);
            && r.taken == s.taken
            && (r.open ==> Headed(r, if Raises(link, s, e) then Report(e) else report))
  {
    if e.Recv? {
      var parsed := Parse(link.decode, s.readBuf + e.chunk);
      var s1 := s.(readBuf := parsed.rest, received := s.received + e.chunk);
      DispatchAllHeaded(link, s1, parsed.values, report);
      RecvInterest(link, s1, parsed.values);
    }
  }

  lemma {:induction false} RecvInterest(link: Link, s: System, requests: seq<Bytes>)
    requires s.writeInterest
    ensures DispatchAll(link, s, requests).writeInterest
    decreases |requests|
  {
    if requests != [] { RecvInterest(link, Dispatch(link, s, requests[0]), requests[1..]); }
  }

  /** The message at the head is taken, sent as far as the socket lets it, and is the last. */
  lemma {:induction false} TakingStep(link: Link, s: System, e: Event, report: Entry)
    requires link.Valid() && Legal(link, s, e) && Headed(s, report) && TakesOne(e)
    ensures var r := Step(link, s, e); Finishing(r) && r.taken == s.taken + [report]
  {
    var s1 := TakeNext(link, s);
    assert s1.unsent == Some(link.encode(report.msg)) && link.encode(report.msg) != [];
    if e.Send? { SendFinishes(link, s1, e.count); }
  }

  lemma {:induction false} ClosedTakesNone(link: Link, s: System, events: seq<Event>)
    requires link.Valid() && LegalRun(link, s, events) && !s.open
    ensures !TakesAny(events)
    decreases |events|
  {
    if events != [] { ClosedTakesNone(link, Step(link, s, events[0]), events[1..]); }
  }

  /** Over every run from a state with a report at the head of the queue: the first message taken, if any, is the
      report of the last error raised before that, and nothing is taken after it. */
  lemma {:induction false} ReportIsTaken(link: Link, s: System, report: Entry, events: seq<Event>)
    requires link.Valid() && LegalRun(link, s, events) && Headed(s, report)
    ensures Run(link, s, events).taken ==
            s.taken + (if TakesAny(events) then [Overtaking(link, s, report, events)] else [])
    decreases |events|
  {
    if events != [] {
      hide Step, Legal, Raises, Headed, Finishing;
      var e := events[0];
      var s1 := Step(link, s, e);
      if TakesOne(e) {
        TakingStep(link, s, e, report);
        NothingMoreIsTaken(link, s1, events[1..]);
      } else {
        WaitingStep(link, s, e, report);
        if s1.open {
          ReportIsTaken(link, s1, if Raises(link, s, e) then Report(e) else report, events[1..]);
        } else {
          ClosedTakesNone(link, s1, events[1..]);
          assert Finishing(s1) by { ClosedFinishes(s1); }
          NothingMoreIsTaken(link, s1, events[1..]);
        }
      }
    }
  }

  lemma ClosedFinishes(s: System)
    requires !s.open
    ensures Finishing(s)
  {
  }

  /** The report taken is the one asked about exactly when no other error came before the take: otherwise it does
      not depend on the one asked about at all. */
  lemma {:induction false} OvertakenExactly(link: Link, s: System, report: Entry, other: Entry, events: seq<Event>)
    requires link.Valid() && LegalRun(link, s, events)
    ensures Undisturbed(link, s, events) ==> Overtaking(link, s, report, events) == report
    ensures !Undisturbed(link, s, events) ==>
              Overtaking(link, s, report, events) == Overtaking(link, s, other, events)
    decreases |events|
  {
    if events != [] && !TakesOne(events[0]) {
      hide Step, Legal, Raises;
      var s1 := Step(link, s, events[0]);
      OvertakenExactly(link, s1, report, other, events[1..]);
      var later := Report(events[0]);
      OvertakenExactly(link, s1, later, later, events[1..]);
    }
  }

  /** Over every run after an internal error. If a message was partly written, it is the last one: no report is
      ever taken. Otherwise the first message taken is a report and the last one: this one, unless another error
      is raised before, and then the last of those. Once the bytes have arrived the client has decoded it. */
  lemma {:induction false} ErrorIsReportedExactly(link: Link, s: System, code: int, text: string, events: seq<Event>)
    requires link.Valid() && Inv(link, s) && s.open && LegalRun(link, InternalError(s, code, text), events)
    ensures var s1 := InternalError(s, code, text);
            var report := Entry(Reply(Absent, code, text), Internal);
            var r := Run(link, s1, events);
            && r.taken == s.taken +
                 (if s.unsent.None? && TakesAny(events) then [Overtaking(link, s1, report, events)] else [])
            && (Undisturbed(link, s1, events) ==> Overtaking(link, s1, report, events) == report)
            && (!Undisturbed(link, s1, events) ==>
                  forall other :: Overtaking(link, s1, other, events) == Overtaking(link, s1, report, events))
            && (r.unsent.None? && r.wire == [] && r.clientBuf == [] ==>
                  |r.decoded| == |r.taken| && forall i | 0 <= i < |r.taken| :: r.decoded[i] == r.taken[i].msg)
  {
    var s1 := InternalError(s, code, text);
    var report := Entry(Reply(Absent, code, text), Internal);
    InternalErrorKeeps(link, s, code, text);
    RunKeepsInv(link, s1, events);
    var r := Run(link, s1, events);
    if s.unsent.None? {
      ReportIsTaken(link, s1, report, events);
    } else {
      NothingMoreIsTaken(link, s1, events);
    }
    forall other {
      OvertakenExactly(link, s1, report, other, events);
    }
    if r.unsent.None? && r.wire == [] && r.clientBuf == [] { NothingIsLost(link, r); }
  }

  /** The report can be lost to a later error although no message was partly written: bytes that do not parse,
      then a failed read, then a write. */
  lemma {:induction false} SecondErrorOvertakes(link: Link, s: System, count: nat)
    requires link.Valid() && Inv(link, s) && s.open && s.unsent.None? && |s.readBuf| < SERVER_BUFFER
    ensures var s1 := InternalError(s, EINVAL, "");
            var events := [RecvError, Send(count)];
            && LegalRun(link, s1, events)
            && Run(link, s1, events).taken == s.taken + [Entry(Reply(Absent, EIO, "Read failed"), Internal)]
  {
    var s1 := InternalError(s, EINVAL, "");
    var events := [RecvError, Send(count)];
    var s2 := Step(link, s1, RecvError);
    assert events[1..] == [Send(count)] && events[1..][1..] == [];
    assert Headed(s2, Report(RecvError));
    assert Legal(link, s2, Send(count));
    TakingStep(link, s2, Send(count), Report(RecvError));
    var s3 := Step(link, s2, Send(count));
    assert LegalRun(link, s3, []) && LegalRun(link, s2, [Send(count)]);
    assert Run(link, s2, [Send(count)]) == Run(link, s3, []);
  }

  // ---------------------------------------------------------------------------------------------------
  // When the read buffer overflows

  lemma {:induction false} OneMore(link: Link, s: System, events: seq<Event>, e: Event)
    requires link.Valid() && LegalRun(link, s, events) && Legal(link, Run(link, s, events), e)
    ensures LegalRun(link, s, events + [e])
    ensures Run(link, s, events + [e]) == Step(link, Run(link, s, events), e)
    decreases |events|
  {
    hide Step, Legal;
    if events == [] {
      assert events + [e] == [e] && [e][1..] == [];
      var s1 := Step(link, s, e);
      assert LegalRun(link, s1, []) && Run(link, s1, []) == s1;
    } else {
      assert (events + [e])[0] == events[0] && (events + [e])[1..] == events[1..] + [e];
      OneMore(link, Step(link, s, events[0]), events[1..], e);
    }
  }

  /** The bytes arrive one at a time until the buffer is full or all have arrived. */
  lemma {:induction false} Trickle(link: Link, all: Bytes, k: nat) returns (events: seq<Event>)
    requires link.Valid() && k <= |all|
    ensures LegalRun(link, CONNECTED, events)
    ensures var s := Run(link, CONNECTED, events);
            s.open && s.received <= all && (Legal(link, s, Overflow) || s.received == all[..k])
    decreases k
  {
    hide Step, Legal, Inv, Parse, Lawful;
    if k == 0 {
      events := [];
      assert CONNECTED.received == all[..0];
    } else {
      events := Trickle(link, all, k - 1);
      hide Run, LegalRun;
      var s := Run(link, CONNECTED, events);
      ConnectedInv(link);
      RunKeepsInv(link, CONNECTED, events);
      if !Legal(link, s, Overflow) {
        var e := Recv([all[k - 1]]);
        OneByte(link, s, all[k - 1]);
        OneMore(link, CONNECTED, events, e);
        assert all[..k] == all[..k - 1] + [all[k - 1]];
        events := events + [e];
      }
    }
  }

  lemma OneByte(link: Link, s: System, b: Byte)
    requires link.Valid() && Inv(link, s) && s.open && !Legal(link, s, Overflow)
    ensures Legal(link, s, Recv([b]))
    ensures var r := Step(link, s, Recv([b])); r.open && r.received == s.received + [b]
  {
  }

  /** Some way of cutting a stream of complete requests makes the server report an overflow if and only if one of
      them, with the white space before it, is longer than the read buffer. */
  lemma {:induction false} OverflowsExactly(link: Link, all: Bytes)
    requires link.Valid() && Whole(link.decode, all)
    ensures (exists events :: LegalRun(link, CONNECTED, events) && Run(link, CONNECTED, events).received <= all
                              && Legal(link, Run(link, CONNECTED, events), Overflow))
            <==> !AllFit(link.decode, all, SERVER_BUFFER)
  {
    if AllFit(link.decode, all, SERVER_BUFFER) {
      forall events | LegalRun(link, CONNECTED, events) && Run(link, CONNECTED, events).received <= all
        ensures !Legal(link, Run(link, CONNECTED, events), Overflow)
      {
        NoOverflow(link, events, all);
      }
    } else {
      var k := LongValueFillsBuffer(link.decode, all, SERVER_BUFFER);
      var events := Trickle(link, all, k);
      ConnectedInv(link);
      RunKeepsInv(link, CONNECTED, events);
      assert Legal(link, Run(link, CONNECTED, events), Overflow);
    }
  }
}
