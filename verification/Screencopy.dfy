/** The wlr-screencopy capture object (src/screencopy.c).

`Wlr` is the capture object together with a ledger of the buffers it has taken from the pool. The
compositor's side of the protocol is in `Legal`: a frame object is described once (buffer_done), reports
damage and readiness only after a buffer was offered to it, and may fail at any time. */
module Screencopy {
  import opened Wrappers
  import opened Regions
  import opened Pacing

  datatype Status = STOPPED | IN_PROGRESS | FAILED | FATAL | DONE

  /** `described` and `offered` are what the outstanding frame object has seen so far. */
  datatype Frame = NoFrame | Frame(described: bool, offered: bool)

  datatype Delivery = Delivery(id: BufferId, damage: Region)

  /** `requests` are the times at which frame objects were created. */
  datatype Ledger = Ledger(acquired: multiset<BufferId>, released: multiset<BufferId>, delivered: seq<Delivery>,
                           requests: seq<int>)

  datatype Wlr = Wlr(status: Status, front: Option<BufferId>, back: Option<BufferId>, frontDamage: Region,
                     frame: Frame, timer: Option<int>, immediate: bool, lastTime: int, ledger: Ledger)

  /** `created` tells whether libwayland could create the frame object. */
  datatype Clock = Clock(now: int, created: bool)

  datatype Event =
    | Start(immediate: bool, clock: Clock)
    | Poll(clock: Clock)
    | BufferDone(supply: Option<BufferId>)
    | Damage(x: int, y: int, width: int, height: int)
    | Ready(again: Option<Clock>)   // on_done may start the next capture before it returns
    | Fail
    | Stop

  datatype Outcome = Ok(state: Wlr) | AssertFailed

  const INITIAL := Wlr(STOPPED, None, None, {}, NoFrame, None, false, 0, Ledger(multiset{}, multiset{}, [], []))

  function Halt(s: Wlr): (r: Wlr)
  {
    s.(timer := None, status := STOPPED, frame := NoFrame)
  }

  function ReleaseBuffer(s: Wlr, id: Option<BufferId>): (r: Wlr)
  {
    if id.Some? then s.(ledger := s.ledger.(released := s.ledger.released + multiset{id.value})) else s
  }

  function StopWlr(s: Wlr): (r: Wlr)
  {
    Halt(ReleaseBuffer(s, s.front).(front := None, frontDamage := {}))
  }

  function CaptureOutput(s: Wlr, clock: Clock): (r: Wlr)
  {
    if clock.created then
      s.(frame := Frame(false, false), lastTime := clock.now,
         ledger := s.ledger.(requests := s.ledger.requests + [clock.now]))
    else s.(frame := NoFrame)
  }

  function StartWlr(p: Params, s: Wlr, immediate: bool, clock: Clock): (r: Wlr)
    requires p.Valid()
  {
    if s.status == IN_PROGRESS then s
    else
      var left := TimeLeft(2 * p.maxRate, s.lastTime, clock.now);
      var s1 := s.(immediate := immediate, status := IN_PROGRESS);
      if left > 0 then s1.(timer := Some(clock.now + left)) else CaptureOutput(s1, clock)
  }

  function HandleBufferDone(s: Wlr, supply: Option<BufferId>): (r: Outcome)
  {
    if supply.None? then Ok(Halt(s).(status := FATAL))
    else if s.front.Some? then AssertFailed
    else
      Ok(s.(front := supply, frontDamage := {}, frame := Frame(true, true),
            ledger := s.ledger.(acquired := s.ledger.acquired + multiset{supply.value})))
  }

  /** Up to the call of on_done. */
  function FinishCapture(p: Params, s: Wlr): (r: Wlr)
  {
    var damage := if s.immediate then s.frontDamage + p.Full() else s.frontDamage;
    var s1 := ReleaseBuffer(Halt(s), s.back);
    s1.(back := s.front, front := None, frontDamage := {}, status := DONE,
        ledger := if s.front.Some?
                  then s1.ledger.(delivered := s1.ledger.delivered + [Delivery(s.front.value, damage)])
                  else s1.ledger)
  }

  function DeliverCapture(p: Params, s: Wlr, again: Option<Clock>): (r: Wlr)
    requires p.Valid()
  {
    var s1 := FinishCapture(p, s);
    (if again.Some? then StartWlr(p, s1, false, again.value) else s1).(back := None)
  }

  function Step(p: Params, s: Wlr, e: Event): (r: Outcome)
    requires p.Valid()
  {
    match e
    case Start(immediate, clock) => Ok(StartWlr(p, s, immediate, clock))
    case Poll(clock) => Ok(CaptureOutput(s.(timer := None), clock))
    case BufferDone(supply) => HandleBufferDone(s, supply)
    case Damage(x, y, width, height) => Ok(s.(frontDamage := s.frontDamage + Rectangle(x, y, width, height)))
    case Ready(again) => Ok(DeliverCapture(p, s, again))
    case Fail => Ok(ReleaseBuffer(Halt(s), s.front).(front := None, frontDamage := {}, status := FAILED))
    case Stop => Ok(StopWlr(s))
  }

  predicate Legal(s: Wlr, e: Event)
  {
    match e
    case Start(_, _) => true
    case Poll(clock) => s.timer.Some? && clock.now >= s.timer.value
    case BufferDone(supply) => s.frame.Frame? && !s.frame.described
    case Damage(_, _, _, _) => s.frame.Frame? && s.frame.offered
    case Ready(_) => s.frame.Frame? && s.frame.offered
    case Fail => s.frame.Frame?
    case Stop => true
  }

  /** The event asks for a frame object, and libwayland cannot create it. */
  predicate Refused(p: Params, s: Wlr, e: Event)
    requires p.Valid()
  {
    match e
    case Start(_, clock) =>
      s.status != IN_PROGRESS && TimeLeft(2 * p.maxRate, s.lastTime, clock.now) <= 0 && !clock.created
    case Poll(clock) => !clock.created
    case Ready(again) =>
      again.Some? && TimeLeft(2 * p.maxRate, s.lastTime, again.value.now) <= 0 && !again.value.created
    case _ => false
  }

  /** A capture is in progress while the timer is armed or one frame object is outstanding, a buffer is in front
      exactly while it is offered to that object, and every buffer ever taken was released, was delivered or is
      in front, once. */
  ghost predicate Inv(s: Wlr)
  {
    Steady(s) && s.back.None?
  }

  ghost predicate Steady(s: Wlr)
  {
    && (s.timer.Some? || s.frame.Frame? ==> s.status == IN_PROGRESS)
    && !(s.timer.Some? && s.frame.Frame?)
    && (s.front.Some? <==> s.frame.Frame? && s.frame.offered)
    && (s.frame.Frame? ==> s.frame.described == s.frame.offered)
    && Balanced(s)
  }

  /** In progress with nothing to wait for. */
  predicate Stuck(s: Wlr) { s.status == IN_PROGRESS && s.timer.None? && s.frame.NoFrame? }

  ghost function Ids(deliveries: seq<Delivery>): (r: multiset<BufferId>)
  {
    if deliveries == [] then multiset{}
    else Ids(deliveries[..|deliveries| - 1]) + multiset{deliveries[|deliveries| - 1].id}
  }

  ghost predicate Balanced(s: Wlr)
  {
    s.ledger.acquired ==
    s.ledger.released + Ids(s.ledger.delivered) + (if s.front.Some? then multiset{s.front.value} else multiset{})
  }

  /** Every legal event completes without the assertion, keeps the invariant, and leaves the capture stuck exactly
      when a frame object was refused, now or earlier with no stop since. */
  lemma StepKeepsInv(p: Params, s: Wlr, e: Event)
    requires p.Valid() && Inv(s) && Legal(s, e)
    ensures Step(p, s, e).Ok? && Inv(Step(p, s, e).state)
    ensures Stuck(Step(p, s, e).state) <==> Refused(p, s, e) || (Stuck(s) && !e.Stop?)
  {
    StuckStep(p, s, e);
    hide Stuck, Refused, TimeLeft;
    match e
    case Start(immediate, clock) => StartKeeps(p, s, immediate, clock);
    case Ready(again) =>
      FinishBalances(p, s);
      if again.Some? { StartKeeps(p, FinishCapture(p, s), false, again.value); }
    case BufferDone(supply) => OfferKeeps(s, supply);
    case Fail => ReleaseFrontBalances(s);
    case Stop => ReleaseFrontBalances(s);
    case _ =>
  }

  lemma StuckStep(p: Params, s: Wlr, e: Event)
    requires p.Valid() && Inv(s) && Legal(s, e)
    ensures Step(p, s, e).Ok?
    ensures Stuck(Step(p, s, e).state) <==> Refused(p, s, e) || (Stuck(s) && !e.Stop?)
  {
    hide Balanced, TimeLeft;
  }

  lemma OfferKeeps(s: Wlr, supply: Option<BufferId>)
    requires Inv(s) && Legal(s, BufferDone(supply))
    ensures HandleBufferDone(s, supply).Ok? && Inv(HandleBufferDone(s, supply).state)
  {
    var r := HandleBufferDone(s, supply).state;
    assert s.front.None?;
    assert Balanced(r);
  }

  lemma ReleaseFrontBalances(s: Wlr)
    requires Balanced(s)
    ensures Balanced(ReleaseBuffer(s, s.front).(front := None, frontDamage := {}))
  {
  }

  lemma StartKeeps(p: Params, s: Wlr, immediate: bool, clock: Clock)
    requires p.Valid() && Steady(s)
    ensures Steady(StartWlr(p, s, immediate, clock)) && StartWlr(p, s, immediate, clock).back == s.back
  {
  }

  lemma FinishBalances(p: Params, s: Wlr)
    requires Inv(s) && s.front.Some?
    ensures Steady(FinishCapture(p, s))
  {
    var r := FinishCapture(p, s);
    var all := r.ledger.delivered;
    assert all[..|all| - 1] == s.ledger.delivered;
  }

  function Run(p: Params, s: Wlr, events: seq<Event>): (r: Outcome)
    requires p.Valid()
    decreases |events|
  {
    if events == [] then Ok(s)
    else match Step(p, s, events[0])
         case Ok(s1) => Run(p, s1, events[1..])
         case AssertFailed => AssertFailed
  }

  ghost predicate LegalRun(p: Params, s: Wlr, events: seq<Event>)
    requires p.Valid()
    decreases |events|
  {
    events != [] ==>
      && Legal(s, events[0])
      && (Step(p, s, events[0]).Ok? ==> LegalRun(p, Step(p, s, events[0]).state, events[1..]))
  }

  predicate NoStop(events: seq<Event>)
  {
    forall i | 0 <= i < |events| :: !events[i].Stop?
  }

  /** Somewhere in the run a frame object was refused, and no stop came after it. */
  ghost predicate LeftStuck(p: Params, s: Wlr, events: seq<Event>)
    requires p.Valid()
    decreases |events|
  {
    events != [] && Step(p, s, events[0]).Ok? &&
    ((Refused(p, s, events[0]) && NoStop(events[1..])) || LeftStuck(p, Step(p, s, events[0]).state, events[1..]))
  }

  /** Over every run: the assertion that front is empty at buffer_done holds, the invariant is kept, and a capture
      that is in progress has its timer armed or a frame object outstanding, unless it was left stuck. */
  lemma {:induction false} RunKeepsInv(p: Params, s: Wlr, events: seq<Event>)
    requires p.Valid() && Inv(s) && LegalRun(p, s, events)
    ensures Run(p, s, events).Ok? && Inv(Run(p, s, events).state)
    ensures Stuck(Run(p, s, events).state) <==> LeftStuck(p, s, events) || (Stuck(s) && NoStop(events))
    decreases |events|
  {
    if events != [] {
      StepKeepsInv(p, s, events[0]);
      RunKeepsInv(p, Step(p, s, events[0]).state, events[1..]);
      assert NoStop(events) <==> !events[0].Stop? && NoStop(events[1..]) by { NoStopSplit(events); }
    }
  }

  lemma NoStopSplit(events: seq<Event>)
    requires events != []
    ensures NoStop(events) <==> !events[0].Stop? && NoStop(events[1..])
  {
    if !events[0].Stop? && NoStop(events[1..]) {
      forall i | 0 <= i < |events| ensures !events[i].Stop? {
        if i > 0 { assert events[i] == events[1..][i - 1]; }
      }
    }
  }

  lemma RunsFromStart(p: Params, events: seq<Event>)
    requires p.Valid() && LegalRun(p, INITIAL, events)
    ensures Run(p, INITIAL, events).Ok? && Inv(Run(p, INITIAL, events).state)
    ensures var s := Run(p, INITIAL, events).state;
            (s.status == IN_PROGRESS <==> s.timer.Some? || s.frame.Frame?) <==> !LeftStuck(p, INITIAL, events)
  {
    assert Ids([]) == multiset{};
    RunKeepsInv(p, INITIAL, events);
  }

  /** A stuck capture stays exactly as it is, whatever happens, until a stop. */
  lemma {:induction false} StuckStays(p: Params, s: Wlr, events: seq<Event>)
    requires p.Valid() && Inv(s) && Stuck(s) && LegalRun(p, s, events) && NoStop(events)
    ensures Run(p, s, events) == Ok(s)
    decreases |events|
  {
    if events != [] {
      NoStopSplit(events);
      StuckStays(p, s, events[1..]);
    }
  }

  /** This happens: the first capture of a screen is refused its frame object. */
  lemma StuckIsReachable()
    ensures var p, events := Params(1, 1, 30), [Start(true, Clock(1000000, false))];
            && LegalRun(p, INITIAL, events) && LeftStuck(p, INITIAL, events)
            && Run(p, INITIAL, events).Ok? && Stuck(Run(p, INITIAL, events).state)
  {
    var p, events := Params(1, 1, 30), [Start(true, Clock(1000000, false))];
    assert Refused(p, INITIAL, events[0]) && events[1..] == [];
    RunsFromStart(p, events);
  }

  // ---------------------------------------------------------------------------------------------------
  // What a run delivers, told from its events

  /** The status that the events leave: the one of the last of them that decides it. */
  ghost function StatusAfter(events: seq<Event>): (r: Status)
  {
    if events == [] then STOPPED
    else match events[|events| - 1]
         case Start(_, _) => IN_PROGRESS
         case BufferDone(None) => FATAL
         case Ready(again) => if again.Some? then IN_PROGRESS else DONE
         case Fail => FAILED
         case Stop => STOPPED
         case _ => StatusAfter(events[..|events| - 1])
  }

  /** The start that led to the present capture was immediate. A start during a capture leads to nothing, and one
      that comes with a delivery is not immediate. */
  ghost predicate LedImmediately(events: seq<Event>)
  {
    events != [] &&
    var before := events[..|events| - 1];
    match events[|events| - 1]
    case Start(immediate, _) => if StatusAfter(before) == IN_PROGRESS then LedImmediately(before) else immediate
    case Ready(_) => false
    case _ => LedImmediately(before)
  }

  /** The buffer of the last buffer_done. */
  ghost function Offered(events: seq<Event>): (r: Option<BufferId>)
  {
    if events == [] then None
    else if events[|events| - 1].BufferDone? then events[|events| - 1].supply
    else Offered(events[..|events| - 1])
  }

  /** The union of the rectangles of the damage events since the last buffer_done. */
  ghost function DamageSince(events: seq<Event>): (r: Region)
  {
    if events == [] then {}
    else match events[|events| - 1]
         case BufferDone(_) => {}
         case Damage(x, y, width, height) =>
           DamageSince(events[..|events| - 1]) + Rectangle(x, y, width, height)
         case _ => DamageSince(events[..|events| - 1])
  }

  /** Each ready event delivers the buffer offered last, with the damage reported since; the whole screen is added
      exactly when the start was immediate. */
  ghost function Deliveries(p: Params, events: seq<Event>): (r: seq<Delivery>)
  {
    if events == [] then []
    else
      var before := events[..|events| - 1];
      Deliveries(p, before) +
      (if events[|events| - 1].Ready? && Offered(before).Some? then
         [Delivery(Offered(before).value,
                   DamageSince(before) + (if LedImmediately(before) then p.Full() else {}))]
       else [])
  }

  /** The buffers that the pool supplied. */
  ghost function Supplied(events: seq<Event>): (r: multiset<BufferId>)
  {
    if events == [] then multiset{}
    else
      var e := events[|events| - 1];
      Supplied(events[..|events| - 1]) +
      (if e.BufferDone? && e.supply.Some? then multiset{e.supply.value} else multiset{})
  }

  /** The state is what the events tell. */
  ghost predicate Told(p: Params, s: Wlr, events: seq<Event>)
  {
    && s.status == StatusAfter(events)
    && (s.status == IN_PROGRESS ==> (s.immediate <==> LedImmediately(events)))
    && (s.front.Some? ==> s.front == Offered(events) && s.frontDamage == DamageSince(events))
    && s.ledger.delivered == Deliveries(p, events)
    && s.ledger.acquired == Supplied(events)
  }

  /** What one event more tells. */
  lemma OneMore(p: Params, events: seq<Event>)
    requires events != []
    ensures var before, e := events[..|events| - 1], events[|events| - 1];
            && (!e.Ready? ==> Deliveries(p, events) == Deliveries(p, before))
            && (!e.BufferDone? ==> Supplied(events) == Supplied(before))
            && (e.Ready? && Offered(before).Some? ==>
                  Deliveries(p, events) == Deliveries(p, before) +
                    [Delivery(Offered(before).value,
                              if LedImmediately(before) then DamageSince(before) + p.Full() else DamageSince(before))])
  {
    hide StatusAfter, Rectangle;
    var before := events[..|events| - 1];
    assert DamageSince(before) + {} == DamageSince(before);
  }

  lemma ReadyIsTold(p: Params, s: Wlr, before: seq<Event>, again: Option<Clock>)
    requires p.Valid() && Inv(s) && Told(p, s, before) && Legal(s, Ready(again))
    ensures Told(p, Step(p, s, Ready(again)).state, before + [Ready(again)])
  {
    hide Balanced, TimeLeft, Rectangle, Deliveries, Supplied, DamageSince;
    var events := before + [Ready(again)];
    assert events[..|events| - 1] == before;
    OneMore(p, events);
  }

  lemma StartChanges(p: Params, s: Wlr, immediate: bool, clock: Clock)
    requires p.Valid()
    ensures var r := StartWlr(p, s, immediate, clock);
            && r.status == IN_PROGRESS && r.front == s.front && r.frontDamage == s.frontDamage
            && r.immediate == (if s.status == IN_PROGRESS then s.immediate else immediate)
            && r.ledger.delivered == s.ledger.delivered && r.ledger.acquired == s.ledger.acquired
  {
  }

  lemma StartIsTold(p: Params, s: Wlr, before: seq<Event>, immediate: bool, clock: Clock)
    requires p.Valid() && Told(p, s, before)
    ensures Told(p, Step(p, s, Start(immediate, clock)).state, before + [Start(immediate, clock)])
  {
    hide StartWlr, Rectangle, Deliveries, Supplied;
    StartChanges(p, s, immediate, clock);
    var events := before + [Start(immediate, clock)];
    assert events[..|events| - 1] == before;
    OneMore(p, events);
  }

  lemma OtherIsTold(p: Params, s: Wlr, before: seq<Event>, e: Event)
    requires p.Valid() && Inv(s) && Told(p, s, before) && Legal(s, e) && Step(p, s, e).Ok? && !e.Ready? && !e.Start?
    ensures Told(p, Step(p, s, e).state, before + [e])
  {
    hide Balanced, Rectangle, Deliveries, StartWlr, DeliverCapture;
    var events := before + [e];
    assert events[..|events| - 1] == before;
    OneMore(p, events);
  }

  lemma StepIsTold(p: Params, s: Wlr, before: seq<Event>, e: Event)
    requires p.Valid() && Inv(s) && Told(p, s, before) && Legal(s, e) && Step(p, s, e).Ok?
    ensures Told(p, Step(p, s, e).state, before + [e])
  {
    hide Told, Step, Inv;
    match e
    case Start(immediate, clock) => StartIsTold(p, s, before, immediate, clock);
    case Ready(again) => ReadyIsTold(p, s, before, again);
    case _ => OtherIsTold(p, s, before, e);
  }

  /** A run of one event more takes one step more. */
  lemma {:induction false} RunLast(p: Params, s: Wlr, events: seq<Event>)
    requires p.Valid() && Inv(s) && LegalRun(p, s, events) && events != []
    ensures var before, e := events[..|events| - 1], events[|events| - 1];
            && LegalRun(p, s, before) && Run(p, s, before).Ok? && Inv(Run(p, s, before).state)
            && Legal(Run(p, s, before).state, e) && Run(p, s, events) == Step(p, Run(p, s, before).state, e)
    decreases |events|
  {
    StepKeepsInv(p, s, events[0]);
    hide Step, Legal, Inv;
    var s1 := Step(p, s, events[0]).state;
    if |events| == 1 {
      assert events[1..] == [] && events[..0] == [];
      assert Run(p, s1, []) == Ok(s1);
    } else {
      RunLast(p, s1, events[1..]);
      assert events[..|events| - 1][1..] == events[1..][..|events| - 2];
    }
  }

  /** Over every legal run the deliveries, with their damage, the buffers taken from the pool and the status are
      what the events tell. */
  lemma {:induction false} DeliversExactly(p: Params, events: seq<Event>)
    requires p.Valid() && LegalRun(p, INITIAL, events)
    ensures Run(p, INITIAL, events).Ok?
    ensures var s := Run(p, INITIAL, events).state;
            && s.status == StatusAfter(events)
            && s.ledger.delivered == Deliveries(p, events)
            && s.ledger.acquired == Supplied(events)
    ensures Told(p, Run(p, INITIAL, events).state, events)
    decreases |events|
  {
    assert Ids([]) == multiset{} && Inv(INITIAL);
    if events != [] {
      RunLast(p, INITIAL, events);
      DeliversExactly(p, events[..|events| - 1]);
      RunKeepsInv(p, INITIAL, events);
      assert events == events[..|events| - 1] + [events[|events| - 1]];
      StepIsTold(p, Run(p, INITIAL, events[..|events| - 1]).state, events[..|events| - 1], events[|events| - 1]);
    }
  }

  // ---------------------------------------------------------------------------------------------------
  // Pacing

  /** Two requests are a period of twice the frame rate apart, to within one microsecond. */
  ghost predicate SpacedRequests(p: Params, earlier: int, later: int)
    requires p.Valid()
  {
    (later - earlier) as real > 1000000.0 / (2 * p.maxRate) as real - 1.0
  }

  /** Requests keep their distance, and the timer is armed for the first microsecond after which they do. */
  ghost predicate PacedRequests(p: Params, s: Wlr)
    requires p.Valid()
  {
    && (forall i | 0 < i < |s.ledger.requests| :: SpacedRequests(p, s.ledger.requests[i - 1], s.ledger.requests[i]))
    && s.lastTime == (if s.ledger.requests == [] then 0 else s.ledger.requests[|s.ledger.requests| - 1])
    && (s.timer.Some? ==>
          SpacedRequests(p, s.lastTime, s.timer.value) && !SpacedRequests(p, s.lastTime, s.timer.value - 1))
  }

  /** The step created a frame object. */
  predicate Creates(s: Wlr, e: Event, r: Wlr) { r.frame.Frame? && (s.frame.NoFrame? || e.Ready?) }

  /** The time of the event, where it has one. */
  function TimeOf(e: Event): (r: int)
  {
    match e
    case Start(_, clock) => clock.now
    case Poll(clock) => clock.now
    case Ready(again) => if again.Some? then again.value.now else 0
    case _ => 0
  }

  /** The times at which the run created frame objects. */
  ghost function Creations(p: Params, s: Wlr, events: seq<Event>): (r: seq<int>)
    requires p.Valid()
    decreases |events|
  {
    if events == [] || Step(p, s, events[0]).AssertFailed? then []
    else
      var s1 := Step(p, s, events[0]).state;
      (if Creates(s, events[0], s1) then [TimeOf(events[0])] else []) + Creations(p, s1, events[1..])
  }

  lemma StartIsPaced(p: Params, s: Wlr, immediate: bool, clock: Clock)
    requires p.Valid() && PacedRequests(p, s) && (s.status != IN_PROGRESS ==> s.timer.None? && s.frame.NoFrame?)
    ensures var r := StartWlr(p, s, immediate, clock);
            && PacedRequests(p, r)
            && r.ledger.requests == s.ledger.requests + if r.frame.Frame? && s.frame.NoFrame? then [clock.now] else []
  {
    TimeLeftIsTight(2 * p.maxRate, s.lastTime, clock.now);
    hide TimeLeft;
  }

  lemma PollIsPaced(p: Params, s: Wlr, clock: Clock)
    requires p.Valid() && Inv(s) && PacedRequests(p, s) && Legal(s, Poll(clock))
    ensures PacedRequests(p, CaptureOutput(s.(timer := None), clock))
  {
    hide Balanced;
    LaterIsSpaced(p, s.lastTime, s.timer.value, clock.now);
    hide SpacedRequests;
  }

  lemma LaterIsSpaced(p: Params, earlier: int, t: int, later: int)
    requires p.Valid() && SpacedRequests(p, earlier, t) && t <= later
    ensures SpacedRequests(p, earlier, later)
  {
  }

  lemma StepIsPaced(p: Params, s: Wlr, e: Event)
    requires p.Valid() && Inv(s) && PacedRequests(p, s) && Legal(s, e) && Step(p, s, e).Ok?
    ensures var r := Step(p, s, e).state;
            && PacedRequests(p, r)
            && r.ledger.requests == s.ledger.requests + if Creates(s, e, r) then [TimeOf(e)] else []
  {
    hide Balanced, StartWlr, SpacedRequests, Rectangle;
    match e
    case Start(immediate, clock) => StartIsPaced(p, s, immediate, clock);
    case Poll(clock) => PollIsPaced(p, s, clock);
    case Ready(again) => if again.Some? { StartIsPaced(p, FinishCapture(p, s), false, again.value); }
    case _ =>
  }

  /** Over every legal run the frame objects keep the distance of the rate limit, and no start waits longer than
      it has to. */
  lemma {:induction false} RequestsArePaced(p: Params, s: Wlr, events: seq<Event>)
    requires p.Valid() && Inv(s) && PacedRequests(p, s) && LegalRun(p, s, events)
    ensures Run(p, s, events).Ok? && PacedRequests(p, Run(p, s, events).state)
    ensures Run(p, s, events).state.ledger.requests == s.ledger.requests + Creations(p, s, events)
    ensures PacedRequests(p, INITIAL)
    decreases |events|
  {
    if events != [] {
      hide PacedRequests, Step, Legal, Inv, Creates;
      StepKeepsInv(p, s, events[0]);
      StepIsPaced(p, s, events[0]);
      RequestsArePaced(p, Step(p, s, events[0]).state, events[1..]);
    }
  }

  /** A frame copied on demand is delivered with the whole screen as damage. */
  lemma ImmediateIsWhole(p: Params, s: Wlr, again: Option<Clock>)
    requires p.Valid() && Inv(s) && Legal(s, Ready(again)) && s.immediate
    ensures var r := Step(p, s, Ready(again)).state;
            && |r.ledger.delivered| == |s.ledger.delivered| + 1
            && r.ledger.delivered[|s.ledger.delivered|].id == s.front.value
            && p.Full() <= r.ledger.delivered[|s.ledger.delivered|].damage
  {
  }
}
