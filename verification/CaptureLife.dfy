/** When a capture that was started goes on, and when it ends: over every run, told from its events. */
module CaptureLife {
  import opened Wrappers
  import opened Regions
  import opened Pacing
  import opened Capture
  import opened CaptureInvariants
  import opened CaptureStart

  /** A start waits for the constraints of the session. */
  predicate Waiting(s: State) { s.session && s.shouldStart }

  /** A frame is in flight, the capture timer is armed or a start waits. */
  predicate Capturing(s: State) { s.frame || s.timer.Some? || Waiting(s) }

  /** Or a delivered frame is still with the display, which starts the next capture when it sends it. */
  predicate Underway(s: State) { Capturing(s) || s.next.Some? }

  // ---------------------------------------------------------------------------------------------------
  // What ends a capture

  /** A start that is not immediate finds the session ready and the rate limit met. */
  predicate AtOnce(p: Params, s: State, frameCount: nat, now: int)
    requires p.Valid()
  {
    frameCount != 0 && s.haveConstraints && TimeLeft(2 * p.maxRate, s.lastTime, now) <= 0
  }

  /** The event makes the capture object ask the pool for a buffer. */
  predicate Asks(p: Params, s: State, e: Event)
    requires p.Valid()
  {
    match e
    case ConstraintsDone(accepted, _) => accepted && s.shouldStart
    case CaptureTimer(_) => true
    case Ready(_, _, env) =>
      s.next.None? && TimeLeft(p.maxRate, s.lastSend, env.now) <= 0 &&
      AtOnce(p, s, (s.frameCount + 1) % FRAME_COUNT_LIMIT, env.now)
    case Failed(constraints, env) => constraints && AtOnce(p, s, s.frameCount, env.now)
    case RateTimeout(env) => !s.frame && AtOnce(p, s, s.frameCount, env.now)
    case _ => false
  }

  /** The pool when it is asked: a failed frame gave its buffer back, a frame that is sent is referred to. */
  function PoolAt(s: State, e: Event): (r: State)
  {
    match e
    case Failed(_, _) => ReleaseOption(s, s.buffer)
    case Ready(_, _, _) => if s.buffer.Some? then s.(vncRefs := s.vncRefs + {s.buffer.value}) else s
    case RateTimeout(_) => if s.next.Some? then s.(vncRefs := s.vncRefs + {s.next.value}) else s
    case _ => s
  }

  /** The pool hands out a buffer: one of the present configuration that nobody holds, or a new one. */
  predicate Grants(p: Params, s: State, env: Env)
  {
    var r := Reconfigure(s, env.reconfigure);
    match env.supply
    case Reuse(id) =>
      id in r.buffers && !r.buffers[id].framed && id !in r.vncRefs && r.buffers[id].generation == r.generation
    case Allocate(id, pixels) => id !in r.buffers && pixels.Keys == p.Full()
    case Exhausted => false
  }

  /** The event is a stop, a failure for another reason than constraints, or finds the pool without a buffer. */
  predicate Breaks(p: Params, s: State, e: Event)
    requires p.Valid()
  {
    || e.Stop? || e.PowerOff?
    || (e.Failed? && !e.constraints)
    || (Asks(p, s, e) && !Grants(p, PoolAt(s, e), e.env))
  }

  /** Something else keeps the capture going: what the event neither stops nor uses up. */
  predicate Spare(s: State, e: Event)
  {
    match e
    case Stop(_) => s.next.Some?
    case PowerOff(_, _) => s.next.Some?
    case ConstraintsDone(_, _) => s.timer.Some? || s.next.Some?
    case CaptureTimer(_) => Waiting(s) || s.next.Some?
    case Failed(constraints, _) => (!constraints && s.timer.Some?) || Waiting(s) || s.next.Some?
    case _ => Waiting(s)
  }

  predicate Ends(p: Params, s: State, e: Event)
    requires p.Valid()
  {
    Breaks(p, s, e) && !Spare(s, e)
  }

  // ---------------------------------------------------------------------------------------------------
  // One step

  /** Everything of a capture belongs to a session. */
  ghost predicate Tied(s: State)
  {
    s.frame || s.timer.Some? || s.haveConstraints || s.frameCount != 0 ==> s.session
  }

  lemma ScheduleGrants(p: Params, s: State, env: Env)
    requires !s.frame
    ensures ScheduleCapture(p, s, env).frame <==> Grants(p, s, env)
    ensures ScheduleCapture(p, s, env).frame ==> ScheduleCapture(p, s, env).lastTime == env.now
    ensures !ScheduleCapture(p, s, env).frame ==> ScheduleCapture(p, s, env).lastTime == s.lastTime
  {
    hide Reconfigure;
  }

  /** The pool's answer depends on who holds its buffers and not on what they show. */
  lemma SameGrants(p: Params, s: State, r: State, env: Env)
    requires r.buffers.Keys == s.buffers.Keys && r.vncRefs == s.vncRefs && r.generation == s.generation
    requires forall id | id in s.buffers ::
               r.buffers[id].framed == s.buffers[id].framed && r.buffers[id].generation == s.buffers[id].generation
    ensures Grants(p, r, env) <==> Grants(p, s, env)
  {
    hide Rectangle;
    var a, b := Reconfigure(s, env.reconfigure).buffers, Reconfigure(r, env.reconfigure).buffers;
    forall id ensures id in a <==> id in b {}
    forall id | id in a ensures a[id].framed == b[id].framed && a[id].generation == b[id].generation {}
    hide Reconfigure;
  }

  /** A start that is not immediate leaves the capture going unless it asks the pool in vain. */
  lemma StartLives(p: Params, s: State, env: Env)
    requires p.Valid() && Tied(s)
    ensures var r := Start(p, s, false, env);
            && Tied(r) && r.next == s.next
            && (Capturing(r) <==>
                Waiting(s) || s.frame || !AtOnce(p, s, s.frameCount, env.now) || Grants(p, s, env))
  {
    hide Grants, ScheduleCapture, TimeLeft;
    if !s.frame && AtOnce(p, s, s.frameCount, env.now) {
      ScheduleGrants(p, s.(timer := None), env);
      SameGrants(p, s, s.(timer := None), env);
    }
  }

  lemma ImmediateLives(p: Params, s: State, env: Env)
    requires p.Valid() && Tied(s)
    ensures Tied(Start(p, s, true, env)) && Capturing(Start(p, s, true, env))
  {
    hide ReleaseOption;
  }

  /** The same when the start comes with a frame that is sent. */
  lemma SendLives(p: Params, s: State, env: Env)
    requires p.Valid() && Tied(s) && s.next.Some? && s.next.value in s.buffers
    requires s.world.viewer.Keys <= s.buffers[s.next.value].pixels.Keys
    ensures var r := SendNextFrame(p, s, env);
            && Tied(r) && r.next.None?
            && (Capturing(r) <==>
                || Waiting(s) || s.frame || !AtOnce(p, s, s.frameCount, env.now)
                || Grants(p, s.(vncRefs := s.vncRefs + {s.next.value}), env))
  {
    hide Grants, Start, Overlay, TimeLeft, Reaped;
    var fed := Feed(p, s.(next := None), s.next.value, env.now);
    StartLives(p, fed, env);
    SameGrants(p, s.(vncRefs := s.vncRefs + {s.next.value}), fed, env);
  }

  /** The ready handler changes pixels and damage, and not who holds which buffer. */
  lemma ReadyHolds(p: Params, s: State, source: Picture, pixels: Picture, env: Env)
    requires p.Valid() && Inv(p, s) && Legal(p, s, Ready(source, pixels, env))
    ensures s.buffer.Some? && s.buffer.value in s.buffers
    ensures var r := FrameReady(CompositorWrites(s, s.buffer.value, source, pixels), s.buffer.value);
            && r.buffers.Keys == s.buffers.Keys && r.world.viewer.Keys <= r.buffers[s.buffer.value].pixels.Keys
            && (forall id | id in s.buffers ::
                  r.buffers[id].framed == s.buffers[id].framed && r.buffers[id].generation == s.buffers[id].generation)
            && r == s.(frame := false, buffers := r.buffers, buffer := None, world := r.world,
                       frameCount := (s.frameCount + 1) % FRAME_COUNT_LIMIT)
            && (s.next.Some? ==> s.next.value in r.buffers)
  {
  }

  lemma ReadyLives(p: Params, s: State, source: Picture, pixels: Picture, env: Env)
    requires p.Valid() && Inv(p, s) && Tied(s) && Legal(p, s, Ready(source, pixels, env))
    ensures var e := Ready(source, pixels, env);
            Tied(Step(p, s, e).state) && (Underway(Step(p, s, e).state) <==> !Ends(p, s, e))
  {
    hide Inv, Grants, SendNextFrame, TimeLeft, Legal, Reaped, FrameReady, Spread, DamageFrame;
    ReadyHolds(p, s, source, pixels, env);
    var id := s.buffer.value;
    var s1 := FrameReady(CompositorWrites(s, id, source, pixels), id);
    var s2 := s1.(next := Some(id));
    assert s.frame by { ReadyInFlight(p, s, source, pixels, env); }
    if s.next.None? && TimeLeft(p.maxRate, s.lastSend, env.now) <= 0 {
      SendLives(p, s2, env);
      SameGrants(p, s.(vncRefs := s.vncRefs + {id}), s2.(vncRefs := s2.vncRefs + {id}), env);
    }
  }

  lemma ReadyInFlight(p: Params, s: State, source: Picture, pixels: Picture, env: Env)
    requires Legal(p, s, Ready(source, pixels, env))
    ensures s.frame
  {
  }

  lemma FailedLives(p: Params, s: State, constraints: bool, env: Env)
    requires p.Valid() && Tied(s) && Legal(p, s, Failed(constraints, env))
    ensures var e := Failed(constraints, env);
            Tied(Step(p, s, e).state) && (Underway(Step(p, s, e).state) <==> !Ends(p, s, e))
  {
    hide Grants, Start, Reaped, TimeLeft;
    var s1 := ReleaseOption(s.(frame := false), s.buffer).(buffer := None);
    StartLives(p, s1, env);
    SameGrants(p, ReleaseOption(s, s.buffer), s1, env);
  }

  lemma TimeoutLives(p: Params, s: State, env: Env)
    requires p.Valid() && Inv(p, s) && Tied(s) && Legal(p, s, RateTimeout(env))
    ensures var e := RateTimeout(env);
            Tied(Step(p, s, e).state) && (Underway(Step(p, s, e).state) <==> !Ends(p, s, e)) && Underway(s)
  {
    var s1 := s.(limiter := None);
    SendLives(p, s1, env);
    SameGrants(p, s.(vncRefs := s.vncRefs + {s.next.value}), s1.(vncRefs := s.vncRefs + {s.next.value}), env);
    hide Grants, SendNextFrame, TimeLeft, Shapes, Owned, Fresh, InSight;
  }

  lemma DoneLives(p: Params, s: State, accepted: bool, env: Env)
    requires p.Valid() && Tied(s) && Legal(p, s, ConstraintsDone(accepted, env))
    requires Step(p, s, ConstraintsDone(accepted, env)).Ok?
    ensures var e := ConstraintsDone(accepted, env);
            Tied(Step(p, s, e).state) && (Underway(Step(p, s, e).state) <==> Underway(s) && !Ends(p, s, e))
  {
    hide Reap, Acquired;
    var s1 := Reconfigure(s, env.reconfigure);
    if accepted && s.shouldStart {
      ScheduleGrants(p, s1, env.(reconfigure := false));
      assert Grants(p, s1, env.(reconfigure := false)) <==> Grants(p, s, env);
    }
  }

  lemma TimerLives(p: Params, s: State, env: Env)
    requires p.Valid() && Tied(s) && Legal(p, s, CaptureTimer(env)) && Step(p, s, CaptureTimer(env)).Ok?
    ensures var e := CaptureTimer(env);
            Tied(Step(p, s, e).state) && (Underway(Step(p, s, e).state) <==> !Ends(p, s, e))
  {
    hide Grants, ScheduleCapture;
    ScheduleGrants(p, s.(timer := None), env);
    SameGrants(p, s, s.(timer := None), env);
  }

  /** After a step the capture is underway if it was started or was underway before, and the step did not end it. */
  lemma StepLives(p: Params, s: State, e: Event)
    requires p.Valid() && Inv(p, s) && Tied(s) && Legal(p, s, e) && Step(p, s, e).Ok?
    ensures Tied(Step(p, s, e).state)
    ensures Underway(Step(p, s, e).state) <==> e.StartImmediate? || (Underway(s) && !Ends(p, s, e))
  {
    match e
    case StartImmediate(env) => ImmediateLives(p, s, env);
    case ConstraintsDone(accepted, env) => DoneLives(p, s, accepted, env);
    case CaptureTimer(env) => TimerLives(p, s, env);
    case Ready(source, pixels, env) => ReadyLives(p, s, source, pixels, env);
    case Failed(constraints, env) => FailedLives(p, s, constraints, env);
    case RateTimeout(env) => TimeoutLives(p, s, env);
    case _ => OtherLives(p, s, e);
  }

  lemma OtherLives(p: Params, s: State, e: Event)
    requires p.Valid() && Tied(s) && Legal(p, s, e)
    requires e.Stop? || e.PowerOff? || e.ConstraintsChanged? || e.Damage? || e.VncDrop?
    ensures Tied(Step(p, s, e).state) && (Underway(Step(p, s, e).state) <==> Underway(s) && !Ends(p, s, e))
  {
    hide Reaped, Rectangle;
  }

  // ---------------------------------------------------------------------------------------------------
  // Runs

  predicate NoStart(events: seq<Event>)
  {
    forall i | 0 <= i < |events| :: !events[i].StartImmediate?
  }

  /** Somewhere in the run the capture was ended, and no start came after that. */
  ghost predicate Ended(p: Params, s: State, events: seq<Event>)
    requires p.Valid()
    decreases |events|
  {
    events != [] && Step(p, s, events[0]).Ok? &&
    ((Ends(p, s, events[0]) && NoStart(events[1..])) || Ended(p, Step(p, s, events[0]).state, events[1..]))
  }

  lemma NoStartSplit(events: seq<Event>)
    requires events != []
    ensures NoStart(events) <==> !events[0].StartImmediate? && NoStart(events[1..])
  {
    if !events[0].StartImmediate? && NoStart(events[1..]) {
      forall i | 0 <= i < |events| ensures !events[i].StartImmediate? {
        if i > 0 { assert events[i] == events[1..][i - 1]; }
      }
    }
  }

  lemma {:induction false} RunLives(p: Params, s: State, events: seq<Event>)
    requires p.Valid() && Inv(p, s) && Tied(s) && LegalRun(p, s, events) && Run(p, s, events).Ok?
    ensures Underway(Run(p, s, events).state) <==> !Ended(p, s, events) && (Underway(s) || !NoStart(events))
    ensures Tied(Run(p, s, events).state)
    decreases |events|
  {
    if events != [] {
      hide Underway, Ends, Step, Legal, Inv, NoStart, Tied;
      StepKeepsInv(p, s, events[0]);
      StepLives(p, s, events[0]);
      NoStartSplit(events);
      RunLives(p, Step(p, s, events[0]).state, events[1..]);
    }
  }

  /** From the start, over every legal run that does not stop at the assertion: a frame is in flight, the capture timer
      is armed, a start waits for constraints or a frame is with the display, if and only if a capture was started and
      not ended since: by a stop, by a failure for another reason than constraints or by a pool without a buffer, with
      nothing else left to keep it going. */
  lemma CaptureGoesOn(p: Params, s: State, events: seq<Event>)
    requires p.Valid() && Init(p, s) && LegalRun(p, s, events) && Run(p, s, events).Ok?
    ensures var r := Run(p, s, events).state;
            (r.frame || r.timer.Some? || (r.session && r.shouldStart) || r.next.Some?) <==>
            (!NoStart(events) && !Ended(p, s, events))
  {
    assert Inv(p, s) && Tied(s) && !Underway(s);
    RunLives(p, s, events);
  }

  /** A stop lasts until the next start if and only if no frame is with the display: the rate limiter would send it
      and start the next capture. */
  lemma StopHoldsExactly(p: Params, s: State, junk: Picture)
    requires p.Valid() && Inv(p, s) && Tied(s) && Legal(p, s, Stop(junk))
    ensures var r := Step(p, s, Stop(junk)).state;
            (forall events | LegalRun(p, r, events) && NoStart(events) && Run(p, r, events).Ok? ::
               !Capturing(Run(p, r, events).state)) <==> s.next.None?
  {
    StepKeepsInv(p, s, Stop(junk));
    StepLives(p, s, Stop(junk));
    var r := Step(p, s, Stop(junk)).state;
    if s.next.None? {
      forall events | LegalRun(p, r, events) && NoStart(events) && Run(p, r, events).Ok?
        ensures !Capturing(Run(p, r, events).state)
      {
        RunLives(p, r, events);
      }
    } else {
      StoppedRestarts(p, s, junk);
    }
  }

  lemma StoppedRestarts(p: Params, s: State, junk: Picture)
    requires p.Valid() && Inv(p, s) && Tied(s) && Legal(p, s, Stop(junk)) && s.next.Some?
    ensures var r := Step(p, s, Stop(junk)).state;
            exists events :: LegalRun(p, r, events) && NoStart(events) && Run(p, r, events).Ok? &&
                             Capturing(Run(p, r, events).state)
  {
    StepKeepsInv(p, s, Stop(junk));
    StepLives(p, s, Stop(junk));
    var r := Step(p, s, Stop(junk)).state;
    assert r.frameCount == 0 && r.next.Some? && r.limiter.Some?;
    hide Inv, Tied, Start, ReleaseOption, Release;
    assert Inv(p, r) && Tied(r);
    var env := Env(r.limiter.value, false, Exhausted);
    TimeoutRestarts(p, r, env);
    var events := [RateTimeout(env)];
    assert events[1..] == [];
    assert Run(p, r, events) == Step(p, r, events[0]);
    assert LegalRun(p, r, events);
  }

  lemma TimeoutRestarts(p: Params, r: State, env: Env)
    requires p.Valid() && Inv(p, r) && Tied(r) && Legal(p, r, RateTimeout(env)) && r.frameCount == 0
    ensures Step(p, r, RateTimeout(env)).Ok? && Capturing(Step(p, r, RateTimeout(env)).state)
  {
    SendLives(p, r.(limiter := None), env);
    hide SendNextFrame;
  }

  // ---------------------------------------------------------------------------------------------------
  // Pacing of the captures

  /** Two captures are a period of twice the frame rate apart, to within one microsecond. */
  ghost predicate SpacedCaptures(p: Params, earlier: int, later: int)
    requires p.Valid()
  {
    (later - earlier) as real > 1000000.0 / (2 * p.maxRate) as real - 1.0
  }

  /** The timer is armed for the first microsecond that keeps the distance. */
  ghost predicate TimerPaced(p: Params, s: State)
    requires p.Valid()
  {
    s.timer.Some? ==> SpacedCaptures(p, s.lastTime, s.timer.value) && !SpacedCaptures(p, s.lastTime, s.timer.value - 1)
  }

  /** The step requested a capture. */
  predicate Requests(s: State, e: Event, r: State) { r.frame && (!s.frame || e.Ready? || e.Failed?) }

  /** The step armed the timer: a start that was not immediate had to wait. */
  predicate Arms(p: Params, s: State, e: Event)
    requires p.Valid()
  {
    match e
    case Ready(_, _, env) =>
      && s.next.None? && TimeLeft(p.maxRate, s.lastSend, env.now) <= 0 && s.haveConstraints
      && (s.frameCount + 1) % FRAME_COUNT_LIMIT != 0 && TimeLeft(2 * p.maxRate, s.lastTime, env.now) > 0
    case Failed(constraints, env) =>
      constraints && s.haveConstraints && s.frameCount != 0 && TimeLeft(2 * p.maxRate, s.lastTime, env.now) > 0
    case RateTimeout(env) =>
      !s.frame && s.haveConstraints && s.frameCount != 0 && TimeLeft(2 * p.maxRate, s.lastTime, env.now) > 0
    case _ => false
  }

  /** A capture was requested since the timer was armed. */
  predicate StaleAfter(p: Params, s: State, e: Event, stale: bool)
    requires p.Valid() && Step(p, s, e).Ok?
  {
    !Arms(p, s, e) && (stale || Requests(s, e, Step(p, s, e).state))
  }

  lemma StartIsPaced(p: Params, s: State, immediate: bool, env: Env)
    requires p.Valid()
    ensures var r := Start(p, s, immediate, env);
            && (r.frame && !s.frame ==>
                  SpacedCaptures(p, s.lastTime, env.now) && r.lastTime == env.now && r.timer.None?)
            && (r.frame == s.frame ==> r.lastTime == s.lastTime)
            && (s.frame ==> r.frame)
            && (if !s.frame && !immediate && s.frameCount != 0 && s.haveConstraints &&
                   TimeLeft(2 * p.maxRate, s.lastTime, env.now) > 0
                then TimerPaced(p, r) else r.timer == s.timer || r.timer.None?)
  {
    TimeLeftIsTight(2 * p.maxRate, s.lastTime, env.now);
    hide TimeLeft, ScheduleCapture, Grants, ReleaseOption;
    if !s.frame { ScheduleGrants(p, s.(timer := None), env); }
  }

  lemma SendIsPaced(p: Params, s: State, env: Env)
    requires p.Valid() && s.next.Some? && s.next.value in s.buffers
    ensures var r := SendNextFrame(p, s, env);
            && (r.frame && !s.frame ==>
                  SpacedCaptures(p, s.lastTime, env.now) && r.lastTime == env.now && r.timer.None?)
            && (r.frame == s.frame ==> r.lastTime == s.lastTime)
            && (s.frame ==> r.frame)
            && (if !s.frame && s.frameCount != 0 && s.haveConstraints &&
                   TimeLeft(2 * p.maxRate, s.lastTime, env.now) > 0
                then TimerPaced(p, r) else r.timer == s.timer || r.timer.None?)
  {
    hide Start, SpacedCaptures, Overlay, Reaped, TimeLeft;
    StartIsPaced(p, Feed(p, s.(next := None), s.next.value, env.now), false, env);
  }

  /** A capture is requested at the time of its event. It keeps the distance from the one before, unless it comes with
      new constraints or from a stale timer, and a timer that is not stale waits no longer than it has to. */
  ghost predicate StepPaced(p: Params, s: State, e: Event, stale: bool)
    requires p.Valid() && Step(p, s, e).Ok?
  {
    var r := Step(p, s, e).state;
    && (!StaleAfter(p, s, e, stale) ==> TimerPaced(p, r))
    && (!Requests(s, e, r) ==> r.lastTime == s.lastTime)
    && (Requests(s, e, r) ==>
          && (e.StartImmediate? || e.CaptureTimer? || e.ConstraintsDone? || e.Ready? || e.Failed? || e.RateTimeout?)
          && r.lastTime == e.env.now
          && (!e.ConstraintsDone? && !(e.CaptureTimer? && stale) ==> SpacedCaptures(p, s.lastTime, e.env.now)))
  }

  ghost predicate PacedIfFresh(p: Params, s: State, stale: bool)
    requires p.Valid()
  {
    !stale ==> TimerPaced(p, s)
  }

  lemma DeliveryIsPaced(p: Params, s: State, id: BufferId, env: Env)
    requires p.Valid() && id in s.buffers && !s.frame && (s.next.Some? ==> s.next.value in s.buffers)
    ensures var r := ProcessFrame(p, s, id, env);
            var sends := s.next.None? && TimeLeft(p.maxRate, s.lastSend, env.now) <= 0;
            && (r.frame ==> SpacedCaptures(p, s.lastTime, env.now) && r.lastTime == env.now && r.timer.None?)
            && (!r.frame ==> r.lastTime == s.lastTime)
            && (if sends && s.frameCount != 0 && s.haveConstraints &&
                   TimeLeft(2 * p.maxRate, s.lastTime, env.now) > 0
                then TimerPaced(p, r) else r.timer == s.timer || r.timer.None?)
  {
    hide SendNextFrame, TimeLeft, SpacedCaptures, Release, DamageFrame;
    SendIsPaced(p, s.(next := Some(id)), env);
  }

  lemma ReadyIsPaced(p: Params, s: State, source: Picture, pixels: Picture, env: Env, stale: bool)
    requires p.Valid() && Inv(p, s) && PacedIfFresh(p, s, stale) && Legal(p, s, Ready(source, pixels, env))
    ensures StepPaced(p, s, Ready(source, pixels, env), stale)
  {
    hide Inv, ProcessFrame, TimeLeft, Legal, FrameReady, Spread, SpacedCaptures;
    ReadyHolds(p, s, source, pixels, env);
    var id := s.buffer.value;
    DeliveryIsPaced(p, FrameReady(CompositorWrites(s, id, source, pixels), id), id, env);
  }

  lemma OtherIsPaced(p: Params, s: State, e: Event, stale: bool)
    requires p.Valid() && Inv(p, s) && PacedIfFresh(p, s, stale) && Legal(p, s, e) && Step(p, s, e).Ok?
    requires !e.Ready? && !e.CaptureTimer? && !e.ConstraintsDone?
    ensures StepPaced(p, s, e, stale)
  {
    hide Start, SendNextFrame, Reaped, Rectangle, SpacedCaptures, TimeLeft, Shapes, Fresh, InSight, Paced, AgreeOutside;
    match e
    case StartImmediate(env) => StartIsPaced(p, s, true, env);
    case Failed(constraints, env) =>
      StartIsPaced(p, ReleaseOption(s.(frame := false), s.buffer).(buffer := None), false, env);
    case RateTimeout(env) => SendIsPaced(p, s.(limiter := None), env);
    case _ =>
  }

  lemma ScheduleIsPaced(p: Params, s: State, e: Event, stale: bool)
    requires p.Valid() && PacedIfFresh(p, s, stale) && Legal(p, s, e) && Step(p, s, e).Ok?
    requires e.CaptureTimer? || e.ConstraintsDone?
    ensures StepPaced(p, s, e, stale)
  {
    hide ScheduleCapture, Grants, Reap;
    if e.CaptureTimer? {
      ScheduleGrants(p, s.(timer := None), e.env);
    } else {
      var s1 := Reconfigure(s, e.env.reconfigure);
      if !s1.frame { ScheduleGrants(p, s1, e.env.(reconfigure := false)); }
    }
  }

  lemma OneIsPaced(p: Params, s: State, e: Event, stale: bool)
    requires p.Valid() && Inv(p, s) && PacedIfFresh(p, s, stale) && Legal(p, s, e) && Step(p, s, e).Ok?
    ensures StepPaced(p, s, e, stale) && PacedIfFresh(p, Step(p, s, e).state, StaleAfter(p, s, e, stale))
  {
    hide Inv, TimerPaced, Step, Legal, Arms, Requests;
    match e
    case Ready(source, pixels, env) => ReadyIsPaced(p, s, source, pixels, env, stale);
    case CaptureTimer(_) => ScheduleIsPaced(p, s, e, stale);
    case ConstraintsDone(_, _) => ScheduleIsPaced(p, s, e, stale);
    case _ => OtherIsPaced(p, s, e, stale);
  }

  /** Whether the timer is stale after a run. */
  ghost predicate Stale(p: Params, s: State, events: seq<Event>, stale: bool)
    requires p.Valid()
    decreases |events|
  {
    if events == [] || Step(p, s, events[0]).AssertFailed? then stale
    else Stale(p, Step(p, s, events[0]).state, events[1..], StaleAfter(p, s, events[0], stale))
  }

  lemma {:induction false} RunIsPaced(p: Params, s: State, events: seq<Event>, stale: bool)
    requires p.Valid() && Inv(p, s) && PacedIfFresh(p, s, stale) && LegalRun(p, s, events) && Run(p, s, events).Ok?
    ensures Inv(p, Run(p, s, events).state) && PacedIfFresh(p, Run(p, s, events).state, Stale(p, s, events, stale))
    decreases |events|
  {
    if events != [] {
      hide Inv, PacedIfFresh, Step, Legal, StaleAfter, StepPaced;
      StepKeepsInv(p, s, events[0]);
      OneIsPaced(p, s, events[0], stale);
      RunIsPaced(p, Step(p, s, events[0]).state, events[1..], StaleAfter(p, s, events[0], stale));
    }
  }

  /** From the start, in every state that a legal run reaches, and for every event there: a capture is requested at the
      time of its event, and keeps the distance from the one before unless it comes with new constraints or from a timer
      that was armed before another capture; the timer waits no longer than it has to. */
  lemma CapturesArePaced(p: Params, s: State, events: seq<Event>, e: Event)
    requires p.Valid() && Init(p, s) && LegalRun(p, s, events) && Run(p, s, events).Ok?
    ensures var r, stale := Run(p, s, events).state, Stale(p, s, events, false);
            && (!stale ==> TimerPaced(p, r))
            && (Legal(p, r, e) && Step(p, r, e).Ok? ==> StepPaced(p, r, e, stale))
  {
    assert Inv(p, s) && PacedIfFresh(p, s, false);
    hide Inv, TimerPaced, Step, Legal, Init, StepPaced, Run, LegalRun, Stale;
    RunIsPaced(p, s, events, false);
    var r := Run(p, s, events).state;
    if Legal(p, r, e) && Step(p, r, e).Ok? { OneIsPaced(p, r, e, Stale(p, s, events, false)); }
  }

  lemma SafeStep(p: Params, s: State, e: Event, stale: bool)
    requires p.Valid() && Inv(p, s) && Machine(s) && Legal(p, s, e) && StartGuard(s, e) && Step(p, s, e).Ok?
    requires s.timer.Some? ==> !stale
    ensures Step(p, s, e).state.timer.Some? ==> !StaleAfter(p, s, e, stale)
  {
    StepKeepsMachine(p, s, e);
    var r := Step(p, s, e).state;
    if r.timer.Some? {
      assert !r.frame;
      if s.timer.None? { OnlyStartsArm(p, s, e); }
    }
  }

  /** Nothing but a start arms the timer. */
  lemma OnlyStartsArm(p: Params, s: State, e: Event)
    requires p.Valid() && Inv(p, s) && Legal(p, s, e) && Step(p, s, e).Ok?
    requires s.timer.None? && Step(p, s, e).state.timer.Some?
    ensures Arms(p, s, e)
  {
    hide Start, SendNextFrame, ProcessFrame, Reaped, Rectangle, SpacedCaptures, TimeLeft, Shapes, Fresh, InSight, Paced,
         AgreeOutside, FrameReady, Spread;
    match e
    case StartImmediate(env) => StartIsPaced(p, s, true, env);
    case Failed(constraints, env) =>
      StartIsPaced(p, ReleaseOption(s.(frame := false), s.buffer).(buffer := None), false, env);
    case RateTimeout(env) => SendIsPaced(p, s.(limiter := None), env);
    case Ready(source, pixels, env) =>
      ReadyHolds(p, s, source, pixels, env);
      DeliveryIsPaced(p, FrameReady(CompositorWrites(s, s.buffer.value, source, pixels), s.buffer.value),
                        s.buffer.value, env);
    case _ =>
  }

  /** In a run that calls start only where it is safe, an armed timer is never stale. */
  lemma {:induction false} SafeStartsArePaced(p: Params, s: State, events: seq<Event>, stale: bool)
    requires p.Valid() && Inv(p, s) && Machine(s) && GuardedRun(p, s, events) && (s.timer.Some? ==> !stale)
    ensures Run(p, s, events).Ok? && (Run(p, s, events).state.timer.Some? ==> !Stale(p, s, events, stale))
    decreases |events|
  {
    if events != [] {
      hide Inv, Machine, Step, Legal, StartGuard, StaleAfter;
      StepKeepsMachine(p, s, events[0]);
      StepKeepsInv(p, s, events[0]);
      SafeStep(p, s, events[0], stale);
      SafeStartsArePaced(p, Step(p, s, events[0]).state, events[1..], StaleAfter(p, s, events[0], stale));
    }
  }
}
