/** The session of a capture, told from the events: when it is opened, what it is known to have sent, and that the
first frame after an immediate start is a whole one. */
module CaptureSession {
  import opened Wrappers
  import opened Regions
  import opened Pacing
  import opened Capture
  import opened CaptureInvariants
  import opened CaptureLife

  // ---------------------------------------------------------------------------------------------------
  // Told from the events

  /** The frame is sent as soon as it is ready. */
  predicate SendsAtOnce(p: Params, s: State, now: int)
    requires p.Valid()
  {
    s.next.None? && TimeLeft(p.maxRate, s.lastSend, now) <= 0
  }

  /** The event closes the session, if there is one, and opens a new one: a start does that if it is immediate or the
      first since a stop, unless a frame is in flight. */
  predicate Opens(p: Params, s: State, e: Event)
    requires p.Valid()
  {
    match e
    case StartImmediate(_) => !s.frame
    case Ready(_, _, env) => SendsAtOnce(p, s, env.now) && (s.frameCount + 1) % FRAME_COUNT_LIMIT == 0
    case Failed(constraints, _) => constraints && s.frameCount == 0
    case RateTimeout(_) => !s.frame && s.frameCount == 0
    case _ => false
  }

  /** `known`: the constraints of the session are known; `delivered`: it has delivered a frame; `frames`: how many
      frames were delivered since the last stop. */
  datatype Told = Told(session: bool, known: bool, delivered: bool, frames: nat)

  const CLOSED := Told(false, false, false, 0)

  function After(p: Params, s: State, e: Event, t: Told): (r: Told)
    requires p.Valid()
  {
    if e.Stop? || e.PowerOff? then CLOSED
    else
      var frames := if e.Ready? then t.frames + 1 else t.frames;
      if Opens(p, s, e) then Told(true, false, false, frames)
      else match e
           case ConstraintsChanged => t.(known := false)
           case ConstraintsDone(accepted, _) => t.(known := accepted || t.known)
           case Ready(_, _, _) => t.(delivered := true, frames := frames)
           case _ => t
  }

  /** The state is as told, and a start waits only for constraints that are not known. */
  ghost predicate AsTold(s: State, t: Told)
  {
    && s.session == t.session && s.haveConstraints == t.known && s.world.delivered == t.delivered
    && s.frameCount == t.frames % FRAME_COUNT_LIMIT
    && (s.shouldStart ==> !s.haveConstraints)
  }

  // ---------------------------------------------------------------------------------------------------
  // One step

  /** The part of the state that this is about, and how a start changes it. */
  ghost predicate Opened(s: State, r: State, opens: bool)
  {
    && r.session == (s.session || opens) && r.haveConstraints == (s.haveConstraints && !opens)
    && r.world.delivered == (s.world.delivered && !opens) && r.frameCount == s.frameCount
    && ((s.shouldStart ==> !s.haveConstraints) ==> (r.shouldStart ==> !r.haveConstraints))
  }

  lemma StartOpens(p: Params, s: State, immediate: bool, env: Env)
    requires p.Valid()
    ensures Opened(s, Start(p, s, immediate, env), !s.frame && (immediate || s.frameCount == 0))
  {
    hide ScheduleCapture, ReleaseOption, TimeLeft;
  }

  lemma SendOpens(p: Params, s: State, env: Env)
    requires p.Valid() && s.next.Some? && s.next.value in s.buffers
    ensures Opened(s, SendNextFrame(p, s, env), !s.frame && s.frameCount == 0)
  {
    hide Start, Release, Overlay;
    StartOpens(p, Feed(p, s.(next := None), s.next.value, env.now), false, env);
  }

  lemma CountWraps(n: nat)
    ensures (n % FRAME_COUNT_LIMIT + 1) % FRAME_COUNT_LIMIT == (n + 1) % FRAME_COUNT_LIMIT
  {
  }

  lemma ProcessOpens(p: Params, s: State, id: BufferId, env: Env)
    requires p.Valid() && id in s.buffers && !s.frame && (s.next.Some? ==> s.next.value in s.buffers)
    ensures Opened(s, ProcessFrame(p, s, id, env), SendsAtOnce(p, s, env.now) && s.frameCount == 0)
  {
    hide SendNextFrame, TimeLeft, Release, DamageFrame;
    if SendsAtOnce(p, s, env.now) { SendOpens(p, s.(next := Some(id)), env); }
  }

  lemma ReadyIsTold(p: Params, s: State, source: Picture, pixels: Picture, env: Env, t: Told)
    requires p.Valid() && Inv(p, s) && Legal(p, s, Ready(source, pixels, env)) && AsTold(s, t)
    ensures var e := Ready(source, pixels, env); AsTold(Step(p, s, e).state, After(p, s, e, t))
  {
    hide Inv, ProcessFrame, TimeLeft, Legal, FrameReady, Spread;
    ReadyHolds(p, s, source, pixels, env);
    var id := s.buffer.value;
    var s1 := FrameReady(CompositorWrites(s, id, source, pixels), id);
    ReadyDelivers(s, source, pixels);
    ProcessOpens(p, s1, id, env);
    CountWraps(t.frames);
  }

  lemma ReadyDelivers(s: State, source: Picture, pixels: Picture)
    requires s.buffer.Some? && s.buffer.value in s.buffers
    ensures var r := FrameReady(CompositorWrites(s, s.buffer.value, source, pixels), s.buffer.value);
            r.world.delivered && r.next == s.next
  {
  }

  lemma StepIsTold(p: Params, s: State, e: Event, t: Told)
    requires p.Valid() && Inv(p, s) && Legal(p, s, e) && Step(p, s, e).Ok? && AsTold(s, t)
    ensures AsTold(Step(p, s, e).state, After(p, s, e, t))
  {
    match e
    case Ready(source, pixels, env) => ReadyIsTold(p, s, source, pixels, env, t);
    case RateTimeout(env) => TimeoutIsTold(p, s, env, t);
    case _ => OtherIsTold(p, s, e, t);
  }

  lemma TimeoutIsTold(p: Params, s: State, env: Env, t: Told)
    requires p.Valid() && Inv(p, s) && Legal(p, s, RateTimeout(env)) && AsTold(s, t)
    ensures var e := RateTimeout(env); AsTold(Step(p, s, e).state, After(p, s, e, t))
  {
    SendOpens(p, s.(limiter := None), env);
    hide SendNextFrame, Shapes, Owned, Fresh, InSight;
  }

  lemma OtherIsTold(p: Params, s: State, e: Event, t: Told)
    requires p.Valid() && Step(p, s, e).Ok? && AsTold(s, t) && !e.Ready? && !e.RateTimeout? && Legal(p, s, e)
    ensures AsTold(Step(p, s, e).state, After(p, s, e, t))
  {
    hide Start, ScheduleCapture, ReleaseOption, Rectangle, Reaped;
    match e
    case StartImmediate(env) => StartOpens(p, s, true, env);
    case Failed(constraints, env) =>
      StartOpens(p, ReleaseOption(s.(frame := false), s.buffer).(buffer := None), false, env);
    case _ =>
  }

  // ---------------------------------------------------------------------------------------------------
  // Runs

  ghost function AfterAll(p: Params, s: State, events: seq<Event>, t: Told): (r: Told)
    requires p.Valid()
    decreases |events|
  {
    if events == [] || Step(p, s, events[0]).AssertFailed? then t
    else AfterAll(p, Step(p, s, events[0]).state, events[1..], After(p, s, events[0], t))
  }

  lemma {:induction false} RunIsTold(p: Params, s: State, events: seq<Event>, t: Told)
    requires p.Valid() && Inv(p, s) && LegalRun(p, s, events) && Run(p, s, events).Ok? && AsTold(s, t)
    ensures AsTold(Run(p, s, events).state, AfterAll(p, s, events, t))
    decreases |events|
  {
    if events != [] {
      hide Inv, Legal, Step, AsTold, After;
      StepKeepsInv(p, s, events[0]);
      StepIsTold(p, s, events[0], t);
      RunIsTold(p, Step(p, s, events[0]).state, events[1..], After(p, s, events[0], t));
    }
  }

  /** From the start, over every legal run that does not stop at the assertion: whether there is a session, whether its
      constraints are known, whether it has delivered a frame and the number of frames are what the events tell; a
      start waits only while the constraints are not known. */
  lemma SessionIsTold(p: Params, s: State, events: seq<Event>)
    requires p.Valid() && Init(p, s) && LegalRun(p, s, events) && Run(p, s, events).Ok?
    ensures var r, t := Run(p, s, events).state, AfterAll(p, s, events, CLOSED);
            && r.session == t.session && r.haveConstraints == t.known && r.world.delivered == t.delivered
            && r.frameCount == t.frames % FRAME_COUNT_LIMIT
            && (r.shouldStart ==> !t.known)
  {
    assert Inv(p, s) && AsTold(s, CLOSED);
    RunIsTold(p, s, events, CLOSED);
  }

  predicate NoReady(events: seq<Event>)
  {
    forall i | 0 <= i < |events| :: !events[i].Ready?
  }

  lemma NotDelivered(p: Params, s: State, e: Event)
    requires p.Valid() && Inv(p, s) && Legal(p, s, e) && Step(p, s, e).Ok? && !s.world.delivered && !e.Ready?
    ensures !Step(p, s, e).state.world.delivered
  {
    hide Start, ScheduleCapture, ReleaseOption, Rectangle, Reaped, SendNextFrame, Overlay;
    match e
    case StartImmediate(env) => StartOpens(p, s, true, env);
    case Failed(constraints, env) =>
      StartOpens(p, ReleaseOption(s.(frame := false), s.buffer).(buffer := None), false, env);
    case RateTimeout(env) => SendOpens(p, s.(limiter := None), env);
    case _ =>
  }

  lemma {:induction false} StillNotDelivered(p: Params, s: State, events: seq<Event>)
    requires p.Valid() && Inv(p, s) && LegalRun(p, s, events) && Run(p, s, events).Ok?
    requires !s.world.delivered && NoReady(events)
    ensures Inv(p, Run(p, s, events).state) && !Run(p, s, events).state.world.delivered
    decreases |events|
  {
    if events != [] {
      hide Inv, Legal, Step;
      StepKeepsInv(p, s, events[0]);
      NotDelivered(p, s, events[0]);
      StillNotDelivered(p, Step(p, s, events[0]).state, events[1..]);
    }
  }

  /** The first frame after an immediate start that found no frame in flight is damaged all over, whatever happens in
      between. */
  lemma ImmediateFrameIsWhole(p: Params, s: State, start: Env, events: seq<Event>, ready: Event)
    requires p.Valid() && Inv(p, s) && !s.frame && NoReady(events) && ready.Ready?
    requires var s1 := Start(p, s, true, start);
             LegalRun(p, s1, events) && Run(p, s1, events).Ok? && Legal(p, Run(p, s1, events).state, ready)
    ensures var r := Run(p, Start(p, s, true, start), events).state;
            r.buffer.Some? && r.buffer.value in r.buffers && p.Full() <= r.buffers[r.buffer.value].frameDamage
  {
    hide Start, Run, LegalRun;
    StepKeepsInv(p, s, StartImmediate(start));
    StartOpens(p, s, true, start);
    StillNotDelivered(p, Start(p, s, true, start), events);
  }

  // ---------------------------------------------------------------------------------------------------
  // The rate limiter waits no longer than it has to

  ghost predicate LimiterTight(p: Params, s: State)
    requires p.Valid()
  {
    s.limiter.Some? ==>
      SpacedFeeds(p, s.lastSend, s.limiter.value) && !SpacedFeeds(p, s.lastSend, s.limiter.value - 1)
  }

  lemma StartKeepsLimiter(p: Params, s: State, immediate: bool, env: Env)
    requires p.Valid()
    ensures Start(p, s, immediate, env).limiter == s.limiter && Start(p, s, immediate, env).lastSend == s.lastSend
  {
    hide ScheduleCapture, ReleaseOption, TimeLeft;
  }

  lemma ProcessIsTight(p: Params, s: State, id: BufferId, env: Env)
    requires p.Valid() && id in s.buffers && LimiterTight(p, s) && (s.next.Some? <==> s.limiter.Some?)
    requires s.next.Some? ==> s.next.value in s.buffers
    ensures LimiterTight(p, ProcessFrame(p, s, id, env))
  {
    TimeLeftIsTight(p.maxRate, s.lastSend, env.now);
    hide TimeLeft, Release, Start, Overlay, DamageFrame;
    StartKeepsLimiter(p, Feed(p, s.(next := None), id, env.now), false, env);
    assert s.(next := Some(id)).(next := None) == s.(next := None);
  }

  lemma ReadyIsTight(p: Params, s: State, source: Picture, pixels: Picture, env: Env)
    requires p.Valid() && Inv(p, s) && Legal(p, s, Ready(source, pixels, env)) && LimiterTight(p, s)
    ensures LimiterTight(p, Step(p, s, Ready(source, pixels, env)).state)
  {
    assert s.next.Some? <==> s.limiter.Some?;
    hide Inv, ProcessFrame, Legal, FrameReady, Spread, SpacedFeeds;
    ReadyHolds(p, s, source, pixels, env);
    var id := s.buffer.value;
    ProcessIsTight(p, FrameReady(CompositorWrites(s, id, source, pixels), id), id, env);
  }

  lemma OtherIsTight(p: Params, s: State, e: Event)
    requires p.Valid() && Legal(p, s, e) && LimiterTight(p, s) && Step(p, s, e).Ok? && !e.Ready?
    ensures LimiterTight(p, Step(p, s, e).state)
  {
    hide Start, ScheduleCapture, ReleaseOption, Rectangle, Reaped, Overlay, SpacedFeeds;
    match e
    case StartImmediate(env) => StartKeepsLimiter(p, s, true, env);
    case Failed(constraints, env) =>
      StartKeepsLimiter(p, ReleaseOption(s.(frame := false), s.buffer).(buffer := None), false, env);
    case RateTimeout(env) =>
      if s.next.Some? && s.next.value in s.buffers {
        var s1 := s.(limiter := None, next := None);
        StartKeepsLimiter(p, Feed(p, s1, s.next.value, env.now), false, env);
        assert s.(limiter := None).(next := None) == s1;
      }
    case _ =>
  }

  /** From the start, over every legal run that does not stop at the assertion: the rate limiter is armed for the first
      microsecond at which the next feed keeps its distance. */
  lemma {:induction false} LimiterIsTight(p: Params, s: State, events: seq<Event>)
    requires p.Valid() && Inv(p, s) && LimiterTight(p, s) && LegalRun(p, s, events) && Run(p, s, events).Ok?
    ensures LimiterTight(p, Run(p, s, events).state)
    decreases |events|
  {
    if events != [] {
      hide Inv, Legal, Step, LimiterTight;
      StepKeepsInv(p, s, events[0]);
      if events[0].Ready? {
        ReadyIsTight(p, s, events[0].source, events[0].pixels, events[0].env);
      } else {
        OtherIsTight(p, s, events[0]);
      }
      LimiterIsTight(p, Step(p, s, events[0]).state, events[1..]);
    }
  }
}
