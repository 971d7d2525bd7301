/** When the assertion in schedule_capture can be reached, and when it cannot. */
module CaptureStart {
  import opened Wrappers
  import opened Regions
  import opened Pacing
  import opened Capture
  import opened CaptureInvariants

  /** The control states from which the assertion is out of reach. */
  ghost predicate Machine(s: State)
  {
    && (s.frame ==> s.session && !s.shouldStart && s.timer.None?)
    && (s.timer.Some? ==> s.session && !s.shouldStart && s.frameCount != 0)
    && (s.shouldStart ==> !s.haveConstraints)
    && (s.haveConstraints ==> s.session)
  }

  /** When a call of start is safe: not while the capture timer is armed, unless start will take the path
      that re-arms or stops that timer. RateTimeout calls start through wayvnc_display_send_next_frame. */
  predicate StartGuard(s: State, e: Event)
  {
    match e
    case StartImmediate(_) => s.timer.None? || s.frame
    case RateTimeout(_) => s.timer.None? || s.frame || s.haveConstraints
    case _ => true
  }

  lemma StartKeepsMachine(p: Params, s: State, immediate: bool, env: Env)
    requires p.Valid() && Machine(s)
    requires s.timer.None? || s.frame || (!immediate && s.haveConstraints)
    ensures Machine(Start(p, s, immediate, env))
  {
  }

  lemma SendKeepsMachine(p: Params, s: State, env: Env)
    requires p.Valid() && Machine(s) && (s.timer.None? || s.frame || s.haveConstraints)
    ensures Machine(SendNextFrame(p, s, env))
  {
    if s.next.Some? && s.next.value in s.buffers {
      StartKeepsMachine(p, Feed(p, s.(next := None), s.next.value, env.now), false, env);
      hide Start, Overlay;
    }
  }

  lemma StepKeepsMachine(p: Params, s: State, e: Event)
    requires p.Valid() && Inv(p, s) && Machine(s) && Legal(p, s, e) && StartGuard(s, e)
    ensures Step(p, s, e).Ok? && Machine(Step(p, s, e).state)
  {
    hide Inv, Start, SendNextFrame, Overlay, DamageAll, Reaped, Rectangle;
    match e
    case StartImmediate(env) => StartKeepsMachine(p, s, true, env);
    case Failed(constraints, env) =>
      StartKeepsMachine(p, ReleaseOption(s.(frame := false), s.buffer).(buffer := None), false, env);
    case RateTimeout(env) => SendKeepsMachine(p, s.(limiter := None), env);
    case Ready(source, pixels, env) =>
      if s.buffer.Some? && s.buffer.value in s.buffers {
        var s1 := FrameReady(CompositorWrites(s, s.buffer.value, source, pixels), s.buffer.value);
        SendKeepsMachine(p, s1.(next := Some(s.buffer.value)), env);
      }
    case _ =>
  }

  /** Every event of the run is legal where it occurs, and start is called only where it is safe. */
  ghost predicate GuardedRun(p: Params, s: State, events: seq<Event>)
    requires p.Valid()
    decreases |events|
  {
    events != [] ==>
      && Legal(p, s, events[0]) && StartGuard(s, events[0])
      && (Step(p, s, events[0]).Ok? ==> GuardedRun(p, Step(p, s, events[0]).state, events[1..]))
  }

  /** With the guard the assertion is never reached. */
  lemma {:induction false} GuardedRunCompletes(p: Params, s: State, events: seq<Event>)
    requires p.Valid() && Inv(p, s) && Machine(s) && GuardedRun(p, s, events)
    ensures Run(p, s, events).Ok? && LegalRun(p, s, events)
    decreases |events|
  {
    if events != [] {
      StepKeepsMachine(p, s, events[0]);
      StepKeepsInv(p, s, events[0]);
      GuardedRunCompletes(p, Step(p, s, events[0]).state, events[1..]);
    }
  }

  lemma UnusedId(s: State) returns (id: BufferId)
    ensures id !in s.buffers
  {
    id := LargestPlusOne(s.buffers.Keys);
  }

  lemma {:induction false} LargestPlusOne(ids: set<BufferId>) returns (bound: BufferId)
    ensures forall id | id in ids :: id < bound
    decreases |ids|
  {
    bound := 0;
    if ids != {} {
      var id :| id in ids;
      var rest := LargestPlusOne(ids - {id});
      assert ids == (ids - {id}) + {id};
      bound := if id < rest then rest else id + 1;
    }
  }

  /** From a state with an armed capture timer and a start waiting for constraints, two ordinary events
      reach the failing assertion in schedule_capture. */
  lemma ArmedStartFails(p: Params, s: State) returns (events: seq<Event>)
    requires p.Valid() && s.session && s.timer.Some? && s.shouldStart && !s.frame
    ensures GuardedRun(p, s, events) && Run(p, s, events) == AssertFailed
  {
    var id := UnusedId(s);
    var fill: Picture := map q | q in p.Full() :: 0;
    var env := Env(s.timer.value, false, Allocate(id, fill));
    events := [CaptureTimer(env), ConstraintsDone(true, env)];
    var s1 := Step(p, s, events[0]).state;
    assert s1.frame && s1.shouldStart && s1.session;
    assert events[1..] == [ConstraintsDone(true, env)];
    assert Step(p, s1, events[1]) == AssertFailed;
    assert GuardedRun(p, s1, events[1..]);
    assert Run(p, s1, events[1..]) == AssertFailed;
  }

  /** After `e` no continuation that respects the guard stops at the assertion. */
  ghost predicate SafeAfter(p: Params, s: State, e: Event)
    requires p.Valid()
  {
    Step(p, s, e).Ok? &&
    forall events | GuardedRun(p, Step(p, s, e).state, events) :: Run(p, Step(p, s, e).state, events).Ok?
  }

  /** StartGuard is exactly the condition under which the assertion stays out of reach. */
  lemma StartGuardIsExact(p: Params, s: State, e: Event)
    requires p.Valid() && Inv(p, s) && Machine(s) && Legal(p, s, e)
    ensures SafeAfter(p, s, e) <==> StartGuard(s, e)
  {
    if StartGuard(s, e) {
      StepKeepsMachine(p, s, e);
      StepKeepsInv(p, s, e);
      var s1 := Step(p, s, e).state;
      forall events | GuardedRun(p, s1, events) ensures Run(p, s1, events).Ok? {
        GuardedRunCompletes(p, s1, events);
      }
    } else {
      UnguardedStart(p, s, e);
      var events := ArmedStartFails(p, Step(p, s, e).state);
    }
  }

  lemma UnguardedStart(p: Params, s: State, e: Event)
    requires p.Valid() && Inv(p, s) && Machine(s) && Legal(p, s, e) && !StartGuard(s, e)
    ensures var r := Step(p, s, e);
            r.Ok? && r.state.session && r.state.timer.Some? && r.state.shouldStart && !r.state.frame
  {
  }

  /** From the start, a run that calls start only where it is safe completes, and is one of those that the other
      results speak about. */
  lemma GuardedFromStart(p: Params, s: State, events: seq<Event>)
    requires p.Valid() && Init(p, s) && GuardedRun(p, s, events)
    ensures LegalRun(p, s, events) && Run(p, s, events).Ok?
  {
    assert Inv(p, s) && Machine(s);
    GuardedRunCompletes(p, s, events);
  }
}
