/** Both exceptions do occur: runs of a screen of one pixel at 30 frames a second, from the initial state. */
module CaptureWitness {
  import opened Wrappers
  import opened Regions
  import opened Pacing
  import opened Capture
  import opened CaptureInvariants
  import opened CaptureStart
  import opened CaptureView
  import opened CaptureLife

  const SCREEN := Params(1, 1, 30)
  const BLACK: Picture := map[(0, 0) := 0]
  const WHITE: Picture := map[(0, 0) := 1]

  const START := State(map[], 0, {}, false, false, None, false, false, 0, None, 0, None, None, 0,
                       World({}, {}, false, map[], map[], WHITE, None, []))

  function Now(now: int): Env { Env(now, false, Exhausted) }

  function NewBuffer(now: int, id: BufferId): Env { Env(now, false, Allocate(id, BLACK)) }

  const SECOND := 1000000

  /** A session is opened, and its first frame is captured and sent. */
  const FIRST_FRAME := [
    StartImmediate(Now(SECOND)),
    ConstraintsDone(true, NewBuffer(SECOND, 0)),
    Damage(0, 0, 1, 1),
    Ready(BLACK, BLACK, Now(SECOND + 1))]

  lemma OnePixel()
    ensures SCREEN.Full() == {(0, 0)} == BLACK.Keys == WHITE.Keys && Rectangle(0, 0, 1, 1) == {(0, 0)}
  {
    var full := Rectangle(0, 0, 1, 1);
    forall q: Pixel ensures q in full <==> q in {(0, 0)} { assert q == (q.0, q.1); }
  }

  lemma Times()
    ensures TimeLeft(30, 0, SECOND + 1) <= 0 && TimeLeft(60, SECOND, SECOND + 1) == 16665
    ensures TimeLeft(30, SECOND + 1, SECOND + 20000) == 13334
  {
  }

  lemma Prepend(p: Params, s: State, e: Event, events: seq<Event>)
    requires p.Valid() && Legal(p, s, e) && Step(p, s, e).Ok? && LegalRun(p, Step(p, s, e).state, events)
    ensures LegalRun(p, s, [e] + events) && Run(p, s, [e] + events) == Run(p, Step(p, s, e).state, events)
    ensures Tarnished(p, s, [e] + events) <==>
            || (e.PowerOff? && s.next.Some? && Spoils(p, Step(p, s, e).state, e.blank, events))
            || Tarnished(p, Step(p, s, e).state, events)
  {
    assert ([e] + events)[1..] == events;
  }

  function After(s: State, e: Event): State
  {
    var r := Step(SCREEN, s, e); if r.Ok? then r.state else s
  }

  const S1 := After(START, FIRST_FRAME[0])
  const S2 := After(S1, FIRST_FRAME[1])
  const S3 := After(S2, FIRST_FRAME[2])
  const S4 := After(S3, FIRST_FRAME[3])

  /** What the later steps depend on. */
  predicate Captures(s: State, id: BufferId, damage: Region)
  {
    && s.session && s.haveConstraints && !s.shouldStart && s.frame && s.buffer == Some(id) && s.timer.None?
    && s.next.None? && s.limiter.None? && s.generation == 0
    && id in s.buffers && s.buffers[id] == Buffer(BLACK, {(0, 0)}, damage, true, 0)
    && s.world.requested == {(0, 0)} && s.world.announced == damage && s.world.viewer.Keys == {(0, 0)}
  }

  lemma StepOne()
    ensures Legal(SCREEN, START, FIRST_FRAME[0]) && Step(SCREEN, START, FIRST_FRAME[0]) == Ok(S1)
    ensures S1 == START.(session := true, shouldStart := true)
  {
  }

  lemma StepTwo()
    ensures Legal(SCREEN, S1, FIRST_FRAME[1]) && Step(SCREEN, S1, FIRST_FRAME[1]) == Ok(S2)
    ensures Captures(S2, 0, {}) && S2.lastTime == SECOND && S2.lastSend == 0 && S2.frameCount == 0
    ensures S2.buffers.Keys == {0} && S2.vncRefs == {} && !S2.world.delivered && S2.world.feeds == []
  {
    StepOne();
    OnePixel();
  }

  lemma StepThree()
    ensures Legal(SCREEN, S2, FIRST_FRAME[2]) && Step(SCREEN, S2, FIRST_FRAME[2]) == Ok(S3)
    ensures Captures(S3, 0, {(0, 0)}) && S3.lastTime == SECOND && S3.lastSend == 0 && S3.frameCount == 0
    ensures S3.buffers.Keys == {0} && S3.vncRefs == {} && !S3.world.delivered && S3.world.feeds == []
  {
    StepTwo();
    OnePixel();
  }

  /** The state in which the first frame reaches wayvnc_process_frame. */
  const F4 := FrameReady(CompositorWrites(S3, 0, BLACK, BLACK), 0)

  lemma Arrives()
    ensures Legal(SCREEN, S3, FIRST_FRAME[3])
    ensures F4.session && F4.haveConstraints && !F4.shouldStart && !F4.frame && F4.buffer.None? && F4.timer.None?
    ensures F4.next.None? && F4.limiter.None? && F4.frameCount == 1 && F4.lastTime == SECOND && F4.lastSend == 0
    ensures F4.buffers == map[0 := Buffer(BLACK, {}, {(0, 0)}, true, 0)] && F4.generation == 0
    ensures F4.world.delivered && F4.world.last == BLACK && F4.world.viewer.Keys == {(0, 0)}
    ensures 0 in F4.world.sources && F4.world.sources[0] == BLACK
  {
    StepThree();
    OnePixel();
  }

  /** Sending the only frame of a delivering session leaves the next capture to the timer. */
  lemma Sends(s: State, env: Env)
    requires s.session && s.haveConstraints && !s.shouldStart && !s.frame && s.buffer.None? && s.timer.None?
    requires s.next == Some(0) && s.frameCount == 1 && s.lastTime == SECOND && env.now == SECOND + 1
    requires s.buffers == map[0 := Buffer(BLACK, {}, {(0, 0)}, true, 0)] && s.generation == 0
    requires s.world.viewer.Keys == {(0, 0)}
    ensures var r := SendNextFrame(SCREEN, s, env);
            && r == s.(next := None, timer := Some(SECOND + 16666), lastSend := env.now, vncRefs := s.vncRefs + {0},
                       buffers := r.buffers, world := r.world)
            && r.buffers == map[0 := Buffer(BLACK, {}, {}, false, 0)]
            && r.world == s.world.(viewer := r.world.viewer, shown := r.world.shown, feeds := r.world.feeds)
  {
    Times();
    hide Overlay, Rectangle, TimeLeft;
    var s1 := Feed(SCREEN, s.(next := None), 0, env.now);
    assert s1 == s.(next := None, vncRefs := s.vncRefs + {0}, world := s1.world);
    var s2 := Start(SCREEN, s1, false, env);
    assert s2 == s1.(timer := Some(SECOND + 16666));
  }

  lemma StepFour()
    ensures Legal(SCREEN, S3, FIRST_FRAME[3]) && Step(SCREEN, S3, FIRST_FRAME[3]) == Ok(S4)
    ensures S4.session && S4.haveConstraints && !S4.shouldStart && !S4.frame && S4.buffer.None? && S4.frameCount == 1
    ensures S4.timer == Some(SECOND + 16666) && S4.next.None? && S4.limiter.None? && S4.lastSend == SECOND + 1
    ensures S4.buffers == map[0 := Buffer(BLACK, {}, {}, false, 0)] && S4.generation == 0
    ensures S4.world.delivered && S4.world.last == BLACK && S4.world.viewer.Keys == {(0, 0)}
  {
    StepThree();
    Arrives();
    Times();
    hide FrameReady, CompositorWrites, SendNextFrame, TimeLeft, Legal, Overlay, Rectangle;
    var env := Now(SECOND + 1);
    Sends(F4.(next := Some(0)), env);
    assert Step(SCREEN, S3, FIRST_FRAME[3]) == Ok(ProcessFrame(SCREEN, F4, 0, env));
    SendsKeys();
  }

  lemma SendsKeys()
    ensures SendNextFrame(SCREEN, F4.(next := Some(0)), Now(SECOND + 1)).world.viewer.Keys == {(0, 0)}
  {
    Arrives();
    OnePixel();
    StartFrame(SCREEN, Feed(SCREEN, F4.(next := None), 0, SECOND + 1), false, Now(SECOND + 1));
    hide Start, FrameReady, CompositorWrites, TimeLeft;
    assert F4.(next := Some(0)).(next := None) == F4.(next := None);
  }

  lemma FirstFrame(events: seq<Event>)
    requires LegalRun(SCREEN, S4, events)
    ensures LegalRun(SCREEN, START, FIRST_FRAME + events)
    ensures Run(SCREEN, START, FIRST_FRAME + events) == Run(SCREEN, S4, events)
    ensures Tarnished(SCREEN, S4, events) ==> Tarnished(SCREEN, START, FIRST_FRAME + events)
  {
    StepOne();
    StepTwo();
    StepThree();
    StepFour();
    hide Legal, Step, Run, LegalRun, Tarnished, Spoils, Captures;
    var e3 := [FIRST_FRAME[3]] + events;
    var e2 := [FIRST_FRAME[2]] + e3;
    var e1 := [FIRST_FRAME[1]] + e2;
    Prepend(SCREEN, S3, FIRST_FRAME[3], events);
    Prepend(SCREEN, S2, FIRST_FRAME[2], e3);
    Prepend(SCREEN, S1, FIRST_FRAME[1], e2);
    Prepend(SCREEN, START, FIRST_FRAME[0], e1);
    assert [FIRST_FRAME[0]] + e1 == FIRST_FRAME + events;
  }

  lemma {:induction false} GuardedIsLegal(p: Params, s: State, events: seq<Event>)
    requires p.Valid() && GuardedRun(p, s, events)
    ensures LegalRun(p, s, events)
    decreases |events|
  {
    if events != [] && Step(p, s, events[0]).Ok? {
      GuardedIsLegal(p, Step(p, s, events[0]).state, events[1..]);
    }
  }

  /** The assertion is reached from the initial state: after the first frame the capture timer is armed, and an
      immediate start leaves it so. */
  lemma AssertionIsReachable() returns (events: seq<Event>)
    ensures Init(SCREEN, START) && LegalRun(SCREEN, START, events) && Run(SCREEN, START, events) == AssertFailed
  {
    OnePixel();
    StepFour();
    var e := StartImmediate(Now(SECOND + 2));
    var s := Step(SCREEN, S4, e).state;
    assert s.session && s.timer.Some? && s.shouldStart && !s.frame;
    var rest := ArmedStartFails(SCREEN, s);
    GuardedIsLegal(SCREEN, s, rest);
    Prepend(SCREEN, S4, e, rest);
    FirstFrame([e] + rest);
    events := FIRST_FRAME + ([e] + rest);
  }

  // ---------------------------------------------------------------------------------------------------
  // A frame left waiting, and the screen blanked

  const BLANKING := [
    CaptureTimer(NewBuffer(SECOND + 16666, 1)),
    Ready(BLACK, BLACK, Now(SECOND + 20000)),
    PowerOff(BLACK, WHITE),
    RateTimeout(Now(SECOND + 33334))]

  const S5 := After(S4, BLANKING[0])
  const S6 := After(S5, BLANKING[1])
  const S7 := After(S6, BLANKING[2])

  /** A capture on a new buffer, from the armed timer. */
  lemma StepFive()
    ensures Legal(SCREEN, S4, BLANKING[0]) && Step(SCREEN, S4, BLANKING[0]) == Ok(S5)
    ensures Captures(S5, 1, {}) && S5.lastSend == SECOND + 1 && S5.world.delivered && S5.world.last == BLACK
  {
    StepFour();
    OnePixel();
    hide After;
    assert S5 == After(S4, BLANKING[0]);
    TimerCaptures(S4, NewBuffer(SECOND + 16666, 1));
    AfterIs(S4, BLANKING[0]);
  }

  lemma AfterIs(s: State, e: Event)
    ensures Step(SCREEN, s, e).Ok? ==> Step(SCREEN, s, e) == Ok(After(s, e))
  {
  }

  lemma TimerCaptures(s: State, env: Env)
    requires !s.frame && env == NewBuffer(env.now, 1) && 1 !in s.buffers && s.generation == 0
    requires s.session && s.haveConstraints && !s.shouldStart && s.next.None? && s.limiter.None?
    requires s.world.viewer.Keys == {(0, 0)}
    ensures Step(SCREEN, s, CaptureTimer(env)).Ok?
    ensures var r := Step(SCREEN, s, CaptureTimer(env)).state;
            && Captures(r, 1, {}) && r.lastSend == s.lastSend
            && r.world == s.world.(requested := r.world.requested, announced := {})
  {
    OnePixel();
    hide Rectangle;
  }

  /** The frame has no damage and comes too early to be sent. */
  lemma Waits(s: State, env: Env)
    requires Captures(s, 1, {}) && s.lastSend == SECOND + 1 && s.world.delivered && s.world.last == BLACK
    requires env == Now(SECOND + 20000)
    ensures Legal(SCREEN, s, Ready(BLACK, BLACK, env)) && Step(SCREEN, s, Ready(BLACK, BLACK, env)).Ok?
    ensures var r := Step(SCREEN, s, Ready(BLACK, BLACK, env)).state;
            && r.next == Some(1) && r.limiter == Some(SECOND + 33334) && !r.frame && r.buffer.None? && r.generation == 0
            && 1 in r.buffers && r.buffers[1] == Buffer(BLACK, {}, {}, true, 0)
            && 1 in r.world.sources && r.world.sources[1] == BLACK && r.world.viewer.Keys == {(0, 0)}
  {
    OnePixel();
    Times();
    hide TimeLeft, Rectangle;
  }

  lemma Blanks(s: State)
    requires s.next == Some(1) && !s.frame && s.buffer.None? && s.generation == 0
    requires 1 in s.buffers && s.buffers[1] == Buffer(BLACK, {}, {}, true, 0)
    ensures var r := Step(SCREEN, s, PowerOff(BLACK, WHITE)).state;
            && r.next == s.next && r.limiter == s.limiter && r.buffers == s.buffers
            && r.world.sources == s.world.sources && r.world.viewer == WHITE
  {
  }

  lemma SendsUncovered(s: State, env: Env)
    requires s.next == Some(1) && s.limiter == Some(SECOND + 33334) && env.now == SECOND + 33334
    requires 1 in s.buffers && s.buffers[1] == Buffer(BLACK, {}, {}, true, 0)
    requires 1 in s.world.sources && s.world.sources[1] == BLACK && s.world.viewer == WHITE
    ensures Legal(SCREEN, s, RateTimeout(env)) && Feeds(SCREEN, s, RateTimeout(env)) && !Covers(SCREEN, s, WHITE)
  {
    OnePixel();
    StartFrame(SCREEN, Feed(SCREEN, s.(limiter := None, next := None), 1, env.now), false, env);
    hide Start, Rectangle;
    assert s.(limiter := None).(next := None) == s.(limiter := None, next := None);
    assert (0, 0) in SCREEN.Full() && BLACK[(0, 0)] != WHITE[(0, 0)];
  }

  lemma LastFour()
    ensures Legal(SCREEN, S5, BLANKING[1]) && Step(SCREEN, S5, BLANKING[1]) == Ok(S6) && S6.next.Some?
    ensures Legal(SCREEN, S6, BLANKING[2]) && Step(SCREEN, S6, BLANKING[2]) == Ok(S7)
    ensures Legal(SCREEN, S7, BLANKING[3]) && Feeds(SCREEN, S7, BLANKING[3]) && !Covers(SCREEN, S7, WHITE)
  {
    OnePixel();
    StepFive();
    Waits(S5, Now(SECOND + 20000));
    AfterIs(S5, BLANKING[1]);
    hide After, Captures, Step, Feeds, Covers;
    Blanks(S6);
    AfterIs(S6, BLANKING[2]);
    assert Step(SCREEN, S6, BLANKING[2]).Ok? by { BlanksCompletes(S6); }
    SendsUncovered(S7, Now(SECOND + 33334));
  }

  lemma BlanksCompletes(s: State)
    ensures Step(SCREEN, s, PowerOff(BLACK, WHITE)).Ok?
  {
  }

  lemma Uncovered(s: State, e: Event)
    requires Legal(SCREEN, s, e) && Feeds(SCREEN, s, e) && !Covers(SCREEN, s, WHITE) && !e.PowerOff?
    ensures LegalRun(SCREEN, s, [e]) && Spoils(SCREEN, s, WHITE, [e]) && Run(SCREEN, s, [e]).Ok?
    ensures Run(SCREEN, s, [e]).state.world.feeds != []
  {
    assert [e][1..] == [];
    hide Legal, Step, Covers;
  }

  /** From the initial state a frame can be left waiting at a blanking, and its feed leaves the viewer with
      something other than the source picture. */
  lemma TarnishIsReachable() returns (events: seq<Event>)
    ensures Init(SCREEN, START) && LegalRun(SCREEN, START, events) && Run(SCREEN, START, events).Ok?
    ensures var r := Run(SCREEN, START, events).state;
            r.world.shown.Some? && r.world.viewer != r.world.shown.value
  {
    OnePixel();
    StepFive();
    LastFour();
    hide After, Captures, Step, Legal, LegalRun, Run, Spoils, Tarnished, Feeds, Covers;
    var last := BLANKING[3];
    Uncovered(S7, last);
    Prepend(SCREEN, S6, BLANKING[2], [last]);
    Prepend(SCREEN, S5, BLANKING[1], [BLANKING[2]] + [last]);
    Prepend(SCREEN, S4, BLANKING[0], [BLANKING[1]] + ([BLANKING[2]] + [last]));
    assert [BLANKING[0]] + ([BLANKING[1]] + ([BLANKING[2]] + [last])) == BLANKING;
    FirstFrame(BLANKING);
    events := FIRST_FRAME + BLANKING;
    EndToEnd(SCREEN, START, events);
  }

  // ---------------------------------------------------------------------------------------------------
  // A frame left waiting, and the capture stopped

  /** From the initial state a frame can be left waiting at a stop, and then the capture goes on without a start. */
  lemma StopCanBeUndone() returns (before: seq<Event>, after: seq<Event>)
    ensures Init(SCREEN, START) && LegalRun(SCREEN, START, before) && Run(SCREEN, START, before).Ok?
    ensures var s := Run(SCREEN, START, before).state;
            && Legal(SCREEN, s, Stop(BLACK))
            && var r := Step(SCREEN, s, Stop(BLACK)).state;
               && LegalRun(SCREEN, r, after) && NoStart(after) && Run(SCREEN, r, after).Ok?
               && Capturing(Run(SCREEN, r, after).state)
  {
    OnePixel();
    StepFive();
    LastFour();
    assert Init(SCREEN, START) && Tied(START);
    hide After, Captures, Step, Legal, LegalRun, Run, Tarnished, Feeds, Covers, Capturing, Tied, Init, Spoils;
    NothingMore(S6);
    Prepend(SCREEN, S5, BLANKING[1], []);
    Prepend(SCREEN, S4, BLANKING[0], [BLANKING[1]] + []);
    var two := [BLANKING[0]] + ([BLANKING[1]] + []);
    FirstFrame(two);
    before := FIRST_FRAME + two;
    StartIsSound();
    RunKeepsInv(SCREEN, START, before);
    RunLives(SCREEN, START, before);
    StopIsLegal(S6);
    StoppedRestarts(SCREEN, S6, BLACK);
    var r := Step(SCREEN, S6, Stop(BLACK)).state;
    after :| LegalRun(SCREEN, r, after) && NoStart(after) && Run(SCREEN, r, after).Ok? &&
             Capturing(Run(SCREEN, r, after).state);
  }

  lemma NothingMore(s: State)
    ensures LegalRun(SCREEN, s, []) && Run(SCREEN, s, []) == Ok(s)
  {
  }

  lemma StartIsSound()
    ensures Inv(SCREEN, START)
  {
    OnePixel();
  }

  lemma StopIsLegal(s: State)
    ensures Legal(SCREEN, s, Stop(BLACK))
  {
    OnePixel();
  }

  // ---------------------------------------------------------------------------------------------------
  // A timer left running

  const OVERTAKING := [
    StartImmediate(Now(SECOND + 2)),
    ConstraintsDone(true, NewBuffer(SECOND + 10, 1)),
    Failed(false, Now(SECOND + 20))]

  const T5 := After(S4, OVERTAKING[0])
  const T6 := After(T5, OVERTAKING[1])
  const T7 := After(T6, OVERTAKING[2])

  lemma Reopens(s: State, env: Env)
    requires !s.frame && s.buffer.None?
    ensures Step(SCREEN, s, StartImmediate(env)).Ok?
    ensures var r := Step(SCREEN, s, StartImmediate(env)).state;
            && r.session && r.shouldStart && !r.frame && r.buffer.None? && r.timer == s.timer && r.buffers == s.buffers
            && r.generation == s.generation && r.vncRefs == s.vncRefs
  {
  }

  lemma Overtakes(s: State, env: Env)
    requires s.session && s.shouldStart && !s.frame && env == NewBuffer(env.now, 1) && 1 !in s.buffers
    ensures Legal(SCREEN, s, ConstraintsDone(true, env)) && Step(SCREEN, s, ConstraintsDone(true, env)).Ok?
    ensures var r := Step(SCREEN, s, ConstraintsDone(true, env)).state;
            && r.frame && r.timer == s.timer && r.lastTime == env.now && r.generation == s.generation
            && r.buffer == Some(1) && r.buffers.Keys == s.buffers.Keys + {1} && r.vncRefs == s.vncRefs
  {
    OnePixel();
    hide Rectangle;
  }

  lemma GivesUp(s: State, env: Env)
    requires s.frame && s.buffer == Some(1)
    ensures Legal(SCREEN, s, Failed(false, env)) && Step(SCREEN, s, Failed(false, env)).Ok?
    ensures var r := Step(SCREEN, s, Failed(false, env)).state;
            && !r.frame && r.timer == s.timer && r.lastTime == s.lastTime && r.generation == s.generation
            && r.buffers.Keys <= s.buffers.Keys
  {
  }

  lemma ComesEarly(s: State, env: Env)
    requires !s.frame && s.timer == Some(SECOND + 16666) && s.lastTime == SECOND + 10 && 2 !in s.buffers
    requires env == NewBuffer(SECOND + 16666, 2)
    ensures Legal(SCREEN, s, CaptureTimer(env)) && Step(SCREEN, s, CaptureTimer(env)).Ok?
    ensures Requests(s, CaptureTimer(env), Step(SCREEN, s, CaptureTimer(env)).state)
    ensures !SpacedCaptures(SCREEN, s.lastTime, env.now)
  {
    OnePixel();
    hide Rectangle;
  }

  /** From the initial state a timer can be left running through another capture, and its capture comes too early. */
  lemma StaleTimerIsEarly() returns (events: seq<Event>, e: Event)
    ensures Init(SCREEN, START) && LegalRun(SCREEN, START, events) && Run(SCREEN, START, events).Ok? && e.CaptureTimer?
    ensures var r := Run(SCREEN, START, events).state;
            && Legal(SCREEN, r, e) && Step(SCREEN, r, e).Ok? && Requests(r, e, Step(SCREEN, r, e).state)
            && !SpacedCaptures(SCREEN, r.lastTime, e.env.now)
  {
    OnePixel();
    StepFour();
    assert Init(SCREEN, START);
    Reopens(S4, Now(SECOND + 2));
    StartIsLegal(S4, Now(SECOND + 2));
    AfterIs(S4, OVERTAKING[0]);
    hide After, Step, Legal, LegalRun, Run, Tarnished, Spoils, Init, Requests, SpacedCaptures;
    Overtakes(T5, NewBuffer(SECOND + 10, 1));
    AfterIs(T5, OVERTAKING[1]);
    GivesUp(T6, Now(SECOND + 20));
    AfterIs(T6, OVERTAKING[2]);
    e := CaptureTimer(NewBuffer(SECOND + 16666, 2));
    ComesEarly(T7, e.env);
    NothingMore(T7);
    Prepend(SCREEN, T6, OVERTAKING[2], []);
    Prepend(SCREEN, T5, OVERTAKING[1], [OVERTAKING[2]] + []);
    var two := [OVERTAKING[1]] + ([OVERTAKING[2]] + []);
    Prepend(SCREEN, S4, OVERTAKING[0], two);
    FirstFrame([OVERTAKING[0]] + two);
    events := FIRST_FRAME + ([OVERTAKING[0]] + two);
  }

  lemma StartIsLegal(s: State, env: Env)
    ensures Legal(SCREEN, s, StartImmediate(env))
  {
  }
}
