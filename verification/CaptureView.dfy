/** What the viewer sees, over whole runs: exactly the source picture of the last frame fed, except after one
kind of blanking. */
module CaptureView {
  import opened Wrappers
  import opened Regions
  import opened Pacing
  import opened Capture
  import opened CaptureInvariants

  // ---------------------------------------------------------------------------------------------------
  // The exception

  predicate Feeds(p: Params, s: State, e: Event)
    requires p.Valid()
  {
    Step(p, s, e).Ok? && |Step(p, s, e).state.world.feeds| > |s.world.feeds|
  }

  /** Drawn onto the blank screen, the waiting frame gives its whole source picture. */
  ghost predicate Covers(p: Params, s: State, blank: Picture)
  {
    s.next.Some? && s.next.value in s.buffers && s.next.value in s.world.sources ==>
      AgreeOutside(blank, s.world.sources[s.next.value], p.Full(), s.buffers[s.next.value].frameDamage)
  }

  /** The run neither feeds a frame nor blanks the screen. */
  ghost predicate Untouched(p: Params, s: State, events: seq<Event>)
    requires p.Valid()
    decreases |events|
  {
    events != [] && Step(p, s, events[0]).Ok? ==>
      !events[0].PowerOff? && !Feeds(p, s, events[0]) && Untouched(p, Step(p, s, events[0]).state, events[1..])
  }

  /** The next frame to be fed comes before another blanking, does not cover `blank`, and is the last thing
      to reach the viewer in this run. */
  ghost predicate Spoils(p: Params, s: State, blank: Picture, events: seq<Event>)
    requires p.Valid()
    decreases |events|
  {
    events != [] && Step(p, s, events[0]).Ok? && !events[0].PowerOff? &&
    var s1 := Step(p, s, events[0]).state;
    if Feeds(p, s, events[0]) then !Covers(p, s, blank) && Untouched(p, s1, events[1..])
    else Spoils(p, s1, blank, events[1..])
  }

  /** Somewhere in the run the screen was blanked while a frame was waiting; that frame, or one merged with
      it, was fed onto the blank screen without covering it, and nothing has reached the viewer since. */
  ghost predicate Tarnished(p: Params, s: State, events: seq<Event>)
    requires p.Valid()
    decreases |events|
  {
    events != [] && Step(p, s, events[0]).Ok? &&
    var s1 := Step(p, s, events[0]).state;
    || (events[0].PowerOff? && s.next.Some? && Spoils(p, s1, events[0].blank, events[1..]))
    || Tarnished(p, s1, events[1..])
  }

  // ---------------------------------------------------------------------------------------------------
  // The view from one step to the next

  /** What is known about the viewer: the blank screen that the waiting frame will be drawn onto, if there is
      one, and whether the viewer shows something other than it should. */
  datatype Mark = Mark(waiting: Option<Picture>, tarnished: bool)

  const CLEAN := Mark(None, false)

  ghost function Marked(p: Params, s: State, m: Mark, e: Event): (r: Mark)
    requires p.Valid()
  {
    if e.PowerOff? then Mark(if s.next.Some? then Some(e.blank) else None, false)
    else if Feeds(p, s, e) then Mark(None, m.waiting.Some? && !Covers(p, s, m.waiting.value))
    else m
  }

  ghost predicate View(p: Params, s: State, m: Mark)
  {
    && (m.waiting.Some? ==> s.next.Some? && !m.tarnished && s.world.viewer == m.waiting.value)
    && (m.waiting.None? ==> Covers(p, s, s.world.viewer))
    && (s.world.shown.Some? ==> (s.world.viewer == s.world.shown.value <==> !m.tarnished))
    && (s.world.feeds != [] ==> s.world.shown.Some?)
    && (m.tarnished ==> s.world.shown.Some?)
  }

  /** Nothing the viewer depends on has changed. */
  ghost predicate SameView(s: State, r: State)
  {
    && r.next == s.next && r.world.viewer == s.world.viewer && r.world.shown == s.world.shown
    && r.world.feeds == s.world.feeds
    && (s.next.Some? && s.next.value in s.buffers && s.next.value in s.world.sources ==>
          && s.next.value in r.buffers && s.next.value in r.world.sources
          && r.world.sources[s.next.value] == s.world.sources[s.next.value]
          && r.buffers[s.next.value].frameDamage == s.buffers[s.next.value].frameDamage)
  }

  predicate Quiet(e: Event) { !e.PowerOff? && !e.Ready? && !e.RateTimeout? }

  lemma ReconfigureIsQuiet(s: State, reconfigure: bool)
    requires Owned(s, {})
    ensures SameView(s, Reconfigure(s, reconfigure))
    ensures forall id | id in Holders(s) :: id in Reconfigure(s, reconfigure).buffers
  {
  }

  lemma AcquireIsQuiet(p: Params, s: State, supply: Supply)
    ensures SameView(s, Acquire(p, s, supply).0)
  {
  }

  lemma ScheduleIsQuiet(p: Params, s: State, env: Env)
    requires Owned(s, {})
    ensures SameView(s, ScheduleCapture(p, s, env))
  {
    ReconfigureIsQuiet(s, env.reconfigure);
    var s1 := Reconfigure(s, env.reconfigure);
    AcquireIsQuiet(p, s1, env.supply);
    hide Reconfigure, Acquire, Owned;
  }

  lemma DeinitIsQuiet(s: State)
    requires Owned(s, {})
    ensures SameView(s, DeinitSession(s))
  {
  }

  lemma OwnedWithoutTimer(s: State)
    requires Owned(s, {})
    ensures Owned(s.(timer := None), {})
  {
  }

  lemma StartIsQuiet(p: Params, s: State, immediate: bool, env: Env)
    requires p.Valid() && Owned(s, {})
    ensures SameView(s, Start(p, s, immediate, env))
  {
    hide Owned, ScheduleCapture, DeinitSession;
    if s.frame {
    } else if immediate || s.frameCount == 0 {
      DeinitIsQuiet(s);
    } else if s.haveConstraints {
      OwnedWithoutTimer(s);
      ScheduleIsQuiet(p, s.(timer := None), env);
    }
  }

  lemma FailedIsQuiet(p: Params, s: State, constraints: bool, env: Env)
    requires p.Valid() && Sound(p, s, {}) && s.frame
    ensures SameView(s, Step(p, s, Failed(constraints, env)).state)
  {
    var id := s.buffer.value;
    var s1 := s.(frame := false, buffer := None);
    var s2 := Release(s1, id);
    assert SameView(s, s2);
    assert Sound(p, s1, {id});
    ReleaseKeeps(p, s1, {id}, id);
    assert {id} - {id} == {};
    assert ReleaseOption(s.(frame := false), s.buffer).(buffer := None) == s2;
    if constraints { StartIsQuiet(p, s2, false, env); }
  }

  lemma QuietStep(p: Params, s: State, e: Event)
    requires p.Valid() && Inv(p, s) && Legal(p, s, e) && Quiet(e) && Step(p, s, e).Ok?
    ensures SameView(s, Step(p, s, e).state)
  {
    hide Start, ScheduleCapture, AgreeOutside, Rectangle, Paced, Fresh, InSight, Captured;
    match e
    case StartImmediate(env) => StartIsQuiet(p, s, true, env);
    case Stop(junk) => StopIsQuiet(p, s, junk);
    case ConstraintsDone(accepted, env) =>
      var s1 := Reconfigure(s, env.reconfigure);
      ReconfigureKeeps(p, s, env.reconfigure, {});
      assert SameView(s, s1);
      if accepted && s1.shouldStart { ScheduleIsQuiet(p, s1, env.(reconfigure := false)); }
    case CaptureTimer(env) => ScheduleIsQuiet(p, s.(timer := None), env);
    case Failed(constraints, env) => FailedIsQuiet(p, s, constraints, env);
    case _ =>
  }

  lemma StopIsQuiet(p: Params, s: State, junk: Picture)
    requires Sound(p, s, {})
    ensures SameView(s, StopCapture(Spoil(s, junk)))
  {
    var s1 := Spoil(s, junk).(timer := None);
    assert SameView(s, s1);
    assert Owned(s1, {});
    DeinitIsQuiet(s1);
  }

  lemma SameViewKeeps(p: Params, s: State, r: State, m: Mark)
    requires Sound(p, s, {}) && View(p, s, m) && SameView(s, r)
    ensures View(p, r, m)
  {
  }

  /** A ready frame is kept waiting, or is fed and leaves the viewer with its whole source picture. */
  lemma ReadyShows(p: Params, s: State, source: Picture, pixels: Picture, env: Env)
    requires p.Valid() && Inv(p, s) && Legal(p, s, Ready(source, pixels, env))
    ensures var r := Step(p, s, Ready(source, pixels, env)).state;
            if Feeds(p, s, Ready(source, pixels, env)) then
              s.next.None? && r.next.None? && r.world.shown == Some(r.world.viewer)
            else
              && r.next.Some? && r.world.viewer == s.world.viewer && r.world.shown == s.world.shown
              && r.world.feeds == s.world.feeds && Covers(p, r, r.world.viewer)
  {
    WriteKeeps(p, s, source, pixels, env);
    var id := s.buffer.value;
    ProcessShows(p, FrameReady(CompositorWrites(s, id, source, pixels), id), id, env);
  }

  lemma ProcessShows(p: Params, s: State, id: BufferId, env: Env)
    requires p.Valid() && Arrived(p, s, id)
    ensures var r := ProcessFrame(p, s, id, env);
            if s.next.None? && TimeLeft(p.maxRate, s.lastSend, env.now) <= 0 then
              && r.next.None? && r.world.shown == Some(r.world.viewer) && |r.world.feeds| == |s.world.feeds| + 1
            else
              && r.next.Some? && r.world.viewer == s.world.viewer && r.world.shown == s.world.shown
              && r.world.feeds == s.world.feeds && Covers(p, r, r.world.viewer)
  {
    ProcessKeeps(p, s, id, env);
    if s.next.None? && TimeLeft(p.maxRate, s.lastSend, env.now) <= 0 {
      PendKeeps(p, s, id, env.now);
      var s1 := s.(next := Some(id), limiter := Some(env.now));
      SendShowsExactly(p, s1, env);
      assert s1.(limiter := None) == s.(next := Some(id));
    }
  }

  lemma QuietKeepsView(p: Params, s: State, m: Mark, e: Event)
    requires p.Valid() && Inv(p, s) && View(p, s, m) && Legal(p, s, e) && Quiet(e) && Step(p, s, e).Ok?
    ensures View(p, Step(p, s, e).state, Marked(p, s, m, e))
  {
    QuietStep(p, s, e);
    hide Step, Legal;
    SameViewKeeps(p, s, Step(p, s, e).state, m);
  }

  lemma BlankKeepsView(p: Params, s: State, m: Mark, junk: Picture, blank: Picture)
    requires p.Valid() && Sound(p, s, {}) && View(p, s, m)
    ensures View(p, Step(p, s, PowerOff(junk, blank)).state, Marked(p, s, m, PowerOff(junk, blank)))
  {
    StopIsQuiet(p, s, junk);
    hide StopCapture, Spoil, Sound;
  }

  lemma ReadyKeepsView(p: Params, s: State, m: Mark, source: Picture, pixels: Picture, env: Env)
    requires p.Valid() && Inv(p, s) && View(p, s, m) && Legal(p, s, Ready(source, pixels, env))
    ensures var e := Ready(source, pixels, env); View(p, Step(p, s, e).state, Marked(p, s, m, e))
  {
    ReadyShows(p, s, source, pixels, env);
    hide Inv, Legal, Step;
  }

  lemma TimeoutKeepsView(p: Params, s: State, m: Mark, env: Env)
    requires p.Valid() && Sound(p, s, {}) && View(p, s, m) && Legal(p, s, RateTimeout(env))
    ensures var e := RateTimeout(env); View(p, Step(p, s, e).state, Marked(p, s, m, e))
  {
    SendShowsExactly(p, s, env);
    hide SendNextFrame, AgreeOutside, Shapes, Owned, Fresh;
  }

  /** After every step the mark tells whether the viewer shows what it should. */
  lemma StepKeepsView(p: Params, s: State, m: Mark, e: Event)
    requires p.Valid() && Inv(p, s) && View(p, s, m) && Legal(p, s, e) && Step(p, s, e).Ok?
    ensures View(p, Step(p, s, e).state, Marked(p, s, m, e))
  {
    hide View, Step, Legal, Marked;
    match e
    case PowerOff(junk, blank) => BlankKeepsView(p, s, m, junk, blank);
    case Ready(source, pixels, env) => ReadyKeepsView(p, s, m, source, pixels, env);
    case RateTimeout(env) => TimeoutKeepsView(p, s, m, env);
    case _ => QuietKeepsView(p, s, m, e);
  }

  // ---------------------------------------------------------------------------------------------------
  // Runs

  ghost function MarkedRun(p: Params, s: State, m: Mark, events: seq<Event>): (r: Mark)
    requires p.Valid()
    decreases |events|
  {
    if events == [] || Step(p, s, events[0]).AssertFailed? then m
    else MarkedRun(p, Step(p, s, events[0]).state, Marked(p, s, m, events[0]), events[1..])
  }

  lemma {:induction false} RunKeepsView(p: Params, s: State, m: Mark, events: seq<Event>)
    requires p.Valid() && Inv(p, s) && View(p, s, m) && LegalRun(p, s, events) && Run(p, s, events).Ok?
    ensures View(p, Run(p, s, events).state, MarkedRun(p, s, m, events))
    decreases |events|
  {
    if events != [] {
      StepKeepsInv(p, s, events[0]);
      StepKeepsView(p, s, m, events[0]);
      RunKeepsView(p, Step(p, s, events[0]).state, Marked(p, s, m, events[0]), events[1..]);
    }
  }

  /** The mark is nothing but a way to decide whether the run is one of the exceptions. */
  lemma {:induction false} MarkTellsTarnish(p: Params, s: State, m: Mark, events: seq<Event>)
    requires p.Valid() && Run(p, s, events).Ok? && (m.waiting.Some? ==> !m.tarnished)
    ensures MarkedRun(p, s, m, events).tarnished <==>
            || (m.tarnished && Untouched(p, s, events))
            || (m.waiting.Some? && Spoils(p, s, m.waiting.value, events))
            || Tarnished(p, s, events)
    decreases |events|
  {
    if events != [] {
      MarkTellsTarnish(p, Step(p, s, events[0]).state, Marked(p, s, m, events[0]), events[1..]);
    }
  }

  /** End to end, over every legal run that does not stop at the assertion: the viewer shows the source picture
      of the last frame fed, or the blank screen, exactly unless the run is tarnished; once the session has
      delivered a frame the viewer is at most the waiting frame behind; every buffer is current outside its
      damage; no buffer has two holders; a waiting frame has an armed timer; feeds keep their distance. */
  lemma EndToEnd(p: Params, s: State, events: seq<Event>)
    requires p.Valid() && Init(p, s) && LegalRun(p, s, events) && Run(p, s, events).Ok?
    ensures var r := Run(p, s, events).state;
            && (r.world.feeds != [] ==> r.world.shown.Some?)
            && (r.world.shown.Some? ==> (r.world.viewer == r.world.shown.value <==> !Tarnished(p, s, events)))
            && (r.world.delivered && r.next.None? ==> r.world.viewer == r.world.last)
            && (r.world.delivered ==> forall id | id in r.buffers ::
                  AgreeOutside(r.buffers[id].pixels, r.world.last, p.Full(), r.buffers[id].bufferDamage))
            && (forall id | id in r.buffers && r.buffers[id].framed ::
                  (r.buffer == Some(id) && r.next != Some(id)) || (r.buffer != Some(id) && r.next == Some(id)))
            && (forall id | id in r.buffers && !r.buffers[id].framed :: r.buffers[id].frameDamage == {})
            && (r.frame <==> r.buffer.Some?)
            && (r.next.Some? <==> r.limiter.Some?)
            && (forall i | 0 < i < |r.world.feeds| :: SpacedFeeds(p, r.world.feeds[i - 1], r.world.feeds[i]))
  {
    assert Inv(p, s) && View(p, s, CLEAN);
    RunKeepsInv(p, s, events);
    RunKeepsView(p, s, CLEAN, events);
    MarkTellsTarnish(p, s, CLEAN, events);
  }

  /** No blanking in the run finds a frame waiting. */
  ghost predicate BlanksIdle(p: Params, s: State, events: seq<Event>)
    requires p.Valid()
    decreases |events|
  {
    events != [] && Step(p, s, events[0]).Ok? ==>
      && (events[0].PowerOff? ==> s.next.None?)
      && BlanksIdle(p, Step(p, s, events[0]).state, events[1..])
  }

  /** Without such a blanking there is no exception. */
  lemma {:induction false} IdleBlanksAreClean(p: Params, s: State, events: seq<Event>)
    requires p.Valid() && BlanksIdle(p, s, events)
    ensures !Tarnished(p, s, events)
    decreases |events|
  {
    if events != [] && Step(p, s, events[0]).Ok? {
      IdleBlanksAreClean(p, Step(p, s, events[0]).state, events[1..]);
    }
  }
}
