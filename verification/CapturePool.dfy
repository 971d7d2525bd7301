/** Which buffers the pool keeps, and what neatvnc refers to, told from the events. */
module CapturePool {
  import opened Wrappers
  import opened Regions
  import opened Pacing
  import opened Capture
  import opened CaptureInvariants
  import opened CaptureLife

  // ---------------------------------------------------------------------------------------------------
  // Told from the events

  /** The event sends a frame to neatvnc. */
  function Sent(p: Params, s: State, e: Event): (r: Option<BufferId>)
    requires p.Valid()
  {
    match e
    case Ready(_, _, env) => if s.next.None? && TimeLeft(p.maxRate, s.lastSend, env.now) <= 0 then s.buffer else None
    case RateTimeout(_) => s.next
    case _ => None
  }

  /** neatvnc refers to what it was sent until it drops it. */
  function Referred(p: Params, s: State, e: Event): (r: set<BufferId>)
    requires p.Valid()
  {
    var sent := Sent(p, s, e);
    if e.VncDrop? then s.vncRefs - {e.id} else if sent.Some? then s.vncRefs + {sent.value} else s.vncRefs
  }

  /** The event makes the capture object compare the format with that of the pool, and it has changed. */
  predicate Reconfigures(p: Params, s: State, e: Event)
    requires p.Valid()
  {
    (e.ConstraintsDone? || Asks(p, s, e)) && e.env.reconfigure
  }

  // ---------------------------------------------------------------------------------------------------
  // What the pool keeps

  /** No buffer is of a later configuration, and those of an earlier one are held by somebody. */
  ghost predicate Tidy(buffers: map<BufferId, Buffer>, vncRefs: set<BufferId>, generation: nat)
  {
    forall id | id in buffers ::
      && buffers[id].generation <= generation
      && (buffers[id].framed || id in vncRefs || buffers[id].generation == generation)
  }

  /** No buffer of the present configuration is lost. */
  ghost predicate Retained(before: map<BufferId, Buffer>, after: map<BufferId, Buffer>, generation: nat)
  {
    forall id | id in before && before[id].generation == generation ::
      id in after && after[id].generation == generation
  }

  ghost predicate TidyState(s: State) { Tidy(s.buffers, s.vncRefs, s.generation) }

  /** The pool is tidy and has lost nothing, with the configuration and the references as given. */
  ghost predicate Kept(s: State, r: State, generation: nat, vncRefs: set<BufferId>)
  {
    && TidyState(r) && Retained(s.buffers, r.buffers, generation)
    && r.generation == generation && r.vncRefs == vncRefs
  }

  function Later(s: State, reconfigure: bool): (r: nat) { if reconfigure then s.generation + 1 else s.generation }

  lemma StaysKept(s: State)
    requires TidyState(s)
    ensures Kept(s, s, s.generation, s.vncRefs)
  {
  }

  lemma KeptTwice(s: State, r: State, q: State, generation: nat, vncRefs: set<BufferId>)
    requires TidyState(s) && Kept(s, r, s.generation, r.vncRefs) && Kept(r, q, generation, vncRefs)
    requires s.generation <= generation
    ensures Kept(s, q, generation, vncRefs)
  {
  }

  lemma ReleaseTidies(s: State, id: Option<BufferId>)
    requires TidyState(s)
    ensures Kept(s, ReleaseOption(s, id), s.generation, s.vncRefs)
  {
  }

  lemma ReconfigureTidies(s: State, reconfigure: bool)
    requires TidyState(s)
    ensures Kept(s, Reconfigure(s, reconfigure), Later(s, reconfigure), s.vncRefs)
  {
  }

  lemma AcquireTidies(p: Params, s: State, supply: Supply)
    requires TidyState(s)
    ensures Kept(s, Acquire(p, s, supply).0, s.generation, s.vncRefs)
    ensures forall id | id in s.buffers ::
              id in Acquire(p, s, supply).0.buffers &&
              Acquire(p, s, supply).0.buffers[id].generation == s.buffers[id].generation
    ensures var (r, id) := Acquire(p, s, supply);
            id.Some? ==> id.value in r.buffers && r.buffers[id.value].generation == r.generation
  {
  }

  lemma ScheduleTidies(p: Params, s: State, env: Env)
    requires TidyState(s)
    ensures Kept(s, ScheduleCapture(p, s, env), Later(s, env.reconfigure), s.vncRefs)
  {
    ReconfigureTidies(s, env.reconfigure);
    var s1 := Reconfigure(s, env.reconfigure);
    AcquireTidies(p, s1, env.supply);
    hide Reconfigure, Acquire, Tidy;
  }

  lemma StartTidies(p: Params, s: State, immediate: bool, env: Env)
    requires p.Valid() && TidyState(s)
    ensures var asks := !s.frame && !immediate && AtOnce(p, s, s.frameCount, env.now);
            Kept(s, Start(p, s, immediate, env), Later(s, asks && env.reconfigure), s.vncRefs)
  {
    hide ScheduleCapture, ReleaseOption, TimeLeft, Tidy, Retained;
    StaysKept(s);
    ReleaseTidies(s, s.buffer);
    ScheduleTidies(p, s.(timer := None), env);
  }

  lemma MoreReferred(s: State, id: BufferId)
    requires TidyState(s)
    ensures Tidy(s.buffers, s.vncRefs + {id}, s.generation) && Retained(s.buffers, s.buffers, s.generation)
  {
  }

  lemma SendTidies(p: Params, s: State, env: Env)
    requires p.Valid() && TidyState(s) && s.next.Some? && s.next.value in s.buffers
    requires s.world.viewer.Keys <= s.buffers[s.next.value].pixels.Keys
    ensures var asks := !s.frame && AtOnce(p, s, s.frameCount, env.now);
            Kept(s, SendNextFrame(p, s, env), Later(s, asks && env.reconfigure), s.vncRefs + {s.next.value})
  {
    hide Start, Release, TimeLeft, Overlay, Tidy, Retained;
    var id := s.next.value;
    var fed := Feed(p, s.(next := None), id, env.now);
    MoreReferred(s, id);
    StartTidies(p, fed, false, env);
    var started := Start(p, fed, false, env);
    ReleaseTidies(started, Some(id));
    var r := Release(started, id);
    LastKept(fed, started, r);
  }

  lemma LastKept(s: State, r: State, q: State)
    requires Kept(s, r, r.generation, r.vncRefs) && Kept(r, q, r.generation, r.vncRefs)
    ensures Kept(s, q, r.generation, r.vncRefs)
  {
  }

  // ---------------------------------------------------------------------------------------------------
  // One step

  /** What one event does to the pool. */
  ghost predicate StepKept(p: Params, s: State, e: Event)
    requires p.Valid() && Step(p, s, e).Ok?
  {
    Kept(s, Step(p, s, e).state, Later(s, Reconfigures(p, s, e)), Referred(p, s, e))
  }

  /** Pixels and damage do not matter to the pool. */
  lemma SameHolders(s: State, buffers: map<BufferId, Buffer>)
    requires TidyState(s) && buffers.Keys == s.buffers.Keys
    requires forall id | id in s.buffers ::
               buffers[id].framed == s.buffers[id].framed && buffers[id].generation == s.buffers[id].generation
    ensures Tidy(buffers, s.vncRefs, s.generation) && Retained(s.buffers, buffers, s.generation)
  {
  }

  lemma WaitingTidies(p: Params, s: State, source: Picture, pixels: Picture, env: Env)
    requires p.Valid() && Inv(p, s) && TidyState(s) && Legal(p, s, Ready(source, pixels, env))
    requires s.next.Some? || TimeLeft(p.maxRate, s.lastSend, env.now) > 0
    ensures StepKept(p, s, Ready(source, pixels, env))
  {
    hide Inv, SendNextFrame, TimeLeft, Legal, FrameReady, Spread, Release, Tidy, Retained;
    ReadyHolds(p, s, source, pixels, env);
    var id := s.buffer.value;
    var s1 := FrameReady(CompositorWrites(s, id, source, pixels), id);
    SameHolders(s, s1.buffers);
    if s.next.Some? {
      var merged := DamageFrame(s1.buffers, id, s1.buffers[s.next.value].frameDamage);
      SameHolders(s, merged);
      ReleaseTidies(s1.(buffers := merged), s.next);
      LastKept(s, s1.(buffers := merged), Release(s1.(buffers := merged), s.next.value));
    }
  }

  lemma SentTidies(p: Params, s: State, source: Picture, pixels: Picture, env: Env)
    requires p.Valid() && Inv(p, s) && TidyState(s) && Legal(p, s, Ready(source, pixels, env))
    requires s.next.None? && TimeLeft(p.maxRate, s.lastSend, env.now) <= 0
    ensures StepKept(p, s, Ready(source, pixels, env))
  {
    hide Inv, SendNextFrame, TimeLeft, Legal, FrameReady, Spread, Release, Tidy, Retained;
    ReadyHolds(p, s, source, pixels, env);
    var id := s.buffer.value;
    var s1 := FrameReady(CompositorWrites(s, id, source, pixels), id);
    SameHolders(s, s1.buffers);
    SendTidies(p, s1.(next := Some(id)), env);
    var r := SendNextFrame(p, s1.(next := Some(id)), env);
    KeptTwice(s, s1, r, Later(s, Reconfigures(p, s, Ready(source, pixels, env))), s.vncRefs + {id});
  }

  lemma ReadyTidies(p: Params, s: State, source: Picture, pixels: Picture, env: Env)
    requires p.Valid() && Inv(p, s) && TidyState(s) && Legal(p, s, Ready(source, pixels, env))
    ensures Step(p, s, Ready(source, pixels, env)).Ok? && StepKept(p, s, Ready(source, pixels, env))
  {
    hide Inv, Legal, StepKept, TidyState, TimeLeft;
    if s.next.Some? || TimeLeft(p.maxRate, s.lastSend, env.now) > 0 {
      WaitingTidies(p, s, source, pixels, env);
    } else {
      SentTidies(p, s, source, pixels, env);
    }
  }

  lemma TimeoutTidies(p: Params, s: State, env: Env)
    requires p.Valid() && Inv(p, s) && TidyState(s) && Legal(p, s, RateTimeout(env))
    ensures StepKept(p, s, RateTimeout(env))
  {
    SendTidies(p, s.(limiter := None), env);
    hide SendNextFrame, TimeLeft, Shapes, Owned, Fresh, InSight, Tidy, Retained;
  }

  lemma DoneTidies(p: Params, s: State, accepted: bool, env: Env)
    requires p.Valid() && TidyState(s) && Step(p, s, ConstraintsDone(accepted, env)).Ok?
    ensures StepKept(p, s, ConstraintsDone(accepted, env))
  {
    hide ScheduleCapture, TimeLeft, Reconfigure, Tidy, Retained;
    var s1 := Reconfigure(s, env.reconfigure);
    ReconfigureTidies(s, env.reconfigure);
    ScheduleTidies(p, s1, env.(reconfigure := false));
    var r := ScheduleCapture(p, s1, env.(reconfigure := false));
    LastKept(s, s1, r);
  }

  lemma FailedTidies(p: Params, s: State, constraints: bool, env: Env)
    requires p.Valid() && TidyState(s)
    ensures StepKept(p, s, Failed(constraints, env))
  {
    hide Start, Release, TimeLeft, Tidy, Retained;
    ReleaseTidies(s.(frame := false), s.buffer);
    var s1 := ReleaseOption(s.(frame := false), s.buffer).(buffer := None);
    StartTidies(p, s1, false, env);
    if constraints {
      var asks := AtOnce(p, s1, s1.frameCount, env.now);
      KeptTwice(s, s1, Start(p, s1, false, env), Later(s, asks && env.reconfigure), s.vncRefs);
    }
  }

  lemma StopTidies(s: State, junk: Picture)
    requires TidyState(s)
    ensures Kept(s, StopCapture(Spoil(s, junk)), s.generation, s.vncRefs)
  {
    hide Release, Tidy, Retained;
    var s1 := Spoil(s, junk);
    SameHolders(s, s1.buffers);
    ReleaseTidies(s1.(timer := None), s.buffer);
    LastKept(s, s1, ReleaseOption(s1.(timer := None), s.buffer));
  }

  lemma DropTidies(p: Params, s: State, id: BufferId)
    requires p.Valid() && TidyState(s)
    ensures StepKept(p, s, VncDrop(id))
  {
  }

  lemma OtherTidies(p: Params, s: State, e: Event)
    requires p.Valid() && TidyState(s) && (e.StartImmediate? || e.Damage? || e.ConstraintsChanged? || e.CaptureTimer?)
    requires Step(p, s, e).Ok?
    ensures StepKept(p, s, e)
  {
    hide Start, ScheduleCapture, TimeLeft, Rectangle, Tidy, Retained;
    StaysKept(s);
    match e
    case StartImmediate(env) => StartTidies(p, s, true, env);
    case CaptureTimer(env) => ScheduleTidies(p, s.(timer := None), env);
    case Damage(x, y, width, height) =>
      if s.buffer.Some? && s.buffer.value in s.buffers {
        SameHolders(s, DamageFrame(s.buffers, s.buffer.value, Rectangle(x, y, width, height)));
      }
    case _ =>
  }

  lemma StepTidies(p: Params, s: State, e: Event)
    requires p.Valid() && Inv(p, s) && TidyState(s) && Legal(p, s, e) && Step(p, s, e).Ok?
    ensures StepKept(p, s, e) && TidyState(Step(p, s, e).state)
  {
    hide Inv, Legal, Step, TidyState, Retained, Reconfigures, Referred;
    match e
    case Stop(junk) => StopKept(p, s, e);
    case PowerOff(junk, _) => StopKept(p, s, e);
    case ConstraintsDone(accepted, env) => DoneTidies(p, s, accepted, env);
    case Ready(source, pixels, env) => ReadyTidies(p, s, source, pixels, env);
    case Failed(constraints, env) => FailedTidies(p, s, constraints, env);
    case RateTimeout(env) => TimeoutTidies(p, s, env);
    case VncDrop(id) => DropTidies(p, s, id);
    case _ => OtherTidies(p, s, e);
  }

  lemma StopKept(p: Params, s: State, e: Event)
    requires p.Valid() && TidyState(s) && (e.Stop? || e.PowerOff?)
    ensures Step(p, s, e).Ok? && StepKept(p, s, e)
  {
    hide StopCapture, Spoil, Tidy, Retained;
    StopTidies(s, e.junk);
  }

  // ---------------------------------------------------------------------------------------------------
  // Runs

  /** From the start, in every state that a legal run reaches, and for every event there: the pool has no buffer of an
      earlier configuration that nobody holds, and every event keeps the buffers of the present one; the configuration
      changes exactly when a changed format is looked at; and neatvnc refers to exactly what it was sent and has not
      dropped. */
  lemma {:induction false} PoolIsExact(p: Params, s: State, events: seq<Event>, e: Event)
    requires p.Valid() && Inv(p, s) && TidyState(s) && LegalRun(p, s, events) && Run(p, s, events).Ok?
    ensures var r := Run(p, s, events).state;
            Inv(p, r) && TidyState(r) && (Legal(p, r, e) && Step(p, r, e).Ok? ==> StepKept(p, r, e))
    decreases |events|
  {
    hide Inv, Legal, Step, TidyState, StepKept;
    if events == [] {
      if Legal(p, s, e) && Step(p, s, e).Ok? { StepTidies(p, s, e); }
    } else {
      StepKeepsInv(p, s, events[0]);
      StepTidies(p, s, events[0]);
      PoolIsExact(p, Step(p, s, events[0]).state, events[1..], e);
    }
  }
}
