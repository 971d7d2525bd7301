/** The damage that is passed on is no more and no less than what was reported, over every run. */
module CaptureDamage {
  import opened Wrappers
  import opened Regions
  import opened Pacing
  import opened Capture
  import opened CaptureInvariants
  import opened CaptureLife

  // ---------------------------------------------------------------------------------------------------
  // Told from the events

  /** The event requests a capture. */
  predicate Granted(p: Params, s: State, e: Event)
    requires p.Valid()
  {
    Asks(p, s, e) && Grants(p, PoolAt(s, e), e.env)
  }

  function SupplyId(supply: Supply): (r: Option<BufferId>)
  {
    match supply
    case Reuse(id) => Some(id)
    case Allocate(id, _) => Some(id)
    case Exhausted => None
  }

  /** The rectangles reported for the frame in flight, after the event. */
  function Reported(p: Params, s: State, e: Event, reported: Region): (r: Region)
    requires p.Valid()
  {
    if Granted(p, s, e) then {}
    else if e.Damage? then reported + Rectangle(e.x, e.y, e.width, e.height) else reported
  }

  /** The damage of the frames delivered since the last one that was sent. */
  function Pending(s: State, e: Event, reported: Region, pending: Region): (r: Region)
  {
    if !e.Ready? then pending else if s.next.Some? then pending + reported else reported
  }

  /** The damage of the frames delivered since a buffer was captured to, or the whole screen and that if it never
      was. */
  function Owed(p: Params, s: State, e: Event, id: BufferId, reported: Region, owed: Region): (r: Region)
    requires p.Valid()
  {
    if Granted(p, s, e) && e.env.supply.Allocate? && e.env.supply.id == id then p.Full()
    else if !e.Ready? then owed else if s.buffer == Some(id) then {} else owed + reported
  }

  /** What the events tell about the damage: of the frame in flight, of the waiting frame and of one buffer. */
  datatype Account = Account(reported: Region, pending: Region, owed: Region)

  function After(p: Params, s: State, e: Event, id: BufferId, a: Account): (r: Account)
    requires p.Valid()
  {
    Account(Reported(p, s, e, a.reported), Pending(s, e, a.reported, a.pending), Owed(p, s, e, id, a.reported, a.owed))
  }

  ghost predicate Exact(s: State, id: BufferId, a: Account)
  {
    && (s.frame ==> s.world.announced == a.reported)
    && (s.buffer.Some? ==> s.buffer.value in s.buffers && s.buffers[s.buffer.value].frameDamage == a.reported)
    && (s.next.Some? ==> s.next.value in s.buffers && s.buffers[s.next.value].frameDamage == a.pending)
    && (id in s.buffers ==> s.buffers[id].bufferDamage == a.owed)
  }

  // ---------------------------------------------------------------------------------------------------
  // The pool

  ghost predicate Clean(buffers: map<BufferId, Buffer>)
  {
    forall id | id in buffers && !buffers[id].framed :: buffers[id].frameDamage == {}
  }

  /** Whoever holds a buffer keeps it with the damage of its frame. */
  ghost predicate HeldStays(before: map<BufferId, Buffer>, after: map<BufferId, Buffer>)
  {
    forall id | id in before && before[id].framed ::
      id in after && after[id].framed && after[id].frameDamage == before[id].frameDamage
  }

  /** What is due in the buffer stays. */
  ghost predicate DueStays(before: map<BufferId, Buffer>, after: map<BufferId, Buffer>, id: BufferId)
  {
    id in after ==> id in before && after[id].bufferDamage == before[id].bufferDamage
  }

  lemma ReconfigureDamages(s: State, reconfigure: bool, id: BufferId)
    requires Clean(s.buffers)
    ensures var r := Reconfigure(s, reconfigure);
            Clean(r.buffers) && HeldStays(s.buffers, r.buffers) && DueStays(s.buffers, r.buffers, id)
  {
  }

  lemma AcquireDamages(p: Params, s: State, supply: Supply, id: BufferId)
    requires Clean(s.buffers)
    ensures var (r, given) := Acquire(p, s, supply);
            && Clean(r.buffers) && HeldStays(s.buffers, r.buffers)
            && (given.Some? ==>
                  && given == SupplyId(supply) && given.value in r.buffers && r.buffers[given.value].framed
                  && r.buffers[given.value].frameDamage == {}
                  && (given.value in s.buffers ==> !s.buffers[given.value].framed))
            && (if given.Some? && supply.Allocate? && supply.id == id then
                  id in r.buffers && r.buffers[id].bufferDamage == p.Full()
                else DueStays(s.buffers, r.buffers, id))
  {
    hide Rectangle;
  }

  /** The buffer of a new capture has no frame damage yet. */
  ghost predicate Begun(s: State, r: State, env: Env)
  {
    && r.frame && r.buffer == SupplyId(env.supply) && r.buffer.Some? && r.buffer.value in r.buffers
    && r.buffers[r.buffer.value].frameDamage == {} && r.world.announced == {} && r.buffers[r.buffer.value].framed
    && (r.buffer.value in s.buffers ==> !s.buffers[r.buffer.value].framed)
  }

  /** What is due after a request that may have brought the buffer into the pool. */
  ghost predicate DueAfter(p: Params, s: State, r: State, env: Env, granted: bool, id: BufferId)
  {
    if granted && env.supply.Allocate? && env.supply.id == id then
      id in r.buffers && r.buffers[id].bufferDamage == p.Full()
    else DueStays(s.buffers, r.buffers, id)
  }

  lemma ScheduleDamages(p: Params, s: State, env: Env, id: BufferId)
    requires !s.frame && Clean(s.buffers)
    ensures var r, granted := ScheduleCapture(p, s, env), Grants(p, s, env);
            && Clean(r.buffers) && HeldStays(s.buffers, r.buffers) && DueAfter(p, s, r, env, granted, id)
            && (if granted then Begun(s, r, env)
                else !r.frame && r.buffer.None? && r.world.announced == s.world.announced)
  {
    ScheduleGrants(p, s, env);
    ReconfigureDamages(s, env.reconfigure, id);
    ReconfigureFrames(s, env.reconfigure);
    AcquireDamages(p, Reconfigure(s, env.reconfigure), env.supply, id);
    hide Reconfigure, Acquire, Grants, Rectangle, Clean;
  }

  lemma ReconfigureFrames(s: State, reconfigure: bool)
    ensures forall id | id in s.buffers && s.buffers[id].framed ::
              id in Reconfigure(s, reconfigure).buffers && Reconfigure(s, reconfigure).buffers[id].framed
  {
  }

  lemma StartDamages(p: Params, s: State, immediate: bool, env: Env, id: BufferId)
    requires p.Valid() && Clean(s.buffers) && (s.frame <==> s.buffer.Some?)
    ensures var r := Start(p, s, immediate, env);
            var granted := !s.frame && !immediate && AtOnce(p, s, s.frameCount, env.now) && Grants(p, s, env);
            && Clean(r.buffers) && HeldStays(s.buffers, r.buffers) && DueAfter(p, s, r, env, granted, id)
            && (if granted then Begun(s, r, env)
                else r.frame == s.frame && r.buffer == s.buffer && r.world.announced == s.world.announced)
            && r.next == s.next
  {
    hide ScheduleCapture, Grants, TimeLeft, Rectangle, Clean, Release;
    if !s.frame {
      ScheduleDamages(p, s.(timer := None), env, id);
      SameGrants(p, s, s.(timer := None), env);
    }
  }

  lemma ReleaseDamages(s: State, held: BufferId, id: BufferId)
    requires Clean(s.buffers)
    ensures var r := Release(s, held);
            && Clean(r.buffers) && DueStays(s.buffers, r.buffers, id)
            && forall h | h in s.buffers && s.buffers[h].framed && h != held ::
                 h in r.buffers && r.buffers[h].framed && r.buffers[h].frameDamage == s.buffers[h].frameDamage
  {
  }

  // ---------------------------------------------------------------------------------------------------
  // One step

  /** The frame in flight and the waiting frame have buffers of their own. */
  ghost predicate Apart(s: State)
  {
    && (s.frame <==> s.buffer.Some?)
    && (s.buffer.Some? ==> s.buffer.value in s.buffers && s.buffers[s.buffer.value].framed && s.buffer != s.next)
    && (s.next.Some? ==> s.next.value in s.buffers && s.buffers[s.next.value].framed)
  }

  lemma InvIsApart(p: Params, s: State)
    requires p.Valid() && Inv(p, s)
    ensures Apart(s) && Clean(s.buffers)
    ensures s.next.Some? ==> s.world.viewer.Keys <= s.buffers[s.next.value].pixels.Keys
  {
  }

  lemma SendDamages(p: Params, s: State, env: Env, id: BufferId)
    requires p.Valid() && Clean(s.buffers) && Apart(s) && s.next.Some?
    requires s.world.viewer.Keys <= s.buffers[s.next.value].pixels.Keys
    ensures var r := SendNextFrame(p, s, env);
            var granted := !s.frame && AtOnce(p, s, s.frameCount, env.now) &&
                           Grants(p, s.(vncRefs := s.vncRefs + {s.next.value}), env);
            && r.next.None? && DueAfter(p, s, r, env, granted, id)
            && (if granted then Begun(s, r, env)
                else
                  && r.frame == s.frame && r.buffer == s.buffer && r.world.announced == s.world.announced
                  && (s.buffer.Some? ==>
                        && s.buffer.value in r.buffers
                        && r.buffers[s.buffer.value].frameDamage == s.buffers[s.buffer.value].frameDamage))
  {
    hide Start, Grants, TimeLeft, Overlay, Clean, Rectangle, Release;
    var held := s.next.value;
    var fed := Feed(p, s.(next := None), held, env.now);
    StartDamages(p, fed, false, env, id);
    SameGrants(p, s.(vncRefs := s.vncRefs + {held}), fed, env);
    ReleaseDamages(Start(p, fed, false, env), held, id);
    AllocatedStays(Start(p, fed, false, env), held);
  }

  /** A buffer that was just handed out stays when another is released. */
  lemma AllocatedStays(s: State, held: BufferId)
    ensures forall id | id in s.buffers && s.buffers[id].framed && id != held ::
              id in Release(s, held).buffers && Release(s, held).buffers[id].bufferDamage == s.buffers[id].bufferDamage
  {
  }

  /** A delivered frame: its damage is due in all other buffers, and nothing is due in its own. */
  lemma ReadySpreads(p: Params, s: State, source: Picture, pixels: Picture, env: Env, id: BufferId, a: Account)
    requires p.Valid() && Inv(p, s) && Legal(p, s, Ready(source, pixels, env)) && Exact(s, id, a)
    ensures var own := s.buffer.value;
            var r := FrameReady(CompositorWrites(s, own, source, pixels), own);
            && Clean(r.buffers) && Apart(r.(next := Some(own))) && r.buffers[own].frameDamage == a.reported
            && (s.next.Some? ==> s.next.value in r.buffers && r.buffers[s.next.value].frameDamage == a.pending)
            && (id in r.buffers ==> r.buffers[id].bufferDamage == if id == own then {} else a.owed + a.reported)
            && (s.next.Some? ==> s.next.value != own)
  {
    hide AgreeOutside, InSight, Paced;
  }

  /** The frame waits, with the damage of the frame it replaces if there is one. */
  lemma WaitsWith(s: State, own: BufferId, id: BufferId)
    requires Clean(s.buffers) && s.buffer.None? && !s.frame && own in s.buffers && s.buffers[own].framed
    requires s.next.Some? ==> s.next.value in s.buffers && s.next.value != own
    ensures s.next.Some? ==>
              var merged := DamageFrame(s.buffers, own, s.buffers[s.next.value].frameDamage);
              var r := Release(s.(buffers := merged), s.next.value);
              && own in r.buffers && DueStays(s.buffers, r.buffers, id)
              && r.buffers[own].frameDamage == s.buffers[own].frameDamage + s.buffers[s.next.value].frameDamage
  {
  }

  lemma WaitingDamages(p: Params, s: State, source: Picture, pixels: Picture, env: Env, id: BufferId, a: Account)
    requires p.Valid() && Inv(p, s) && Legal(p, s, Ready(source, pixels, env)) && Exact(s, id, a)
    requires s.next.Some? || TimeLeft(p.maxRate, s.lastSend, env.now) > 0
    ensures var e := Ready(source, pixels, env); Exact(Step(p, s, e).state, id, After(p, s, e, id, a))
  {
    hide Inv, SendNextFrame, TimeLeft, Legal, FrameReady, Spread, Release, DamageFrame, Grants, Clean, Rectangle;
    ReadyHolds(p, s, source, pixels, env);
    ReadySpreads(p, s, source, pixels, env, id, a);
    ReadyInFlight(p, s, source, pixels, env);
    var own := s.buffer.value;
    var s1 := FrameReady(CompositorWrites(s, own, source, pixels), own);
    if s.next.Some? { WaitsWith(s1, own, id); }
  }

  lemma SentDamages(p: Params, s: State, source: Picture, pixels: Picture, env: Env, id: BufferId, a: Account)
    requires p.Valid() && Inv(p, s) && Legal(p, s, Ready(source, pixels, env)) && Exact(s, id, a)
    requires s.next.None? && TimeLeft(p.maxRate, s.lastSend, env.now) <= 0
    ensures var e := Ready(source, pixels, env); Exact(Step(p, s, e).state, id, After(p, s, e, id, a))
  {
    hide Inv, SendNextFrame, TimeLeft, Legal, FrameReady, Spread, Release, DamageFrame, Grants, Clean, Rectangle;
    ReadyHolds(p, s, source, pixels, env);
    ReadySpreads(p, s, source, pixels, env, id, a);
    ReadyInFlight(p, s, source, pixels, env);
    var own := s.buffer.value;
    var s2 := FrameReady(CompositorWrites(s, own, source, pixels), own).(next := Some(own));
    SendDamages(p, s2, env, id);
    SameGrants(p, s.(vncRefs := s.vncRefs + {own}), s2.(vncRefs := s2.vncRefs + {own}), env);
  }

  lemma ReadyDamages(p: Params, s: State, source: Picture, pixels: Picture, env: Env, id: BufferId, a: Account)
    requires p.Valid() && Inv(p, s) && Legal(p, s, Ready(source, pixels, env)) && Exact(s, id, a)
    ensures var e := Ready(source, pixels, env); Exact(Step(p, s, e).state, id, After(p, s, e, id, a))
  {
    hide Inv, Legal, Step, Exact, After, TimeLeft;
    if s.next.Some? || TimeLeft(p.maxRate, s.lastSend, env.now) > 0 {
      WaitingDamages(p, s, source, pixels, env, id, a);
    } else {
      SentDamages(p, s, source, pixels, env, id, a);
    }
  }

  lemma TimeoutDamages(p: Params, s: State, env: Env, id: BufferId, a: Account)
    requires p.Valid() && Inv(p, s) && Legal(p, s, RateTimeout(env)) && Exact(s, id, a)
    ensures var e := RateTimeout(env); Exact(Step(p, s, e).state, id, After(p, s, e, id, a))
  {
    InvIsApart(p, s);
    assert s.next.Some?;
    hide Inv, SendNextFrame, TimeLeft, Grants, Clean, Rectangle;
    var s1 := s.(limiter := None);
    SendDamages(p, s1, env, id);
    SameGrants(p, s.(vncRefs := s.vncRefs + {s.next.value}), s1.(vncRefs := s.vncRefs + {s.next.value}), env);
  }

  lemma FailedDamages(p: Params, s: State, constraints: bool, env: Env, id: BufferId, a: Account)
    requires p.Valid() && Inv(p, s) && Legal(p, s, Failed(constraints, env)) && Exact(s, id, a)
    ensures var e := Failed(constraints, env); Exact(Step(p, s, e).state, id, After(p, s, e, id, a))
  {
    InvIsApart(p, s);
    assert s.frame;
    hide Inv, Start, Release, TimeLeft, Grants, Clean, Rectangle;
    ReleaseDamages(s.(frame := false), s.buffer.value, id);
    var s1 := ReleaseOption(s.(frame := false), s.buffer).(buffer := None);
    StartDamages(p, s1, false, env, id);
    FailedPool(s);
    SameGrants(p, ReleaseOption(s, s.buffer), s1, env);
  }

  lemma FailedPool(s: State)
    ensures ReleaseOption(s.(frame := false), s.buffer).buffers == ReleaseOption(s, s.buffer).buffers
  {
  }

  lemma DoneDamages(p: Params, s: State, accepted: bool, env: Env, id: BufferId, a: Account)
    requires p.Valid() && Inv(p, s) && Exact(s, id, a) && Step(p, s, ConstraintsDone(accepted, env)).Ok?
    ensures var e := ConstraintsDone(accepted, env); Exact(Step(p, s, e).state, id, After(p, s, e, id, a))
  {
    InvIsApart(p, s);
    hide Inv, ScheduleCapture, Reconfigure, Clean, Rectangle, Grants;
    var s1 := Reconfigure(s, env.reconfigure);
    ReconfigureDamages(s, env.reconfigure, id);
    if accepted && s1.shouldStart {
      ScheduleDamages(p, s1, env.(reconfigure := false), id);
      assert Grants(p, s1, env.(reconfigure := false)) <==> Grants(p, s, env) by { ConfiguredGrants(p, s, env); }
    }
  }

  lemma ConfiguredGrants(p: Params, s: State, env: Env)
    ensures Grants(p, Reconfigure(s, env.reconfigure), env.(reconfigure := false)) <==> Grants(p, s, env)
  {
    hide Reap;
  }

  lemma TimerDamages(p: Params, s: State, env: Env, id: BufferId, a: Account)
    requires p.Valid() && Inv(p, s) && Exact(s, id, a) && Step(p, s, CaptureTimer(env)).Ok?
    ensures var e := CaptureTimer(env); Exact(Step(p, s, e).state, id, After(p, s, e, id, a))
  {
    InvIsApart(p, s);
    hide Inv, ScheduleCapture, Clean, Rectangle, Grants;
    ScheduleDamages(p, s.(timer := None), env, id);
    SameGrants(p, s, s.(timer := None), env);
  }

  lemma StopDamages(p: Params, s: State, junk: Picture, id: BufferId, a: Account)
    requires p.Valid() && Inv(p, s) && Exact(s, id, a)
    ensures Exact(StopCapture(Spoil(s, junk)), id, a)
  {
    InvIsApart(p, s);
    hide Inv, Release, Rectangle;
    if s.buffer.Some? {
      var s1 := Spoil(s, junk).(timer := None);
      ReleaseDamages(s1, s.buffer.value, id);
    }
  }

  lemma DropDamages(p: Params, s: State, dropped: BufferId, id: BufferId, a: Account)
    requires p.Valid() && Inv(p, s) && Exact(s, id, a)
    ensures Exact(Step(p, s, VncDrop(dropped)).state, id, a)
  {
    InvIsApart(p, s);
    hide Inv;
  }

  lemma OtherDamages(p: Params, s: State, e: Event, id: BufferId, a: Account)
    requires p.Valid() && Inv(p, s) && Exact(s, id, a) && Legal(p, s, e)
    requires e.StartImmediate? || e.Damage? || e.ConstraintsChanged?
    ensures Step(p, s, e).Ok? && Exact(Step(p, s, e).state, id, After(p, s, e, id, a))
  {
    InvIsApart(p, s);
    hide Inv, Start, Rectangle, Clean, Grants;
    if e.StartImmediate? { StartDamages(p, s, true, e.env, id); }
  }

  lemma StepDamages(p: Params, s: State, e: Event, id: BufferId, a: Account)
    requires p.Valid() && Inv(p, s) && Exact(s, id, a) && Legal(p, s, e) && Step(p, s, e).Ok?
    ensures Exact(Step(p, s, e).state, id, After(p, s, e, id, a))
  {
    hide Inv, Legal, Step, Exact, StopCapture, Spoil;
    match e
    case Stop(junk) => StopIs(p, s, e, id, a);
    case PowerOff(junk, _) => StopIs(p, s, e, id, a);
    case ConstraintsDone(accepted, env) => DoneDamages(p, s, accepted, env, id, a);
    case CaptureTimer(env) => TimerDamages(p, s, env, id, a);
    case Ready(source, pixels, env) => ReadyDamages(p, s, source, pixels, env, id, a);
    case Failed(constraints, env) => FailedDamages(p, s, constraints, env, id, a);
    case RateTimeout(env) => TimeoutDamages(p, s, env, id, a);
    case VncDrop(dropped) => DropDamages(p, s, dropped, id, a);
    case _ => OtherDamages(p, s, e, id, a);
  }

  lemma StopIs(p: Params, s: State, e: Event, id: BufferId, a: Account)
    requires p.Valid() && Inv(p, s) && Exact(s, id, a) && (e.Stop? || e.PowerOff?)
    ensures Exact(Step(p, s, e).state, id, After(p, s, e, id, a))
  {
    hide Inv, StopCapture, Spoil;
    StopDamages(p, s, e.junk, id, a);
  }

  // ---------------------------------------------------------------------------------------------------
  // Runs

  const NOTHING := Account({}, {}, {})

  ghost function AfterAll(p: Params, s: State, events: seq<Event>, id: BufferId, a: Account): (r: Account)
    requires p.Valid()
    decreases |events|
  {
    if events == [] || Step(p, s, events[0]).AssertFailed? then a
    else AfterAll(p, Step(p, s, events[0]).state, events[1..], id, After(p, s, events[0], id, a))
  }

  lemma {:induction false} RunDamages(p: Params, s: State, events: seq<Event>, id: BufferId, a: Account)
    requires p.Valid() && Inv(p, s) && Exact(s, id, a) && LegalRun(p, s, events) && Run(p, s, events).Ok?
    ensures Exact(Run(p, s, events).state, id, AfterAll(p, s, events, id, a))
    decreases |events|
  {
    hide Inv, Legal, Step, Exact, After;
    if events != [] {
      StepKeepsInv(p, s, events[0]);
      StepDamages(p, s, events[0], id, a);
      RunDamages(p, Step(p, s, events[0]).state, events[1..], id, After(p, s, events[0], id, a));
    }
  }

  /** From the start, over every legal run that does not stop at the assertion: the frame in flight has exactly the
      damage reported since its request, the waiting frame that of all frames delivered since the last one sent, and
      each buffer owes exactly the damage of the frames delivered since it was captured to. */
  lemma DamageIsExact(p: Params, s: State, events: seq<Event>, id: BufferId)
    requires p.Valid() && Init(p, s) && LegalRun(p, s, events) && Run(p, s, events).Ok?
    ensures var r, a := Run(p, s, events).state, AfterAll(p, s, events, id, NOTHING);
            && (r.frame ==> r.buffer.Some? && r.buffer.value in r.buffers &&
                            r.buffers[r.buffer.value].frameDamage == a.reported == r.world.announced)
            && (r.next.Some? ==> r.next.value in r.buffers && r.buffers[r.next.value].frameDamage == a.pending)
            && (id in r.buffers ==> r.buffers[id].bufferDamage == a.owed)
  {
    assert Inv(p, s) && Exact(s, id, NOTHING);
    RunDamages(p, s, events, id, NOTHING);
    RunKeepsInv(p, s, events);
    hide Run, AfterAll, Shapes, Owned, Fresh, InSight, Paced;
  }
}
