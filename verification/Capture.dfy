/** The damage-tracked capture pipeline.

The model joins the ext-image-copy-capture client (src/ext-image-copy-capture.c), its buffer pool
(src/buffer.c) and the frame path of the server (src/main.c) for one captured source. `World` holds what
the program cannot see: the requests and events on the wire, the pictures the compositor captured and the
screen of a viewer that copies only the damage it is told about. */
module Capture {
  import opened Wrappers
  import opened Regions
  import opened Pacing

  /** `framed` says that the wv_buffer holds an nvnc_frame, `generation` which nvnc pool allocated it. */
  datatype Buffer = Buffer(pixels: Picture, bufferDamage: Region, frameDamage: Region,
                           framed: bool, generation: nat)

  datatype World = World(
    requested: Region,                 // sent with damage_buffer for the frame in flight
    announced: Region,                 // received with damage for the frame in flight
    delivered: bool,                   // the session has sent a ready event
    last: Picture,                     // the source at the last ready event
    sources: map<BufferId, Picture>,   // the source at the last ready event of each buffer
    viewer: Picture,                   // the viewer's screen
    shown: Option<Picture>,            // the source picture of the last frame fed, or the blank screen
    feeds: seq<int>)                   // times of the feeds

  datatype State = State(
    // wv_buffer_pool, and the references neatvnc keeps to frames it was fed
    buffers: map<BufferId, Buffer>,
    generation: nat,
    vncRefs: set<BufferId>,
    // ext_image_copy_capture
    session: bool,
    frame: bool,
    buffer: Option<BufferId>,
    haveConstraints: bool,
    shouldStart: bool,
    frameCount: nat,
    timer: Option<int>,
    lastTime: int,
    // wayvnc and its display
    next: Option<BufferId>,
    limiter: Option<int>,
    lastSend: int,
    world: World)

  /** Which buffer the nvnc pool hands out: a free one, a new one or none. */
  datatype Supply = Reuse(id: BufferId) | Allocate(id: BufferId, pixels: Picture) | Exhausted

  /** What a handler reads from its surroundings: the clock, whether the preferred buffer format changed,
      and the pool's choice. */
  datatype Env = Env(now: int, reconfigure: bool, supply: Supply)

  datatype Event =
    | StartImmediate(env: Env)
    | Stop(junk: Picture)
    | PowerOff(junk: Picture, blank: Picture)
    | ConstraintsChanged
    | ConstraintsDone(accepted: bool, env: Env)
    | CaptureTimer(env: Env)
    | Damage(x: int, y: int, width: int, height: int)
    | Ready(source: Picture, pixels: Picture, env: Env)
    | Failed(constraints: bool, env: Env)
    | RateTimeout(env: Env)
    | VncDrop(id: BufferId)

  /** A step either completes or stops at the assertion in schedule_capture. */
  datatype Outcome = Ok(state: State) | AssertFailed

  // ---------------------------------------------------------------------------------------------------
  // src/buffer.c

  /** neatvnc destroys unreferenced buffers of a pool that has been dropped. */
  function Reaped(buffers: map<BufferId, Buffer>, vncRefs: set<BufferId>, generation: nat): (r: map<BufferId, Buffer>)
  {
    map id | id in buffers && (buffers[id].framed || id in vncRefs || buffers[id].generation == generation)
      :: buffers[id]
  }

  function Reap(s: State): (r: State)
    ensures r == s.(buffers := r.buffers)
  {
    s.(buffers := Reaped(s.buffers, s.vncRefs, s.generation))
  }

  function Reconfigure(s: State, reconfigure: bool): (r: State)
    ensures r == s.(buffers := r.buffers, generation := r.generation)
  {
    if reconfigure then Reap(s.(generation := s.generation + 1)) else s
  }

  predicate Free(buffers: map<BufferId, Buffer>, vncRefs: set<BufferId>, generation: nat, id: BufferId)
  {
    id in buffers && !buffers[id].framed && id !in vncRefs && buffers[id].generation == generation
  }

  /** The pool and the buffer handed out. */
  function Acquired(full: Region, buffers: map<BufferId, Buffer>, vncRefs: set<BufferId>, generation: nat,
                    supply: Supply): (r: (map<BufferId, Buffer>, Option<BufferId>))
  {
    match supply
    case Reuse(id) =>
      if Free(buffers, vncRefs, generation, id) then (buffers[id := buffers[id].(framed := true)], Some(id))
      else (buffers, None)
    case Allocate(id, pixels) =>
      if id !in buffers && pixels.Keys == full then
        (buffers[id := Buffer(pixels, full, {}, true, generation)], Some(id))
      else (buffers, None)
    case Exhausted => (buffers, None)
  }

  function Acquire(p: Params, s: State, supply: Supply): (r: (State, Option<BufferId>))
    ensures r.0 == s.(buffers := r.0.buffers)
  {
    var (buffers, id) := Acquired(p.Full(), s.buffers, s.vncRefs, s.generation, supply);
    (s.(buffers := buffers), id)
  }

  /** The buffer gives up its frame and the damage of it. */
  function Unframed(buffers: map<BufferId, Buffer>, id: BufferId): (r: map<BufferId, Buffer>)
    requires id in buffers
  {
    buffers[id := buffers[id].(framed := false, frameDamage := {})]
  }

  function Release(s: State, id: BufferId): (r: State)
    ensures r == s.(buffers := r.buffers)
  {
    if id !in s.buffers then s else Reap(s.(buffers := Unframed(s.buffers, id)))
  }

  function ReleaseOption(s: State, id: Option<BufferId>): (r: State)
    ensures r == s.(buffers := r.buffers)
  {
    if id.Some? then Release(s, id.value) else s
  }

  function DamageAll(buffers: map<BufferId, Buffer>, region: Region): (r: map<BufferId, Buffer>)
  {
    map id | id in buffers :: buffers[id].(bufferDamage := buffers[id].bufferDamage + region)
  }

  function DamageFrame(buffers: map<BufferId, Buffer>, id: BufferId, region: Region): (r: map<BufferId, Buffer>)
    requires id in buffers
  {
    buffers[id := buffers[id].(frameDamage := buffers[id].frameDamage + region)]
  }

  function Paint(buffers: map<BufferId, Buffer>, id: BufferId, pixels: Picture): (r: map<BufferId, Buffer>)
    requires id in buffers
  {
    buffers[id := buffers[id].(pixels := pixels)]
  }

  /** The damage of a finished frame is due in every buffer but its own. */
  function Spread(buffers: map<BufferId, Buffer>, id: BufferId): (r: map<BufferId, Buffer>)
    requires id in buffers
  {
    var damaged := DamageAll(buffers, buffers[id].frameDamage);
    damaged[id := damaged[id].(bufferDamage := {})]
  }

  // ---------------------------------------------------------------------------------------------------
  // src/ext-image-copy-capture.c

  /** A buffer whose frame is destroyed while the compositor may be writing to it holds anything. */
  function Spoil(s: State, junk: Picture): (r: State)
    ensures r == s.(buffers := r.buffers)
  {
    if s.frame && s.buffer.Some? && s.buffer.value in s.buffers then
      var id := s.buffer.value;
      s.(buffers := Paint(s.buffers, id, junk))
    else s
  }

  function DeinitSession(s: State): (r: State)
  {
    ReleaseOption(s, s.buffer).(haveConstraints := false, frame := false, session := false, buffer := None,
                                world := s.world.(delivered := false))
  }

  function Requested(world: World, region: Region): (r: World)
  {
    world.(requested := region, announced := {})
  }

  function Announced(world: World, region: Region): (r: World)
  {
    world.(announced := world.announced + region)
  }

  function ScheduleCapture(p: Params, s: State, env: Env): (r: State)
    ensures r == s.(buffers := r.buffers, generation := r.generation, buffer := r.buffer, frame := r.frame,
                   lastTime := r.lastTime, world := r.world)
    ensures r.world == s.world.(requested := r.world.requested, announced := r.world.announced)
  {
    var (s1, id) := Acquire(p, Reconfigure(s, env.reconfigure), env.supply);
    if id.Some? && id.value in s1.buffers then
      s1.(buffer := id, frame := true, lastTime := env.now,
          world := Requested(s1.world, s1.buffers[id.value].bufferDamage))
    else s1.(buffer := None)
  }

  function Start(p: Params, s: State, immediate: bool, env: Env): (r: State)
    requires p.Valid()
  {
    if s.frame then s
    else if immediate || s.frameCount == 0 then DeinitSession(s).(session := true, shouldStart := true)
    else if !s.haveConstraints then s.(shouldStart := true)
    else
      var left := TimeLeft(2 * p.maxRate, s.lastTime, env.now);
      if left > 0 then s.(timer := Some(env.now + left))
      else ScheduleCapture(p, s.(timer := None), env)
  }

  function StopCapture(s: State): (r: State)
  {
    DeinitSession(s.(timer := None)).(frameCount := 0)
  }

  // ---------------------------------------------------------------------------------------------------
  // src/main.c

  /** The viewer copies the damage of a frame. */
  function Drawn(world: World, full: Region, id: BufferId, b: Buffer, now: int): (r: World)
    requires world.viewer.Keys <= b.pixels.Keys
  {
    world.(viewer := Overlay(world.viewer, b.pixels, b.frameDamage * full),
           shown := if id in world.sources then Some(world.sources[id]) else None,
           feeds := world.feeds + [now])
  }

  function Feed(p: Params, s: State, id: BufferId, now: int): (r: State)
    requires id in s.buffers
  {
    var b := s.buffers[id];
    if s.world.viewer.Keys <= b.pixels.Keys then
      s.(vncRefs := s.vncRefs + {id}, world := Drawn(s.world, p.Full(), id, b, now))
    else s
  }

  function SendNextFrame(p: Params, s: State, env: Env): (r: State)
    requires p.Valid()
  {
    if s.next.None? || s.next.value !in s.buffers then s.(next := None)
    else
      var id := s.next.value;
      var s1 := Feed(p, s.(next := None), id, env.now);
      var s2 := Start(p, s1, false, env);
      Release(s2, id).(lastSend := env.now)
  }

  function ProcessFrame(p: Params, s: State, id: BufferId, env: Env): (r: State)
    requires p.Valid()
    requires id in s.buffers
  {
    if s.next.Some? && s.next.value in s.buffers then
      var merged := DamageFrame(s.buffers, id, s.buffers[s.next.value].frameDamage);
      Release(s.(buffers := merged), s.next.value).(next := Some(id))
    else
      var left := TimeLeft(p.maxRate, s.lastSend, env.now);
      if left > 0 then s.(next := Some(id), limiter := Some(env.now + left))
      else SendNextFrame(p, s.(next := Some(id)), env)
  }

  const FRAME_COUNT_LIMIT := 0x1_0000_0000

  function Delivered(world: World, id: BufferId, source: Picture): (r: World)
  {
    world.(delivered := true, last := source, sources := world.sources[id := source])
  }

  /** The compositor's part of a successful capture. */
  function CompositorWrites(s: State, id: BufferId, source: Picture, pixels: Picture): (r: State)
    requires id in s.buffers
  {
    s.(buffers := Paint(s.buffers, id, pixels), world := Delivered(s.world, id, source))
  }

  /** The ready handler up to the call of on_done. */
  function FrameReady(s: State, id: BufferId): (r: State)
    requires id in s.buffers
  {
    s.(frame := false, buffers := Spread(s.buffers, id), buffer := None,
       frameCount := (s.frameCount + 1) % FRAME_COUNT_LIMIT)
  }

  // ---------------------------------------------------------------------------------------------------
  // Events

  /** What the compositor, the timers and neatvnc promise about the events they raise. A capture updates
      at least the requested and the announced damage, the announced damage covers every change since the
      last ready event, and the first frame of a session is announced in full. */
  ghost predicate Legal(p: Params, s: State, e: Event)
  {
    match e
    case StartImmediate(_) => true
    case Stop(junk) => junk.Keys == p.Full()
    case PowerOff(junk, blank) => junk.Keys == p.Full() && blank.Keys == p.Full()
    case ConstraintsChanged => s.session
    case ConstraintsDone(_, _) => s.session
    case CaptureTimer(env) => s.timer.Some? && env.now >= s.timer.value
    case Damage(_, _, _, _) => s.frame
    case Ready(source, pixels, _) =>
      && s.frame
      && source.Keys == pixels.Keys == p.Full()
      && (!s.world.delivered ==> p.Full() <= s.world.announced)
      && (s.world.delivered ==> AgreeOutside(source, s.world.last, p.Full(), s.world.announced))
      && Captured(p, s, source, pixels)
    case Failed(_, _) => s.frame
    case RateTimeout(env) => s.limiter.Some? && env.now >= s.limiter.value
    case VncDrop(id) => id in s.vncRefs
  }

  ghost predicate Captured(p: Params, s: State, source: Picture, pixels: Picture)
  {
    s.buffer.Some? && s.buffer.value in s.buffers &&
    forall q | q in p.Full() && q in pixels && q in source && q in s.buffers[s.buffer.value].pixels ::
      || pixels[q] == source[q]
      || (q !in s.world.requested + s.world.announced && pixels[q] == s.buffers[s.buffer.value].pixels[q])
  }

  function Step(p: Params, s: State, e: Event): (r: Outcome)
    requires p.Valid()
  {
    match e
    case StartImmediate(env) => Ok(Start(p, s, true, env))
    case Stop(junk) => Ok(StopCapture(Spoil(s, junk)))
    case PowerOff(junk, blank) =>
      var s1 := StopCapture(Spoil(s, junk));
      Ok(s1.(world := s1.world.(viewer := blank, shown := Some(blank))))
    case ConstraintsChanged => Ok(s.(haveConstraints := false))
    case ConstraintsDone(accepted, env) =>
      var s1 := Reconfigure(s, env.reconfigure);
      if !accepted then Ok(s1)
      else if !s1.shouldStart then Ok(s1.(haveConstraints := true))
      else if s1.frame then AssertFailed
      else Ok(ScheduleCapture(p, s1, env.(reconfigure := false)).(shouldStart := false, haveConstraints := true))
    case CaptureTimer(env) =>
      if s.frame then AssertFailed else Ok(ScheduleCapture(p, s.(timer := None), env))
    case Damage(x, y, width, height) =>
      if s.buffer.Some? && s.buffer.value in s.buffers then
        var area := Rectangle(x, y, width, height);
        Ok(s.(buffers := DamageFrame(s.buffers, s.buffer.value, area), world := Announced(s.world, area)))
      else Ok(s)
    case Ready(source, pixels, env) =>
      if s.buffer.Some? && s.buffer.value in s.buffers then
        var id := s.buffer.value;
        Ok(ProcessFrame(p, FrameReady(CompositorWrites(s, id, source, pixels), id), id, env))
      else Ok(s)
    case Failed(constraints, env) =>
      var s1 := ReleaseOption(s.(frame := false), s.buffer).(buffer := None);
      Ok(if constraints then Start(p, s1, false, env) else s1)
    case RateTimeout(env) => Ok(SendNextFrame(p, s.(limiter := None), env))
    case VncDrop(id) => Ok(Reap(s.(vncRefs := s.vncRefs - {id})))
  }
}
