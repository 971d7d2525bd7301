/** The capture pipeline as it runs: the pool, the capture object and the display hold references to the same
    buffer objects and update them in place. */
module CaptureProgram {
  import opened Wrappers
  import opened Regions
  import opened Pacing
  import opened Capture
  import opened CaptureInvariants
  import opened CaptureView
  import opened BufferPools

  class Pipeline {
    const p: Params
    const pool: BufferPool

    var session: bool
    var frame: bool
    var buffer: WvBuffer?
    var haveConstraints: bool
    var shouldStart: bool
    var frameCount: nat
    var timer: Option<int>
    var lastTime: int

    var next: WvBuffer?
    var limiter: Option<int>
    var lastSend: int

    ghost var world: World
    ghost var mark: Mark

    ghost function Abs(): (s: State)
      reads this, pool
    {
      State(pool.contents, pool.generation, pool.refs, session, frame, IdOf(buffer), haveConstraints, shouldStart,
            frameCount, timer, lastTime, IdOf(next), limiter, lastSend, world)
    }

    /** The capture object and the display hold different buffers of the pool, both acquired and neither
        released. */
    ghost predicate Valid()
      reads this, pool, pool.repr
    {
      && p.Valid() && pool.Valid()
      && (buffer != null ==> buffer in pool.repr && buffer.framed)
      && (next != null ==> next in pool.repr && next.framed)
      && (buffer != null ==> buffer != next)
    }

    /** A buffer in the hand of a handler is a third one. */
    ghost predicate Apart(hand: WvBuffer?)
      reads this, pool, hand
    {
      hand != null ==> hand in pool.repr && hand.framed && hand != buffer && hand != next
    }

    constructor (p: Params, ghost viewer: Picture)
      requires p.Valid() && viewer.Keys == p.Full()
      ensures Valid() && this.p == p && fresh(pool) && fresh(pool.repr)
      ensures Init(p, Abs()) && Inv(p, Abs()) && View(p, Abs(), mark)
    {
      this.p := p;
      pool := new BufferPool();
      session, frame, buffer, haveConstraints, shouldStart := false, false, null, false, false;
      frameCount, timer, lastTime := 0, None, 0;
      next, limiter, lastSend := null, None, 0;
      world := World({}, {}, false, map[], map[], viewer, None, []);
      mark := CLEAN;
    }

    // -------------------------------------------------------------------------------------------------
    // src/ext-image-copy-capture.c

    /** The buffer of the session is released, once, and the reference to it dropped. */
    method DropBuffer()
      requires Valid()
      modifies this`buffer, pool, pool.repr
      ensures Valid() && pool.KeepsFrames(old(buffer)) && pool.repr == old(pool.repr) && buffer == null
      ensures Abs() == ReleaseOption(old(Abs()), old(Abs()).buffer).(buffer := None)
    {
      hide Reaped;
      if buffer != null {
        hide BufferPool.Valid;
        pool.Lookup(buffer);
        pool.Release(buffer);
      }
      buffer := null;
    }

    method DestroySession()
      modifies this`haveConstraints, this`frame, this`session, this`world
      ensures !haveConstraints && !frame && !session && world == old(world).(delivered := false)
    {
      if haveConstraints { haveConstraints := false; }
      frame := false;
      session := false;
      world := world.(delivered := false);
    }

    method CloseSession()
      requires Valid()
      modifies this`buffer, this`haveConstraints, this`frame, this`session, this`world, pool, pool.repr
      ensures Valid() && pool.KeepsFrames(old(buffer)) && pool.repr == old(pool.repr) && buffer == null
      ensures Abs() == DeinitSession(old(Abs()))
    {
      hide Reaped, BufferPool.Valid;
      DestroySession();
      DropBuffer();
    }

    method AcquireBuffer(supply: Supply, ghost hand: WvBuffer?)
      requires Valid() && Apart(hand) && buffer == null
      modifies this`buffer, pool, pool.repr
      ensures Valid() && Apart(hand) && old(pool.repr) <= pool.repr && fresh(pool.repr - old(pool.repr))
      ensures var (s1, id) := Acquire(p, old(Abs()), supply); Abs() == s1.(buffer := id)
      ensures buffer != null ==> buffer.id in pool.contents && pool.contents[buffer.id] == buffer.Value()
    {
      hide BufferPool.Valid, Acquired;
      buffer := pool.Acquire(p.Full(), supply);
      if buffer != null { pool.Lookup(buffer); }
    }

    method BeginFrame(now: int)
      requires buffer != null
      modifies this`frame, this`world, this`lastTime
      ensures frame && lastTime == now && world == Requested(old(world), buffer.bufferDamage)
    {
      frame := true;
      world := Requested(world, buffer.bufferDamage);
      lastTime := now;
    }

    method CaptureNow(env: Env, ghost hand: WvBuffer?)
      requires Valid() && Apart(hand) && !frame && buffer == null
      modifies this, pool, pool.repr
      ensures Valid() && Apart(hand) && old(pool.repr) <= pool.repr && fresh(pool.repr - old(pool.repr))
      ensures Abs() == ScheduleCapture(p, old(Abs()), env)
    {
      hide Acquire, Reconfigure, BufferPool.Valid, Requested;
      ReconfigurePool(env.reconfigure, hand);
      AcquireBuffer(env.supply, hand);
      if buffer != null { BeginFrame(env.now); }
    }

    method ReconfigurePool(changed: bool, ghost hand: WvBuffer?)
      requires Valid() && Apart(hand)
      modifies pool
      ensures Valid() && Apart(hand) && pool.repr == old(pool.repr) && Abs() == Reconfigure(old(Abs()), changed)
    {
      hide BufferPool.Valid, Reaped;
      pool.Reconfigure(changed);
    }

    method OpenSession()
      requires Valid()
      modifies this, pool, pool.repr
      ensures Valid() && pool.KeepsFrames(old(buffer)) && pool.repr == old(pool.repr)
      ensures next == old(next) && buffer == null
      ensures Abs() == DeinitSession(old(Abs())).(session := true, shouldStart := true)
    {
      hide DeinitSession, BufferPool.Valid;
      CloseSession();
      session := true;
      shouldStart := true;
    }

    method StartCapture(immediate: bool, env: Env, ghost hand: WvBuffer?)
      requires Valid() && Apart(hand) && (buffer != null ==> frame)
      modifies this, pool, pool.repr
      ensures Valid() && Apart(hand) && old(pool.repr) <= pool.repr && fresh(pool.repr - old(pool.repr))
      ensures Abs() == Start(p, old(Abs()), immediate, env)
    {
      hide BufferPool.Valid, DeinitSession, ScheduleCapture;
      if frame { return; }
      if immediate || frameCount == 0 {
        OpenSession();
        return;
      }
      if !haveConstraints {
        shouldStart := true;
        return;
      }
      var left := TimeLeft(2 * p.maxRate, lastTime, env.now);
      if left > 0 {
        timer := Some(env.now + left);
        return;
      }
      timer := None;
      CaptureNow(env, hand);
    }

    method StopAll()
      requires Valid()
      modifies this, pool, pool.repr
      ensures Valid() && pool.repr == old(pool.repr)
      ensures Abs() == StopCapture(old(Abs()))
    {
      hide BufferPool.Valid, DeinitSession;
      timer := None;
      CloseSession();
      frameCount := 0;
    }

    method HandleConstraintsDone(accepted: bool, env: Env)
      requires Valid() && (buffer != null <==> frame) && Step(p, Abs(), ConstraintsDone(accepted, env)).Ok?
      modifies this, pool, pool.repr
      ensures Valid() && old(pool.repr) <= pool.repr && fresh(pool.repr - old(pool.repr))
      ensures Ok(Abs()) == Step(p, old(Abs()), ConstraintsDone(accepted, env))
    {
      hide BufferPool.Valid, Reconfigure, ScheduleCapture;
      ReconfigurePool(env.reconfigure, null);
      if !accepted { return; }
      if shouldStart {
        CaptureNow(env.(reconfigure := false), null);
        shouldStart := false;
      }
      haveConstraints := true;
    }

    method HandleTimer(env: Env)
      requires Valid() && !frame && buffer == null
      modifies this, pool, pool.repr
      ensures Valid() && old(pool.repr) <= pool.repr && fresh(pool.repr - old(pool.repr))
      ensures Abs() == ScheduleCapture(p, old(Abs()).(timer := None), env)
    {
      hide BufferPool.Valid, ScheduleCapture;
      timer := None;
      CaptureNow(env, null);
    }

    method HandleDamage(x: int, y: int, width: int, height: int)
      requires Valid() && buffer != null
      modifies this`world, pool, pool.repr
      ensures Valid() && pool.repr == old(pool.repr)
      ensures Ok(Abs()) == Step(p, old(Abs()), Damage(x, y, width, height))
    {
      hide BufferPool.Valid, Rectangle, DamageFrame, Announced;
      var area := Rectangle(x, y, width, height);
      pool.Lookup(buffer);
      pool.DamageFrame(buffer, area);
      world := Announced(world, area);
    }

    method SpreadDamage()
      requires Valid() && buffer != null
      modifies pool, pool.repr
      ensures Valid() && pool.repr == old(pool.repr) && buffer.pixels == old(buffer.pixels)
      ensures buffer.id in old(pool.contents)
      ensures Abs() == old(Abs()).(buffers := Spread(old(pool.contents), buffer.id))
    {
      hide BufferPool.Valid, Spread;
      pool.SpreadDamage(buffer);
    }

    /** The pixels are already in the buffer when this runs: the compositor wrote them. */
    method FinishFrame() returns (b: WvBuffer)
      requires Valid() && buffer != null
      modifies this`frame, this`buffer, this`frameCount, pool, pool.repr
      ensures Valid() && b == old(buffer) && buffer == null && !frame && Apart(b) && pool.repr == old(pool.repr)
      ensures b.pixels == old(b.pixels) && b.id in old(pool.contents) && Abs() == FrameReady(old(Abs()), b.id)
    {
      hide BufferPool.Valid, Spread;
      b := buffer;
      SpreadDamage();
      Forget();
    }

    method Forget()
      modifies this`frame, this`buffer, this`frameCount
      ensures !frame && buffer == null && frameCount == (old(frameCount) + 1) % FRAME_COUNT_LIMIT
    {
      frame := false;
      buffer := null;
      frameCount := (frameCount + 1) % FRAME_COUNT_LIMIT;
    }

    method HandleFailed(constraints: bool, env: Env)
      requires Valid() && (buffer != null <==> frame)
      modifies this, pool, pool.repr
      ensures Valid() && old(pool.repr) <= pool.repr && fresh(pool.repr - old(pool.repr))
      ensures Ok(Abs()) == Step(p, old(Abs()), Failed(constraints, env))
    {
      hide BufferPool.Valid, Reaped, Start;
      frame := false;
      DropBuffer();
      if constraints {
        StartCapture(false, env, null);
      }
    }

    // -------------------------------------------------------------------------------------------------
    // src/main.c

    method ReferenceFrame(b: WvBuffer)
      requires Valid() && Apart(b)
      modifies pool
      ensures Valid() && Apart(b) && pool.repr == old(pool.repr)
      ensures Abs() == old(Abs()).(vncRefs := old(Abs()).vncRefs + {b.id})
    {
      hide BufferPool.Valid;
      pool.Reference(b);
    }

    method FeedFrame(b: WvBuffer, now: int)
      requires Valid() && Apart(b) && world.viewer.Keys <= b.pixels.Keys
      modifies this`world, pool
      ensures Valid() && Apart(b) && pool.repr == old(pool.repr)
      ensures b.id in old(pool.contents) && Abs() == Feed(p, old(Abs()), b.id, now)
    {
      hide BufferPool.Valid, Drawn;
      pool.Lookup(b);
      ReferenceFrame(b);
      world := Drawn(world, p.Full(), b.id, pool.contents[b.id], now);
    }

    /** The frame in hand is released, once. */
    method ReleaseHand(b: WvBuffer)
      requires Valid() && Apart(b)
      modifies pool, pool.repr
      ensures Valid() && pool.repr == old(pool.repr) && Abs() == Release(old(Abs()), b.id)
    {
      hide BufferPool.Valid, Reaped, Unframed;
      pool.Lookup(b);
      pool.Release(b);
    }

    method SendFrame(env: Env)
      requires Valid() && (buffer != null <==> frame)
      requires next != null ==> world.viewer.Keys <= next.pixels.Keys
      modifies this, pool, pool.repr
      ensures Valid() && old(pool.repr) <= pool.repr && fresh(pool.repr - old(pool.repr))
      ensures Abs() == SendNextFrame(p, old(Abs()), env)
    {
      hide BufferPool.Valid, Feed, Start, Release;
      var pending := next;
      next := null;
      if pending == null { return; }
      SendHand(pending, env);
      lastSend := env.now;
    }

    method SendHand(b: WvBuffer, env: Env)
      requires Valid() && Apart(b) && (buffer != null <==> frame) && world.viewer.Keys <= b.pixels.Keys
      modifies this, pool, pool.repr
      ensures Valid() && old(pool.repr) <= pool.repr && fresh(pool.repr - old(pool.repr))
      ensures b.id in old(pool.contents)
      ensures Abs() == Release(Start(p, Feed(p, old(Abs()), b.id, env.now), false, env), b.id)
    {
      hide BufferPool.Valid, Feed, Start, Release;
      FeedFrame(b, env.now);
      StartCapture(false, env, b);
      ReleaseHand(b);
    }

    /** The waiting frame gives its damage and its place to the new one. */
    method ReplaceNext(b: WvBuffer)
      requires Valid() && Apart(b) && next != null
      modifies this`next, pool, pool.repr
      ensures Valid() && pool.repr == old(pool.repr)
      ensures var s := old(Abs());
              && b.id in s.buffers && s.next.value in s.buffers
              && var merged := DamageFrame(s.buffers, b.id, s.buffers[s.next.value].frameDamage);
                 Abs() == Release(s.(buffers := merged), s.next.value).(next := Some(b.id))
    {
      hide BufferPool.Valid, Reaped, DamageFrame, Unframed;
      pool.Lookup(b);
      pool.Lookup(next);
      pool.Supersede(b, next);
      next := b;
    }

    method TakeFrame(b: WvBuffer, env: Env)
      requires Valid() && Apart(b) && (buffer != null <==> frame)
      requires world.viewer.Keys <= b.pixels.Keys
      modifies this, pool, pool.repr
      ensures Valid() && old(pool.repr) <= pool.repr && fresh(pool.repr - old(pool.repr))
      ensures b.id in old(pool.contents) && Abs() == ProcessFrame(p, old(Abs()), b.id, env)
    {
      hide BufferPool.Valid, Release, SendNextFrame, TimeLeft, DamageFrame;
      pool.Lookup(b);
      if next != null { pool.Lookup(next); }
      if next != null {
        ReplaceNext(b);
        return;
      }
      next := b;
      var left := TimeLeft(p.maxRate, lastSend, env.now);
      if left > 0 {
        limiter := Some(env.now + left);
      } else {
        SendFrame(env);
      }
    }

    method HandleReady(env: Env)
      requires Valid() && frame && buffer != null && world.viewer.Keys <= buffer.pixels.Keys
      modifies this, pool, pool.repr
      ensures Valid() && old(pool.repr) <= pool.repr && fresh(pool.repr - old(pool.repr))
      ensures old(buffer).id in old(pool.contents)
      ensures Abs() == ProcessFrame(p, FrameReady(old(Abs()), old(buffer).id), old(buffer).id, env)
    {
      hide BufferPool.Valid, FrameReady, ProcessFrame;
      pool.Lookup(buffer);
      var b := FinishFrame();
      TakeFrame(b, env);
    }

    method HandleRateTimeout(env: Env)
      requires Valid() && (buffer != null <==> frame) && (next != null ==> world.viewer.Keys <= next.pixels.Keys)
      modifies this, pool, pool.repr
      ensures Valid() && old(pool.repr) <= pool.repr && fresh(pool.repr - old(pool.repr))
      ensures Abs() == SendNextFrame(p, old(Abs()).(limiter := None), env)
    {
      hide BufferPool.Valid, SendNextFrame;
      limiter := None;
      SendFrame(env);
    }

    // -------------------------------------------------------------------------------------------------
    // The surroundings

    method CompositorCaptures(source: Picture, pixels: Picture)
      requires Valid() && buffer != null
      modifies this`world, pool, pool.repr
      ensures Valid() && pool.repr == old(pool.repr)
      ensures buffer.pixels == pixels && world.viewer == old(world.viewer)
      ensures buffer.id in old(pool.contents) && Abs() == CompositorWrites(old(Abs()), buffer.id, source, pixels)
    {
      hide BufferPool.Valid, Paint;
      pool.Lookup(buffer);
      pool.WritePixels(buffer, pixels);
      world := Delivered(world, buffer.id, source);
    }

    method SpoilInFlight(junk: Picture)
      requires Valid()
      modifies pool, pool.repr
      ensures Valid() && pool.repr == old(pool.repr) && Abs() == Spoil(old(Abs()), junk)
    {
      if frame && buffer != null {
        hide BufferPool.Valid, Paint;
        pool.Lookup(buffer);
        pool.WritePixels(buffer, junk);
      }
    }

    method DropReference(id: BufferId)
      requires Valid() && id in pool.refs
      modifies pool
      ensures Valid() && pool.repr == old(pool.repr)
      ensures Abs() == Reap(old(Abs()).(vncRefs := old(Abs()).vncRefs - {id}))
    {
      hide BufferPool.Valid, Reaped;
      pool.Unreference(id);
    }

    /** What the invariant says about the objects. */
    lemma HandlersMeet()
      requires Valid() && Inv(p, Abs())
      ensures buffer != null <==> frame
      ensures buffer != null ==> world.viewer.Keys == p.Full() && world.viewer.Keys <= buffer.pixels.Keys
      ensures next != null ==> world.viewer.Keys <= next.pixels.Keys
    {
      hide BufferPool.Valid;
      if buffer != null { pool.Lookup(buffer); }
      if next != null { pool.Lookup(next); }
    }

    /** One event, with what the compositor, the viewer and neatvnc do in it: unless it runs into the assertion,
        the program takes the step of the model, keeps its invariant and knows what the viewer shows. */
    method Handle(e: Event)
      requires Valid() && Inv(p, Abs()) && View(p, Abs(), mark) && Legal(p, Abs(), e) && Step(p, Abs(), e).Ok?
      modifies this, pool, pool.repr
      ensures Valid() && old(pool.repr) <= pool.repr && fresh(pool.repr - old(pool.repr))
      ensures Ok(Abs()) == Step(p, old(Abs()), e) && mark == Marked(p, old(Abs()), old(mark), e)
      ensures Inv(p, Abs()) && View(p, Abs(), mark)
    {
      hide Inv, View, Marked, Legal, Step, BufferPool.Valid;
      ghost var s, m := Abs(), mark;
      StepKeepsInv(p, s, e);
      StepKeepsView(p, s, m, e);
      Perform(e);
      mark := Marked(p, s, m, e);
    }

    method Perform(e: Event)
      requires Valid() && Inv(p, Abs()) && Legal(p, Abs(), e) && Step(p, Abs(), e).Ok?
      modifies this, pool, pool.repr
      ensures Valid() && old(pool.repr) <= pool.repr && fresh(pool.repr - old(pool.repr))
      ensures Ok(Abs()) == Step(p, old(Abs()), e)
    {
      hide BufferPool.Valid, Inv, Start, StopCapture, Spoil, SendNextFrame, ProcessFrame, FrameReady, CompositorWrites,
           ScheduleCapture, Reap, Captured;
      HandlersMeet();
      match e
      case StartImmediate(env) => StartCapture(true, env, null);
      case Stop(junk) =>
        SpoilInFlight(junk);
        StopAll();
      case PowerOff(junk, blank) =>
        SpoilInFlight(junk);
        StopAll();
        world := world.(viewer := blank, shown := Some(blank));
      case ConstraintsChanged =>
        if haveConstraints { haveConstraints := false; }
      case ConstraintsDone(accepted, env) => HandleConstraintsDone(accepted, env);
      case CaptureTimer(env) => HandleTimer(env);
      case Damage(x, y, width, height) => HandleDamage(x, y, width, height);
      case Ready(source, pixels, env) =>
        CompositorCaptures(source, pixels);
        HandleReady(env);
      case Failed(constraints, env) => HandleFailed(constraints, env);
      case RateTimeout(env) => HandleRateTimeout(env);
      case VncDrop(id) => DropReference(id);
    }
  }
}
