/** What every step of the capture pipeline keeps, and the theorems over whole runs. */
module CaptureInvariants {
  import opened Wrappers
  import opened Regions
  import opened Pacing
  import opened Capture

  // ---------------------------------------------------------------------------------------------------
  // The invariant, in parts. `hand` is the buffer a handler owns while it runs, if any.

  ghost function Holders(s: State): (r: set<BufferId>)
  {
    (if s.buffer.Some? then {s.buffer.value} else {}) + (if s.next.Some? then {s.next.value} else {})
  }

  ghost predicate Shapes(p: Params, s: State)
  {
    && (forall id | id in s.buffers :: s.buffers[id].pixels.Keys == p.Full())
    && (forall id | id in s.world.sources :: s.world.sources[id].Keys == p.Full())
    && s.world.viewer.Keys == p.Full()
    && (s.world.delivered ==> s.world.last.Keys == p.Full())
  }

  /** Every buffer with a frame has exactly one holder; a buffer without one has no frame damage; neatvnc
      and the program never hold a buffer together. */
  ghost predicate Owned(s: State, hand: set<BufferId>)
  {
    && Holders(s) + hand <= s.buffers.Keys
    && Holders(s) !! hand
    && (s.buffer.Some? && s.next.Some? ==> s.buffer != s.next)
    && (forall id | id in s.buffers :: s.buffers[id].framed <==> id in Holders(s) + hand)
    && (forall id | id in s.buffers && !s.buffers[id].framed :: s.buffers[id].frameDamage == {})
    && s.vncRefs <= s.buffers.Keys
    && s.vncRefs !! Holders(s)
  }

  /** A frame object comes with its buffer, and a waiting frame with the armed rate limiter. */
  ghost predicate Paired(s: State)
  {
    && (s.frame <==> s.buffer.Some?)
    && (s.next.Some? <==> s.limiter.Some?)
  }

  /** Once the session has delivered a frame, every buffer is current outside its buffer damage. */
  ghost predicate Fresh(p: Params, s: State)
  {
    && (s.world.delivered ==>
          forall id | id in s.buffers ::
            AgreeOutside(s.buffers[id].pixels, s.world.last, p.Full(), s.buffers[id].bufferDamage))
    && (s.frame && s.buffer.Some? && s.buffer.value in s.buffers ==>
          && s.buffers[s.buffer.value].bufferDamage == s.world.requested
          && s.buffers[s.buffer.value].frameDamage == s.world.announced)
  }

  /** A waiting frame holds all of its source picture. Once the session has delivered a frame, the viewer
      shows the last picture except where the waiting frame is damaged. */
  ghost predicate InSight(p: Params, s: State)
  {
    && (s.next.Some? ==>
          && s.next.value in s.buffers && s.next.value in s.world.sources
          && s.buffers[s.next.value].pixels == s.world.sources[s.next.value]
          && (s.world.delivered ==> s.world.sources[s.next.value] == s.world.last))
    && (s.world.delivered ==>
          if s.next.Some? && s.next.value in s.buffers then
            AgreeOutside(s.world.viewer, s.world.last, p.Full(), s.buffers[s.next.value].frameDamage)
          else s.world.viewer == s.world.last && s.world.shown == Some(s.world.last))
  }

  /** Feeds keep their distance, and a pending frame is sent no earlier than the distance allows. */
  ghost predicate Paced(p: Params, s: State)
    requires p.Valid()
  {
    && (forall i | 0 < i < |s.world.feeds| :: SpacedFeeds(p, s.world.feeds[i - 1], s.world.feeds[i]))
    && (s.world.feeds != [] ==> s.lastSend == s.world.feeds[|s.world.feeds| - 1])
    && (s.world.feeds != [] && s.limiter.Some? ==> SpacedFeeds(p, s.lastSend, s.limiter.value))
  }

  ghost predicate SpacedFeeds(p: Params, earlier: int, later: int)
    requires p.Valid()
  {
    (later - earlier) as real > 1000000.0 / p.maxRate as real - 1.0
  }

  ghost predicate Inv(p: Params, s: State)
    requires p.Valid()
  {
    Shapes(p, s) && Owned(s, {}) && Paired(s) && Fresh(p, s) && InSight(p, s) && Paced(p, s)
  }

  /** The invariant without pacing, which is the part that holds while a handler owns `hand`. */
  ghost predicate Sound(p: Params, s: State, hand: set<BufferId>)
  {
    Shapes(p, s) && Owned(s, hand) && Paired(s) && Fresh(p, s) && InSight(p, s)
  }

  // ---------------------------------------------------------------------------------------------------
  // Pool operations

  lemma ReapKeeps(p: Params, s: State, hand: set<BufferId>)
    requires Sound(p, s, hand)
    ensures Sound(p, Reap(s), hand)
  {
  }

  lemma ReleaseKeeps(p: Params, s: State, hand: set<BufferId>, id: BufferId)
    requires Sound(p, s, hand) && id in hand
    ensures Sound(p, Release(s, id), hand - {id})
  {
    var s1 := s.(buffers := s.buffers[id := s.buffers[id].(framed := false, frameDamage := {})]);
    assert Sound(p, s1, hand - {id});
    ReapKeeps(p, s1, hand - {id});
  }

  lemma ReconfigureKeeps(p: Params, s: State, reconfigure: bool, hand: set<BufferId>)
    requires Sound(p, s, hand)
    ensures Sound(p, Reconfigure(s, reconfigure), hand)
  {
    if reconfigure {
      var s1 := s.(generation := s.generation + 1);
      assert Sound(p, s1, hand);
      ReapKeeps(p, s1, hand);
    }
  }

  /** Putting a frame on an idle or a new buffer leaves it with the handler. */
  lemma FrameKeeps(p: Params, s: State, id: BufferId, b: Buffer, hand: set<BufferId>)
    requires Sound(p, s, hand)
    requires id in s.buffers ==> !s.buffers[id].framed
    requires b.framed && b.frameDamage == {} && b.pixels.Keys == p.Full()
    requires s.world.delivered ==> AgreeOutside(b.pixels, s.world.last, p.Full(), b.bufferDamage)
    ensures id !in hand && Sound(p, s.(buffers := s.buffers[id := b]), hand + {id})
  {
    var s1 := s.(buffers := s.buffers[id := b]);
    assert id !in Holders(s) + hand;
    assert Owned(s1, hand + {id});
    assert Fresh(p, s1);
    assert InSight(p, s1);
  }

  lemma ReuseKeeps(p: Params, s: State, id: BufferId, hand: set<BufferId>)
    requires Sound(p, s, hand) && Free(s.buffers, s.vncRefs, s.generation, id)
    ensures id !in hand && s.buffers[id].frameDamage == {}
    ensures Sound(p, s.(buffers := s.buffers[id := s.buffers[id].(framed := true)]), hand + {id})
  {
    hide Rectangle;
    FrameKeeps(p, s, id, s.buffers[id].(framed := true), hand);
  }

  lemma AllocateKeeps(p: Params, s: State, id: BufferId, pixels: Picture, hand: set<BufferId>)
    requires Sound(p, s, hand) && id !in s.buffers && pixels.Keys == p.Full()
    ensures id !in hand && id !in s.vncRefs
    ensures Sound(p, s.(buffers := s.buffers[id := Buffer(pixels, p.Full(), {}, true, s.generation)]), hand + {id})
  {
    hide Rectangle;
    FrameKeeps(p, s, id, Buffer(pixels, p.Full(), {}, true, s.generation), hand);
  }

  /** A buffer handed out is complete outside its damage, has no frame damage and no other holder. */
  lemma AcquireKeeps(p: Params, s: State, supply: Supply, hand: set<BufferId>)
    requires Sound(p, s, hand)
    ensures var (s1, id) := Acquire(p, s, supply);
            && (id.None? ==> s1 == s)
            && (id.Some? ==>
                  && id.value !in hand
                  && Sound(p, s1, hand + {id.value})
                  && s1.buffers[id.value].frameDamage == {}
                  && id.value !in s1.vncRefs)
  {
    hide Sound;
    match supply
    case Reuse(id) => if Free(s.buffers, s.vncRefs, s.generation, id) { ReuseKeeps(p, s, id, hand); }
    case Allocate(id, pixels) =>
      if id !in s.buffers && pixels.Keys == p.Full() { AllocateKeeps(p, s, id, pixels, hand); }
    case Exhausted =>
  }

  lemma AttachKeeps(p: Params, s: State, id: BufferId, now: int, hand: set<BufferId>)
    requires Sound(p, s, hand) && id in hand && id !in s.vncRefs && s.buffers[id].frameDamage == {}
    requires !s.frame
    ensures var s1 := s.(buffer := Some(id), frame := true, lastTime := now,
                         world := s.world.(requested := s.buffers[id].bufferDamage, announced := {}));
            Sound(p, s1, hand - {id})
  {
  }

  lemma ScheduleKeeps(p: Params, s: State, env: Env, hand: set<BufferId>)
    requires Sound(p, s, hand) && !s.frame
    ensures Sound(p, ScheduleCapture(p, s, env), hand)
  {
    var s0 := Reconfigure(s, env.reconfigure);
    ReconfigureKeeps(p, s, env.reconfigure, hand);
    AcquireKeeps(p, s0, env.supply, hand);
    var (s1, id) := Acquire(p, s0, env.supply);
    if id.Some? {
      AttachKeeps(p, s1, id.value, env.now, hand + {id.value});
      assert hand + {id.value} - {id.value} == hand;
    }
  }

  lemma DeinitKeeps(p: Params, s: State, hand: set<BufferId>)
    requires Sound(p, s, hand)
    ensures Sound(p, DeinitSession(s), hand)
    ensures var r := DeinitSession(s); !r.frame && !r.haveConstraints && !r.session && !r.world.delivered
  {
    var s1 := s.(haveConstraints := false, frame := false, session := false, buffer := None,
                 world := s.world.(delivered := false));
    if s.buffer.Some? {
      var id := s.buffer.value;
      assert Sound(p, s1, hand + {id});
      ReleaseKeeps(p, s1, hand + {id}, id);
      assert hand + {id} - {id} == hand;
      assert DeinitSession(s).buffers == Release(s1, id).buffers;
    }
  }

  lemma StartKeeps(p: Params, s: State, immediate: bool, env: Env, hand: set<BufferId>)
    requires p.Valid() && Sound(p, s, hand)
    ensures Sound(p, Start(p, s, immediate, env), hand)
  {
    if s.frame {
    } else if immediate || s.frameCount == 0 {
      DeinitKeeps(p, s, hand);
    } else if s.haveConstraints {
      var left := TimeLeft(2 * p.maxRate, s.lastTime, env.now);
      if left <= 0 { ScheduleKeeps(p, s.(timer := None), env, hand); }
    }
  }

  lemma SpoilKeeps(p: Params, s: State, junk: Picture)
    requires Sound(p, s, {}) && junk.Keys == p.Full() && !s.world.delivered
    ensures Sound(p, Spoil(s, junk), {})
  {
  }

  lemma QuietKeeps(p: Params, s: State)
    requires Sound(p, s, {})
    ensures Sound(p, s.(timer := None, world := s.world.(delivered := false)), {})
    ensures Sound(p, s.(frameCount := 0), {})
  {
  }

  lemma StopKeeps(p: Params, s: State, junk: Picture)
    requires Sound(p, s, {}) && junk.Keys == p.Full()
    ensures var r := StopCapture(Spoil(s, junk)); Sound(p, r, {}) && !r.world.delivered
  {
    var s1 := s.(timer := None, world := s.world.(delivered := false));
    QuietKeeps(p, s);
    SpoilKeeps(p, s1, junk);
    var s2 := Spoil(s1, junk);
    var s3 := DeinitSession(s2);
    DeinitKeeps(p, s2, {});
    QuietKeeps(p, s3);
    DeinitIgnores(Spoil(s, junk).(timer := None), s2);
  }

  /** Closing a session that has delivered frames and one that has not ends in the same state. */
  lemma DeinitIgnores(s: State, t: State)
    requires t == s.(world := s.world.(delivered := false))
    ensures DeinitSession(s) == DeinitSession(t)
  {
    if s.buffer.Some? {
      assert Release(s, s.buffer.value).buffers == Release(t, s.buffer.value).buffers;
    }
  }

  // ---------------------------------------------------------------------------------------------------
  // Frames

  /** Feeding a frame leaves the viewer with the whole source picture exactly when the viewer lacked nothing
      outside the frame's damage. */
  lemma FeedShowsExactly(p: Params, s: State, id: BufferId, now: int)
    requires Shapes(p, s) && id in s.buffers && id in s.world.sources && s.buffers[id].pixels == s.world.sources[id]
    ensures var r := Feed(p, s, id, now);
            && r == s.(vncRefs := s.vncRefs + {id}, world := r.world)
            && r.world == s.world.(viewer := r.world.viewer, shown := r.world.shown, feeds := r.world.feeds)
            && r.world.shown == Some(s.world.sources[id]) && r.world.feeds == s.world.feeds + [now]
            && r.world.viewer.Keys == p.Full()
            && (r.world.viewer == s.world.sources[id] <==>
                AgreeOutside(s.world.viewer, s.world.sources[id], p.Full(), s.buffers[id].frameDamage))
  {
    OverlayIsWhole(p, s.world.viewer, s.buffers[id].pixels, s.buffers[id].frameDamage);
  }

  lemma FeedKeeps(p: Params, s: State, now: int, hand: set<BufferId>)
    requires Sound(p, s, hand) && s.next.Some?
    ensures Sound(p, Feed(p, s.(next := None, limiter := None), s.next.value, now), hand + {s.next.value})
  {
    var id := s.next.value;
    var s0 := s.(next := None, limiter := None);
    var r := Feed(p, s0, id, now);
    FeedShowsExactly(p, s0, id, now);
    HandOver(s, r, hand);
    FeedLeaves(p, s, r);
  }

  lemma FeedLeaves(p: Params, s: State, r: State)
    requires Shapes(p, s) && Fresh(p, s) && Paired(s) && InSight(p, s) && s.next.Some?
    requires r.buffers == s.buffers && r.frame == s.frame && r.buffer == s.buffer && r.next.None? && r.limiter.None?
    requires r.world == s.world.(viewer := r.world.viewer, shown := r.world.shown, feeds := r.world.feeds)
    requires r.world.viewer.Keys == p.Full() && r.world.shown == Some(s.world.sources[s.next.value])
    requires s.world.delivered ==> r.world.viewer == s.world.last
    ensures Shapes(p, r) && Fresh(p, r) && Paired(r) && InSight(p, r)
  {
  }

  /** The waiting frame leaves the display, and neatvnc takes a reference to it. */
  lemma HandOver(s: State, r: State, hand: set<BufferId>)
    requires Owned(s, hand) && s.next.Some? && r.buffers == s.buffers && r.buffer == s.buffer && r.next.None?
    requires r.vncRefs == s.vncRefs + {s.next.value}
    ensures Owned(r, hand + {s.next.value})
  {
    assert Holders(r) + (hand + {s.next.value}) == Holders(s) + hand;
  }

  lemma OverlayIsWhole(p: Params, base: Picture, pixels: Picture, damage: Region)
    requires base.Keys == pixels.Keys == p.Full()
    ensures Overlay(base, pixels, damage * p.Full()) == pixels <==> AgreeOutside(base, pixels, p.Full(), damage)
  {
    var r := Overlay(base, pixels, damage * p.Full());
    if r == pixels {
      forall q | q in p.Full() && q !in damage ensures base[q] == pixels[q] {
        assert r[q] == pixels[q];
      }
    }
  }

  lemma StartFrame(p: Params, s: State, immediate: bool, env: Env)
    requires p.Valid()
    ensures var r := Start(p, s, immediate, env);
            && r.next == s.next && r.limiter == s.limiter && r.lastSend == s.lastSend
            && r.vncRefs == s.vncRefs
            && r.world.feeds == s.world.feeds && r.world.shown == s.world.shown
            && r.world.viewer == s.world.viewer && r.world.sources == s.world.sources
  {
  }

  /** What sending the waiting frame does to the display and its viewer. */
  lemma SendShowsExactly(p: Params, s: State, env: Env)
    requires p.Valid() && Shapes(p, s) && InSight(p, s) && s.next.Some?
    ensures var r := SendNextFrame(p, s.(limiter := None), env);
            && r.next.None? && r.limiter.None? && r.lastSend == env.now
            && r.world.feeds == s.world.feeds + [env.now]
            && var source, damage := s.world.sources[s.next.value], s.buffers[s.next.value].frameDamage;
            && r.world.shown == Some(source)
            && (r.world.viewer == source <==> AgreeOutside(s.world.viewer, source, p.Full(), damage))
  {
    hide Start, Release, Feed, AgreeOutside;
    var id := s.next.value;
    var s0 := s.(next := None, limiter := None);
    FeedShowsExactly(p, s0, id, env.now);
    StartFrame(p, Feed(p, s0, id, env.now), false, env);
  }

  lemma SendKeeps(p: Params, s: State, env: Env, hand: set<BufferId>)
    requires p.Valid() && Sound(p, s, hand) && s.next.Some?
    ensures Sound(p, SendNextFrame(p, s.(limiter := None), env), hand)
  {
    var id := s.next.value;
    assert id in s.buffers && id !in hand by { assert id in Holders(s); }
    var s1 := Feed(p, s.(next := None, limiter := None), id, env.now);
    var s2 := Start(p, s1, false, env);
    hide Start, Release, Feed, Shapes, Fresh, InSight;
    FeedKeeps(p, s, env.now, hand);
    StartKeeps(p, s1, false, env, hand + {id});
    ReleaseKeeps(p, s2, hand + {id}, id);
    assert hand + {id} - {id} == hand;
    StampKeeps(p, Release(s2, id), env.now, hand);
  }

  lemma StampKeeps(p: Params, s: State, now: int, hand: set<BufferId>)
    requires Sound(p, s, hand)
    ensures Sound(p, s.(lastSend := now), hand)
  {
  }

  /** A captured buffer is a complete and current image of its source. */
  lemma CaptureIsComplete(p: Params, s: State, source: Picture, pixels: Picture, env: Env)
    requires Sound(p, s, {}) && Legal(p, s, Ready(source, pixels, env))
    ensures pixels == source
  {
    forall q | q in p.Full() ensures pixels[q] == source[q] {
      var b := s.buffers[s.buffer.value];
      if q !in s.world.requested + s.world.announced {
        assert AgreeOutside(b.pixels, s.world.last, p.Full(), b.bufferDamage);
      }
    }
  }

  /** The state in which a ready frame reaches wayvnc_process_frame: the frame is complete, and what the
      viewer lacks of it is in its own damage or in the damage of the frame already pending. */
  ghost predicate Arrived(p: Params, s: State, id: BufferId)
  {
    && Shapes(p, s) && Owned(s, {id}) && Paired(s) && Fresh(p, s)
    && !s.frame && s.world.delivered && id !in s.vncRefs
    && id in s.world.sources && s.world.sources[id] == s.world.last == s.buffers[id].pixels
    && var lacking := s.buffers[id].frameDamage +
                      (if s.next.Some? then s.buffers[s.next.value].frameDamage else {});
       AgreeOutside(s.world.viewer, s.world.last, p.Full(), lacking)
  }

  /** The buffers when a ready frame is processed: the frame's own is current and carries no buffer damage,
      the others are due for the announced damage. */
  lemma ReadyBuffers(s: State, id: BufferId, source: Picture, pixels: Picture)
    requires id in s.buffers
    ensures var r := FrameReady(CompositorWrites(s, id, source, pixels), id);
            && r.buffers.Keys == s.buffers.Keys
            && r.buffers[id] == s.buffers[id].(pixels := pixels, bufferDamage := {})
            && (forall o | o in s.buffers && o != id ::
                  r.buffers[o] == s.buffers[o].(bufferDamage := s.buffers[o].bufferDamage + s.buffers[id].frameDamage))
  {
  }

  lemma ReadyIsFresh(p: Params, s: State, source: Picture, env: Env)
    requires Sound(p, s, {}) && Legal(p, s, Ready(source, source, env))
    ensures Fresh(p, FrameReady(CompositorWrites(s, s.buffer.value, source, source), s.buffer.value))
  {
    var id := s.buffer.value;
    var r := FrameReady(CompositorWrites(s, id, source, source), id);
    ReadyBuffers(s, id, source, source);
    forall o | o in r.buffers
      ensures AgreeOutside(r.buffers[o].pixels, source, p.Full(), r.buffers[o].bufferDamage)
    {
      if o != id && s.world.delivered {
        assert AgreeOutside(s.buffers[o].pixels, s.world.last, p.Full(), s.buffers[o].bufferDamage);
      }
    }
  }

  lemma ReadyIsOwned(p: Params, s: State, source: Picture, env: Env)
    requires Sound(p, s, {}) && Legal(p, s, Ready(source, source, env))
    ensures var id := s.buffer.value;
            var r := FrameReady(CompositorWrites(s, id, source, source), id);
            Shapes(p, r) && Owned(r, {id}) && Paired(r)
  {
    ReadyBuffers(s, s.buffer.value, source, source);
  }

  lemma WriteKeeps(p: Params, s: State, source: Picture, pixels: Picture, env: Env)
    requires Sound(p, s, {}) && Legal(p, s, Ready(source, pixels, env))
    ensures s.buffer.value in s.buffers
    ensures var id := s.buffer.value; Arrived(p, FrameReady(CompositorWrites(s, id, source, pixels), id), id)
  {
    CaptureIsComplete(p, s, source, pixels, env);
    var id := s.buffer.value;
    ReadyBuffers(s, id, source, pixels);
    ReadyIsFresh(p, s, source, env);
    ReadyIsOwned(p, s, source, env);
  }

  lemma MergeIsSound(p: Params, s: State, id: BufferId)
    requires Arrived(p, s, id) && s.next.Some?
    ensures id in s.buffers && s.next.value in s.buffers
    ensures var merged := DamageFrame(s.buffers, id, s.buffers[s.next.value].frameDamage);
            Sound(p, s.(buffers := merged, next := Some(id)), {s.next.value})
  {
  }

  lemma MergeKeeps(p: Params, s: State, id: BufferId, env: Env)
    requires p.Valid() && Arrived(p, s, id) && s.next.Some?
    ensures Sound(p, ProcessFrame(p, s, id, env), {})
  {
    var o := s.next.value;
    MergeIsSound(p, s, id);
    var s1 := s.(buffers := DamageFrame(s.buffers, id, s.buffers[o].frameDamage));
    ReleaseKeeps(p, s1.(next := Some(id)), {o}, o);
    ReleaseIgnoresNext(s1, o, Some(id));
    assert {o} - {o} == {};
  }

  lemma ReleaseIgnoresNext(s: State, id: BufferId, next: Option<BufferId>)
    ensures Release(s, id).(next := next) == Release(s.(next := next), id)
  {
    assert Release(s, id).buffers == Release(s.(next := next), id).buffers;
  }

  lemma PendKeeps(p: Params, s: State, id: BufferId, deadline: int)
    requires Arrived(p, s, id) && s.next.None?
    ensures Sound(p, s.(next := Some(id), limiter := Some(deadline)), {})
  {
  }

  lemma ProcessKeeps(p: Params, s: State, id: BufferId, env: Env)
    requires p.Valid() && Arrived(p, s, id)
    ensures Sound(p, ProcessFrame(p, s, id, env), {})
  {
    if s.next.Some? {
      MergeKeeps(p, s, id, env);
    } else {
      var left := TimeLeft(p.maxRate, s.lastSend, env.now);
      PendKeeps(p, s, id, if left > 0 then env.now + left else env.now);
      if left <= 0 { SendAtOnceKeeps(p, s, id, env); }
    }
  }

  lemma SendAtOnceKeeps(p: Params, s: State, id: BufferId, env: Env)
    requires p.Valid() && Sound(p, s.(next := Some(id), limiter := Some(env.now)), {})
    ensures Sound(p, SendNextFrame(p, s.(next := Some(id), limiter := None), env), {})
  {
    hide Sound, SendNextFrame;
    var s1 := s.(next := Some(id), limiter := Some(env.now));
    SendKeeps(p, s1, env, {});
    assert s1.(limiter := None) == s.(next := Some(id), limiter := None);
  }

  lemma SendIsPaced(p: Params, s: State, env: Env)
    requires p.Valid() && Sound(p, s, {}) && Paced(p, s) && s.next.Some?
    requires s.world.feeds != [] ==> SpacedFeeds(p, s.lastSend, env.now)
    ensures Paced(p, SendNextFrame(p, s.(limiter := None), env))
  {
    SendShowsExactly(p, s, env);
  }

  lemma ProcessIsPaced(p: Params, s: State, id: BufferId, env: Env)
    requires p.Valid() && Arrived(p, s, id) && Paced(p, s)
    ensures Paced(p, ProcessFrame(p, s, id, env))
  {
    TimeLeftIsTight(p.maxRate, s.lastSend, env.now);
    var left := TimeLeft(p.maxRate, s.lastSend, env.now);
    if s.next.None? {
      if left <= 0 {
        var s1 := s.(next := Some(id), limiter := Some(env.now));
        PendKeeps(p, s, id, env.now);
        SendIsPaced(p, s1, env);
        assert s1.(limiter := None) == s.(next := Some(id));
      }
    }
  }

  // ---------------------------------------------------------------------------------------------------
  // Steps and runs

  lemma FailedKeeps(p: Params, s: State, constraints: bool, env: Env)
    requires p.Valid() && Sound(p, s, {}) && s.frame
    ensures Sound(p, Step(p, s, Failed(constraints, env)).state, {})
  {
    var id := s.buffer.value;
    var s1 := s.(frame := false, buffer := None);
    assert Sound(p, s1, {id});
    ReleaseKeeps(p, s1, {id}, id);
    var s2 := Release(s1, id);
    assert {id} - {id} == {};
    var s3 := ReleaseOption(s.(frame := false), s.buffer).(buffer := None);
    assert s3.buffers == s2.buffers;
    if constraints { StartKeeps(p, s2, false, env, {}); }
  }

  lemma ScheduleIgnoresShouldStart(p: Params, s: State, env: Env)
    requires !env.reconfigure
    ensures ScheduleCapture(p, s, env).(shouldStart := false) == ScheduleCapture(p, s.(shouldStart := false), env)
  {
  }

  lemma AcceptKeeps(p: Params, s: State, env: Env)
    requires Sound(p, s, {}) && !s.frame && !env.reconfigure
    ensures Sound(p, ScheduleCapture(p, s, env).(shouldStart := false, haveConstraints := true), {})
  {
    ScheduleKeeps(p, s.(shouldStart := false), env, {});
    ScheduleIgnoresShouldStart(p, s, env);
  }

  lemma ConstraintsDoneKeeps(p: Params, s: State, accepted: bool, env: Env)
    requires p.Valid() && Sound(p, s, {}) && Step(p, s, ConstraintsDone(accepted, env)).Ok?
    ensures Sound(p, Step(p, s, ConstraintsDone(accepted, env)).state, {})
  {
    ReconfigureKeeps(p, s, env.reconfigure, {});
    if accepted && s.shouldStart {
      AcceptKeeps(p, Reconfigure(s, env.reconfigure), env.(reconfigure := false));
    }
  }

  lemma DamageKeeps(p: Params, s: State, area: Region)
    requires Sound(p, s, {}) && s.frame
    ensures var id := s.buffer.value;
            && id in s.buffers
            && Sound(p, s.(buffers := DamageFrame(s.buffers, id, area), world := Announced(s.world, area)), {})
  {
    hide Rectangle, AgreeOutside;
  }

  lemma StopSound(p: Params, s: State, e: Event)
    requires p.Valid() && Sound(p, s, {}) && Legal(p, s, e) && (e.Stop? || e.PowerOff?)
    ensures Step(p, s, e).Ok? && Sound(p, Step(p, s, e).state, {})
  {
    hide StopCapture, Spoil, AgreeOutside, Rectangle;
    StopKeeps(p, s, e.junk);
  }

  lemma TimerSound(p: Params, s: State, env: Env)
    requires p.Valid() && Sound(p, s, {}) && Step(p, s, CaptureTimer(env)).Ok?
    ensures Sound(p, Step(p, s, CaptureTimer(env)).state, {})
  {
    hide ScheduleCapture, AgreeOutside;
    ScheduleKeeps(p, s.(timer := None), env, {});
  }

  lemma ReadySound(p: Params, s: State, source: Picture, pixels: Picture, env: Env)
    requires p.Valid() && Inv(p, s) && Legal(p, s, Ready(source, pixels, env))
    ensures Sound(p, Step(p, s, Ready(source, pixels, env)).state, {})
  {
    WriteKeeps(p, s, source, pixels, env);
    hide ProcessFrame, FrameReady, Sound, Legal, Arrived;
    var id := s.buffer.value;
    ProcessKeeps(p, FrameReady(CompositorWrites(s, id, source, pixels), id), id, env);
  }

  lemma OtherSound(p: Params, s: State, e: Event)
    requires p.Valid() && Sound(p, s, {}) && Legal(p, s, e)
    requires e.StartImmediate? || e.ConstraintsChanged? || e.Damage? || e.VncDrop?
    ensures Step(p, s, e).Ok? && Sound(p, Step(p, s, e).state, {})
  {
    hide Start, AgreeOutside, Rectangle, Reaped;
    match e
    case StartImmediate(env) => StartKeeps(p, s, true, env, {});
    case Damage(x, y, width, height) => DamageKeeps(p, s, Rectangle(x, y, width, height));
    case VncDrop(id) => ReapKeeps(p, s.(vncRefs := s.vncRefs - {id}), {});
    case _ =>
  }

  lemma StepKeepsSound(p: Params, s: State, e: Event)
    requires p.Valid() && Inv(p, s) && Legal(p, s, e) && Step(p, s, e).Ok?
    ensures Sound(p, Step(p, s, e).state, {})
  {
    match e
    case Stop(_) => StopSound(p, s, e);
    case PowerOff(_, _) => StopSound(p, s, e);
    case ConstraintsDone(accepted, env) => ConstraintsDoneKeeps(p, s, accepted, env);
    case CaptureTimer(env) => TimerSound(p, s, env);
    case Ready(source, pixels, env) => ReadySound(p, s, source, pixels, env);
    case Failed(constraints, env) => FailedKeeps(p, s, constraints, env);
    case RateTimeout(env) =>
      hide SendNextFrame, Shapes, Owned, Fresh, InSight, Paced;
      SendKeeps(p, s, env, {});
    case _ => OtherSound(p, s, e);
  }

  /** Only sending a frame touches the record of feeds and the rate limiter. */
  lemma QuietStepIsPaced(p: Params, s: State, e: Event)
    requires p.Valid() && Inv(p, s) && Legal(p, s, e) && !e.Ready? && !e.RateTimeout? && Step(p, s, e).Ok?
    ensures Paced(p, Step(p, s, e).state)
  {
    hide Start, ScheduleCapture, AgreeOutside, Rectangle, Reaped, SpacedFeeds, Shapes, Owned, Fresh, InSight;
    match e
    case StartImmediate(env) => StartFrame(p, s, true, env);
    case Failed(constraints, env) =>
      StartFrame(p, ReleaseOption(s.(frame := false), s.buffer).(buffer := None), false, env);
    case _ =>
  }

  lemma ReadyPaced(p: Params, s: State, source: Picture, pixels: Picture, env: Env)
    requires p.Valid() && Inv(p, s) && Legal(p, s, Ready(source, pixels, env))
    ensures Paced(p, Step(p, s, Ready(source, pixels, env)).state)
  {
    WriteKeeps(p, s, source, pixels, env);
    hide ProcessFrame, Sound, Legal, Arrived, Spread, SpacedFeeds;
    var id := s.buffer.value;
    ProcessIsPaced(p, FrameReady(CompositorWrites(s, id, source, pixels), id), id, env);
  }

  lemma TimeoutPaced(p: Params, s: State, env: Env)
    requires p.Valid() && Inv(p, s) && Legal(p, s, RateTimeout(env))
    ensures Paced(p, Step(p, s, RateTimeout(env)).state)
  {
    hide SendNextFrame, AgreeOutside;
    SendIsPaced(p, s, env);
  }

  lemma StepKeepsPaced(p: Params, s: State, e: Event)
    requires p.Valid() && Inv(p, s) && Legal(p, s, e) && Step(p, s, e).Ok?
    ensures Paced(p, Step(p, s, e).state)
  {
    hide Inv, Legal, Paced;
    match e
    case Ready(source, pixels, env) => ReadyPaced(p, s, source, pixels, env);
    case RateTimeout(env) => TimeoutPaced(p, s, env);
    case _ => QuietStepIsPaced(p, s, e);
  }

  /** Every legal event that does not stop at the assertion keeps the invariant. */
  lemma StepKeepsInv(p: Params, s: State, e: Event)
    requires p.Valid() && Inv(p, s) && Legal(p, s, e) && Step(p, s, e).Ok?
    ensures Inv(p, Step(p, s, e).state)
  {
    StepKeepsSound(p, s, e);
    StepKeepsPaced(p, s, e);
  }

  ghost predicate Init(p: Params, s: State)
  {
    && s.buffers == map[] && s.vncRefs == {}
    && !s.session && !s.frame && s.buffer.None? && !s.haveConstraints && !s.shouldStart
    && s.frameCount == 0 && s.timer.None? && s.next.None? && s.limiter.None?
    && s.world.viewer.Keys == p.Full() && s.world.sources == map[]
    && !s.world.delivered && s.world.shown.None? && s.world.feeds == []
  }

  function Run(p: Params, s: State, events: seq<Event>): (r: Outcome)
    requires p.Valid()
    decreases |events|
  {
    if events == [] then Ok(s)
    else match Step(p, s, events[0])
         case Ok(s1) => Run(p, s1, events[1..])
         case AssertFailed => AssertFailed
  }

  /** Every event of the run is legal where it occurs. */
  ghost predicate LegalRun(p: Params, s: State, events: seq<Event>)
    requires p.Valid()
    decreases |events|
  {
    events != [] ==>
      && Legal(p, s, events[0])
      && (Step(p, s, events[0]).Ok? ==> LegalRun(p, Step(p, s, events[0]).state, events[1..]))
  }

  lemma {:induction false} RunKeepsInv(p: Params, s: State, events: seq<Event>)
    requires p.Valid() && Inv(p, s) && LegalRun(p, s, events) && Run(p, s, events).Ok?
    ensures Inv(p, Run(p, s, events).state)
    decreases |events|
  {
    if events != [] {
      StepKeepsInv(p, s, events[0]);
      RunKeepsInv(p, Step(p, s, events[0]).state, events[1..]);
    }
  }

  // ---------------------------------------------------------------------------------------------------
  // Frames that neatvnc reads

  ghost predicate Pinned(s: State, r: State, id: BufferId)
  {
    id in s.vncRefs * r.vncRefs && id in s.buffers && id in r.buffers && r.buffers[id].pixels == s.buffers[id].pixels
  }

  lemma PinnedBySchedule(p: Params, s: State, env: Env, id: BufferId)
    requires Pinned(s, s, id)
    ensures Pinned(s, ScheduleCapture(p, s, env), id)
  {
    var s0 := Reconfigure(s, env.reconfigure);
    assert Pinned(s, s0, id);
  }

  lemma PinnedByStart(p: Params, s: State, immediate: bool, env: Env, id: BufferId)
    requires p.Valid() && Pinned(s, s, id)
    ensures Pinned(s, Start(p, s, immediate, env), id)
  {
    if !s.frame && !immediate && s.frameCount != 0 && s.haveConstraints {
      PinnedBySchedule(p, s.(timer := None), env, id);
    }
  }

  lemma PinnedBySend(p: Params, s: State, env: Env, id: BufferId)
    requires p.Valid() && Pinned(s, s, id)
    ensures Pinned(s, SendNextFrame(p, s, env), id)
  {
    hide Start, Overlay;
    if s.next.Some? && s.next.value in s.buffers {
      var s1 := Feed(p, s.(next := None), s.next.value, env.now);
      PinnedByStart(p, s1, false, env, id);
    }
  }

  lemma PinnedByRelease(s: State, o: BufferId, id: BufferId)
    requires Pinned(s, s, id)
    ensures Pinned(s, Release(s, o), id)
  {
  }

  lemma PinnedByProcess(p: Params, s: State, own: BufferId, env: Env, id: BufferId)
    requires p.Valid() && Pinned(s, s, id) && own in s.buffers
    ensures Pinned(s, ProcessFrame(p, s, own, env), id)
  {
    if s.next.Some? && s.next.value in s.buffers {
      var merged := DamageFrame(s.buffers, own, s.buffers[s.next.value].frameDamage);
      PinnedByRelease(s.(buffers := merged), s.next.value, id);
    } else if TimeLeft(p.maxRate, s.lastSend, env.now) <= 0 {
      PinnedBySend(p, s.(next := Some(own)), env, id);
    }
  }

  lemma PinnedByReady(p: Params, s: State, source: Picture, pixels: Picture, env: Env, id: BufferId)
    requires p.Valid() && Pinned(s, s, id) && s.buffer.Some? && s.buffer.value in s.buffers && s.buffer.value != id
    ensures Pinned(s, Step(p, s, Ready(source, pixels, env)).state, id)
  {
    var own := s.buffer.value;
    ReadyBuffers(s, own, source, pixels);
    PinnedByProcess(p, FrameReady(CompositorWrites(s, own, source, pixels), own), own, env, id);
  }

  lemma PinnedByDone(p: Params, s: State, accepted: bool, env: Env, id: BufferId)
    requires p.Valid() && Pinned(s, s, id) && Step(p, s, ConstraintsDone(accepted, env)).Ok?
    ensures Pinned(s, Step(p, s, ConstraintsDone(accepted, env)).state, id)
  {
    var s1 := Reconfigure(s, env.reconfigure);
    assert Pinned(s, s1, id);
    hide ScheduleCapture, Reconfigure;
    PinnedBySchedule(p, s1, env.(reconfigure := false), id);
  }

  lemma PinnedByFailed(p: Params, s: State, constraints: bool, env: Env, id: BufferId)
    requires p.Valid() && Pinned(s, s, id)
    ensures Pinned(s, Step(p, s, Failed(constraints, env)).state, id)
  {
    hide Start;
    var s1 := ReleaseOption(s.(frame := false), s.buffer).(buffer := None);
    assert Pinned(s, s1, id);
    PinnedByStart(p, s1, false, env, id);
  }

  /** The program never has the compositor write into a frame that neatvnc still reads. */
  lemma VncFramesAreStable(p: Params, s: State, e: Event, id: BufferId)
    requires p.Valid() && Inv(p, s) && Legal(p, s, e) && Step(p, s, e).Ok?
    requires id in s.vncRefs && e != VncDrop(id)
    ensures var r := Step(p, s, e).state;
            id in r.vncRefs && id in r.buffers && r.buffers[id].pixels == s.buffers[id].pixels
  {
    hide Start, ScheduleCapture, ProcessFrame, SendNextFrame, AgreeOutside, Rectangle, Overlay, Paced, Fresh, InSight,
         Shapes, Captured;
    assert Pinned(s, s, id);
    match e
    case StartImmediate(env) => PinnedByStart(p, s, true, env, id);
    case ConstraintsDone(accepted, env) => PinnedByDone(p, s, accepted, env, id);
    case CaptureTimer(env) => PinnedBySchedule(p, s.(timer := None), env, id);
    case Ready(source, pixels, env) => PinnedByReady(p, s, source, pixels, env, id);
    case Failed(constraints, env) => PinnedByFailed(p, s, constraints, env, id);
    case RateTimeout(env) => PinnedBySend(p, s.(limiter := None), env, id);
    case _ =>
  }
}
