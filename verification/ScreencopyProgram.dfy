/** The wlr capture object as it runs: front and back are references to buffers of the pool. Every handler
    takes the step of the model and keeps its invariant. */
module ScreencopyProgram {
  import opened Wrappers
  import opened Regions
  import opened Pacing
  import opened Screencopy
  import opened BufferPools
  import Capture

  class WlrScreencopy {
    const p: Params
    const pool: BufferPool
    var status: Status
    var front: WvBuffer?
    var back: WvBuffer?
    var frame: Frame
    var timer: Option<int>
    var immediate: bool
    var lastTime: int
    ghost var ledger: Ledger

    ghost function Abs(): (s: Wlr)
      reads this, front
    {
      Wlr(status, IdOf(front), IdOf(back), if front == null then {} else front.frameDamage, frame, timer, immediate,
          lastTime, ledger)
    }

    /** The references are to different buffers of the pool, acquired and not released. */
    ghost predicate Valid()
      reads this, pool, pool.repr
    {
      && p.Valid() && pool.Valid()
      && (front != null ==> front in pool.repr && front.framed)
      && (back != null ==> back in pool.repr && back.framed)
      && (front != null ==> front != back)
    }

    constructor (p: Params)
      requires p.Valid()
      ensures Valid() && this.p == p && fresh(pool) && fresh(pool.repr) && Abs() == INITIAL
    {
      this.p := p;
      pool := new BufferPool();
      status, front, back, frame := STOPPED, null, null, NoFrame;
      timer, immediate, lastTime := None, false, 0;
      ledger := Ledger(multiset{}, multiset{}, [], []);
    }

    method HaltCapture()
      modifies this`timer, this`status, this`frame
      ensures timer.None? && status == STOPPED && frame.NoFrame?
    {
      timer := None;
      status := STOPPED;
      if frame.Frame? {
        frame := NoFrame;
      }
    }

    /** A buffer in front is released, once. */
    method DropFront()
      requires Valid()
      modifies this`front, this`ledger, pool, pool.repr
      ensures Valid() && front == null && pool.repr == old(pool.repr)
      ensures Abs() == ReleaseBuffer(old(Abs()), old(Abs()).front).(front := None, frontDamage := {})
    {
      hide BufferPool.Valid;
      if front != null {
        ledger := ledger.(released := ledger.released + multiset{front.id});
        pool.Release(front);
      }
      front := null;
    }

    method OnStop()
      requires Valid() && Inv(Abs())
      modifies this, pool, pool.repr
      ensures Valid() && Inv(Abs()) && Ok(Abs()) == Step(p, old(Abs()), Stop)
    {
      hide BufferPool.Valid, Inv;
      StepKeepsInv(p, Abs(), Stop);
      DropFront();
      HaltCapture();
    }

    method OnFailed()
      requires Valid() && Inv(Abs()) && Legal(Abs(), Fail)
      modifies this, pool, pool.repr
      ensures Valid() && Inv(Abs()) && Ok(Abs()) == Step(p, old(Abs()), Fail)
    {
      hide BufferPool.Valid, Inv;
      StepKeepsInv(p, Abs(), Fail);
      HaltCapture();
      DropFront();
      status := FAILED;
    }

    method CaptureFrame(clock: Clock)
      modifies this`frame, this`lastTime, this`ledger
      ensures Abs() == CaptureOutput(old(Abs()), clock)
    {
      frame := if clock.created then Frame(false, false) else NoFrame;
      if frame.NoFrame? { return; }
      lastTime := clock.now;
      ledger := ledger.(requests := ledger.requests + [clock.now]);
    }

    method OnPoll(clock: Clock)
      requires Valid() && Inv(Abs()) && Legal(Abs(), Poll(clock))
      modifies this`timer, this`frame, this`lastTime, this`ledger
      ensures Valid() && Inv(Abs()) && Ok(Abs()) == Step(p, old(Abs()), Poll(clock))
    {
      hide BufferPool.Valid, Inv;
      StepKeepsInv(p, Abs(), Poll(clock));
      timer := None;
      CaptureFrame(clock);
    }

    method StartScreencopy(isImmediate: bool, clock: Clock)
      requires p.Valid()
      modifies this`status, this`timer, this`frame, this`lastTime, this`immediate, this`ledger
      ensures Abs() == StartWlr(p, old(Abs()), isImmediate, clock)
    {
      if status == IN_PROGRESS { return; }
      immediate := isImmediate;
      var left := TimeLeft(2 * p.maxRate, lastTime, clock.now);
      status := IN_PROGRESS;
      if left > 0 {
        timer := Some(clock.now + left);
        return;
      }
      CaptureFrame(clock);
    }

    method OnStart(isImmediate: bool, clock: Clock)
      requires Valid() && Inv(Abs())
      modifies this`status, this`timer, this`frame, this`lastTime, this`immediate, this`ledger
      ensures Valid() && Inv(Abs()) && Ok(Abs()) == Step(p, old(Abs()), Start(isImmediate, clock))
    {
      hide BufferPool.Valid, Inv, StartWlr;
      StepKeepsInv(p, Abs(), Start(isImmediate, clock));
      StartScreencopy(isImmediate, clock);
    }

    /** The pool decides which buffer is offered, or that there is none. */
    method OnBufferDone(reconfigure: bool, supply: Capture.Supply)
      requires Valid() && Inv(Abs()) && Legal(Abs(), BufferDone(None))
      modifies this, pool, pool.repr
      ensures Valid() && Inv(Abs()) && old(pool.repr) <= pool.repr && fresh(pool.repr - old(pool.repr))
      ensures Ok(Abs()) == Step(p, old(Abs()), BufferDone(IdOf(front)))
    {
      hide BufferPool.Valid, Inv, HandleBufferDone;
      ghost var s := Abs();
      Between();
      var buffer := AcquireBuffer(reconfigure, supply);
      StepKeepsInv(p, s, BufferDone(IdOf(buffer)));
      if buffer == null {
        GiveUp();
        return;
      }
      Offer(buffer);
    }

    /** What the invariant says about the references, before a buffer is offered and after. */
    lemma Between()
      requires Inv(Abs())
      ensures back == null && (frame.Frame? && !frame.described ==> front == null)
      ensures frame.Frame? && frame.offered ==> front != null
    {
    }

    method GiveUp()
      requires front == null
      modifies this`timer, this`status, this`frame
      ensures Ok(Abs()) == HandleBufferDone(old(Abs()), None)
    {
      HaltCapture();
      status := FATAL;
    }

    method AcquireBuffer(reconfigure: bool, supply: Capture.Supply) returns (b: WvBuffer?)
      requires Valid() && front == null && back == null
      modifies pool, pool.repr
      ensures Valid() && Abs() == old(Abs()) && old(pool.repr) <= pool.repr && fresh(pool.repr - old(pool.repr))
      ensures b != null ==> b in pool.repr && b.framed && b.frameDamage == {}
    {
      hide BufferPool.Valid, Capture.Acquired;
      pool.Reconfigure(reconfigure);
      b := pool.Acquire(p.Full(), supply);
    }

    method Offer(buffer: WvBuffer)
      requires front == null && buffer.frameDamage == {}
      modifies this`front, this`frame, this`ledger
      ensures front == buffer && Ok(Abs()) == HandleBufferDone(old(Abs()), Some(buffer.id))
    {
      ledger := ledger.(acquired := ledger.acquired + multiset{buffer.id});
      front := buffer;
      frame := Frame(true, true);
    }

    method OnDamage(x: int, y: int, width: int, height: int)
      requires Valid() && Inv(Abs()) && Legal(Abs(), Damage(x, y, width, height))
      modifies pool, pool.repr
      ensures Valid() && Inv(Abs()) && Ok(Abs()) == Step(p, old(Abs()), Damage(x, y, width, height))
    {
      hide BufferPool.Valid, Rectangle, Inv;
      Between();
      StepKeepsInv(p, Abs(), Damage(x, y, width, height));
      pool.DamageFrame(front, Rectangle(x, y, width, height));
    }

    /** The buffer in front goes to the display; from then on it is the display's to release. */
    method FinishFrame()
      requires Valid() && front != null && back == null
      modifies this, pool, pool.repr
      ensures Valid() && front == null && back == old(front) && pool.repr == old(pool.repr)
      ensures Abs() == FinishCapture(p, old(Abs()))
    {
      hide BufferPool.Valid, Rectangle;
      HaltCapture();
      if immediate { pool.DamageFrame(front, p.Full()); }
      ledger := ledger.(delivered := ledger.delivered + [Delivery(front.id, front.frameDamage)]);
      back := front;
      front := null;
      status := DONE;
    }

    method OnReady(again: Option<Clock>)
      requires Valid() && Inv(Abs()) && Legal(Abs(), Ready(again))
      modifies this, pool, pool.repr
      ensures Valid() && Inv(Abs()) && Ok(Abs()) == Step(p, old(Abs()), Ready(again))
    {
      hide BufferPool.Valid, Inv, FinishCapture, StartWlr;
      Between();
      StepKeepsInv(p, Abs(), Ready(again));
      FinishFrame();
      if again.Some? {
        StartScreencopy(false, again.value);
      }
      back := null;
    }
  }
}
