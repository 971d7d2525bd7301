/** The clock arithmetic that the capture objects and the frame rate limiter share. */
module Pacing {
  import opened Regions

  type BufferId = nat

  /** The size of the captured source and the --max-fps option; captures are limited to twice that rate. */
  datatype Params = Params(width: nat, height: nat, maxRate: nat)
  {
    ghost predicate Valid() { maxRate > 0 }

    function Full(): (r: Region) { Rectangle(0, 0, width, height) }
  }

  /** The conversion of a double to an integer. */
  function Trunc(r: real): (n: int)
  {
    if r >= 0.0 then r.Floor else -((-r).Floor)
  }

  /** Microseconds until `rate` allows the next action after one at `last`; times are in microseconds. */
  function TimeLeft(rate: int, last: int, now: int): (n: int)
    requires rate > 0
  {
    Trunc(1000000.0 / rate as real - (now - last) as real)
  }

  /** Rounding towards zero gives away less than one microsecond. */
  lemma TimeLeftIsTight(rate: int, last: int, now: int)
    requires rate > 0
    ensures var left := TimeLeft(rate, last, now);
            var need := 1000000.0 / rate as real;
            && (left > 0 ==> need - 1.0 < (now + left - last) as real <= need)
            && (left <= 0 ==> (now - last) as real > need - 1.0)
  {
  }
}
