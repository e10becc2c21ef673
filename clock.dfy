/**
 * The wall clock the agent reads (`datetime.utcnow()`, `date.today()`) and
 * the sleep of `asyncio.sleep`. Time is an integer count of ticks; it never
 * runs backwards, and every reading may find it advanced by an unknown amount.
 */
module Clocks {

  class Clock {
    /** The current time, in ticks. */
    var time: int

    constructor (start: int)
      ensures time == start
    {
      time := start;
    }

    /** `datetime.utcnow()`: some time no earlier than the last reading. */
    method Now() returns (t: int)
      modifies this
      ensures old(time) <= time && t == time
    {
      var later: int :| later >= time;
      time := later;
      t := time;
    }

    /** `await asyncio.sleep(d)`: returns no earlier than `d` ticks later. */
    method Sleep(d: int)
      modifies this
      ensures time >= old(time) && time >= old(time) + d
    {
      var later: int :| later >= time && later >= time + d;
      time := later;
    }

    /** `datetime.utcnow().isoformat()`; the text of the rendering is not modelled. */
    method UtcIso() returns (s: string)
    {
      s :| true;
    }

    /** `date.today().isoformat()`, in local time, so not tied to `UtcIso`. */
    method TodayIso() returns (s: string)
    {
      s :| true;
    }
  }
}
