/**
 The count-up timer: a countdown of a fixed duration that reports, once a
 second, how many whole seconds have passed since it started, and that on
 running out reports a final second and then clicks its owner's button.
 The countdown's own scheduling is not modelled: its ticks arrive as calls
 with a "milliseconds until finished" value, and whether it is started or
 cancelled is the flag `running`.
 */
module CountUp {
  import opened JavaLang

  /** The tick period handed to the countdown. */
  const TICK_INTERVAL_MS: Long := 1000

  /** A call the timer makes into its owner: the per-second hook `onTick(int)`,
      or a click on the button it was given (`view.callOnClick()`). */
  datatype Callback = Tick(second: int) | ClickOwner

  /** The second `onTick(long)` hands to `onTick(int)`: the elapsed milliseconds,
      computed in `long`, divided by 1000 toward zero and cast to `int`. */
  function ElapsedSecond(duration: Long, msUntilFinished: Long): (second: Int)
    ensures 0 <= msUntilFinished <= duration && duration / 1000 <= INT_MAX ==>
              && 0 <= second <= duration / 1000
              && second * 1000 <= duration - msUntilFinished < (second + 1) * 1000
  {
    ToInt(Quot(ToLong(duration - msUntilFinished), 1000))
  }

  /** Less time left never means fewer seconds reported. */
  lemma ElapsedSecondMonotone(duration: Long, later: Long, earlier: Long)
    requires 0 <= later <= earlier <= duration && duration / 1000 <= INT_MAX
    ensures ElapsedSecond(duration, earlier) <= ElapsedSecond(duration, later)
  {
  }

  /** A tick exactly k seconds into the countdown reports k. */
  lemma ElapsedSecondOnWholeSeconds(duration: Long, k: int)
    requires 0 <= k * 1000 <= duration && duration / 1000 <= INT_MAX
    ensures ElapsedSecond(duration, duration - k * 1000) == k
  {
  }

  class CountUpTimer {
    const duration: Long
    const interval: Long
    /** Started and neither cancelled nor run out through `onFinish`. */
    var running: bool

    constructor (durationMs: Long)
      ensures duration == durationMs && interval == TICK_INTERVAL_MS && !running
    {
      duration := durationMs;
      interval := TICK_INTERVAL_MS;
      running := false;
    }

    /** The countdown's `start()`. */
    method Start()
      modifies this
      ensures running
    {
      running := true;
    }

    /** The countdown's `cancel()`: no further tick and no `onFinish`. */
    method Cancel()
      modifies this
      ensures !running
    {
      running := false;
    }

    /** The calls `onFinish` makes, in order, as written: the final tick passes
        `duration / 1000`, a `long`, which selects `onTick(long)` and is read as
        milliseconds still to go. That final tick falls short of the full
        duration exactly when the milliseconds past the last whole second are
        fewer than the whole seconds. */
    function OnFinishAsWritten(): (calls: seq<Callback>)
      ensures |calls| == 2 && calls[1] == ClickOwner
      ensures calls[0].Tick?
      ensures 0 <= duration && duration / 1000 <= INT_MAX ==>
                (calls[0].second < duration / 1000 <==> duration % 1000 < duration / 1000)
    {
      [Tick(ElapsedSecond(duration, Quot(duration, 1000))), ClickOwner]
    }

    /** The calls `onFinish` makes once the final tick goes to `onTick(int)`:
        first the full duration in seconds, the value a tick with nothing left
        would report, then exactly one click on the owner's button. */
    function OnFinish(): (calls: seq<Callback>)
      ensures |calls| == 2 && calls[1] == ClickOwner
      ensures calls[0].Tick?
      ensures 0 <= duration && duration / 1000 <= INT_MAX ==>
                calls[0].second == ElapsedSecond(duration, 0) == duration / 1000
    {
      [Tick(ToInt(Quot(duration, 1000))), ClickOwner]
    }

    /** With the corrected `onFinish`, the final tick reports at least as much
        as any regular tick did. (As written this fails for longer countdowns:
        for 2000000 ms the final tick is 1998, a tick with 1000 ms left 1999.) */
    lemma FinalTickCoversEveryTick(msUntilFinished: Long)
      requires 0 <= msUntilFinished <= duration && duration / 1000 <= INT_MAX
      ensures ElapsedSecond(duration, msUntilFinished) <= OnFinish()[0].second
    {
      ElapsedSecondMonotone(duration, 0, msUntilFinished);
    }

    /** As written, a five-minute countdown ends on second 299, one short of
        the final tick of any countdown that reaches its last millisecond. */
    lemma FinalTickAsWrittenFallsShort()
      requires duration == 300_000
      ensures OnFinishAsWritten()[0] == Tick(299)
      ensures OnFinish()[0] == Tick(300)
      ensures ElapsedSecond(duration, 1) == 299
    {
    }
  }
}
