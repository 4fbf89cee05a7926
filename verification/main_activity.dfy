/**
 The step-counting session: the screen controller's fields, its four click
 handlers (start, stop, reset, show), the step detector's callback, and the
 per-second hook that writes the elapsed time as "0M:SS".

 Android is reduced to flags and parameters: whether the countdown runs (the
 timer's `running`), whether the step listener is registered, whether the
 reset and show buttons are clickable and visible. A toast is the message a
 handler returns; starting the results screen is the extras it returns; the
 date is the text the caller passes in.
 */
module StepCounter {
  import opened JavaLang
  import opened CountUp

  datatype Option<T> = None | Some(value: T)

  /** The session length handed to the count-up timer: five minutes. */
  const SESSION_MS: Long := 300_000
  /** A step that brings the count to this value ends the run. */
  const STEP_CAP: int := 99999
  /** The elapsed-time text of a session that has not started. */
  const START_TIME: string := "00:00"

  const ALREADY_STARTED: string := "You already started a run!"
  const ALREADY_FINISHED: string := "You've already completed a run. Press Reset before starting a new one."
  const NOT_RUNNING: string := "The timer is not running right now!"
  const RESET_WHILE_RUNNING: string := "You can't reset a running timer!"
  const SHOW_WHILE_RUNNING: string := "You need to finish your new run before you see your results!"

  // ---------------------------------------------------------------------
  // Elapsed-time text
  // ---------------------------------------------------------------------

  /** The text `onTick(int)` stores: "0", the minutes, ":", then the remaining
      seconds with a leading zero below ten. The minutes are counted by taking
      60 away while at least 60 remain, so a negative second keeps 0 minutes. */
  function TimeText(second: int): string {
    var (mins, rest) := if second < 0 then (0, second) else (second / 60, second % 60);
    "0" + IntText(mins) + ":" + (if rest >= 10 then "" else "0") + IntText(rest)
  }

  /** Below ten minutes the text is "0", one minute digit, ":", two second digits. */
  lemma TimeTextDigits(second: int)
    requires 0 <= second < 600
    ensures TimeText(second) ==
              ['0', DigitChar(second / 60), ':', DigitChar(second % 60 / 10), DigitChar(second % 60 % 10)]
  {
    NatTextBelowHundred(second / 60);
    NatTextBelowHundred(second % 60);
  }

  /** Text of the form "DD:DD". */
  predicate IsClockText(text: string) {
    |text| == 5 && IsDigit(text[0]) && IsDigit(text[1]) && text[2] == ':' && IsDigit(text[3]) && IsDigit(text[4])
  }

  /** The seconds a "MM:SS" text stands for. */
  function ClockSeconds(text: string): int
    requires IsClockText(text)
  {
    60 * (10 * DigitOf(text[0]) + DigitOf(text[1])) + 10 * DigitOf(text[3]) + DigitOf(text[4])
  }

  /** Every second of a session below ten minutes is written as "MM:SS" and read back unchanged. */
  lemma TimeTextRoundTrip(second: int)
    requires 0 <= second < 600
    ensures IsClockText(TimeText(second)) && ClockSeconds(TimeText(second)) == second
  {
    TimeTextDigits(second);
    var m, r := second / 60, second % 60;
    assert second == 60 * m + 10 * (r / 10) + r % 10;
  }

  /** Conversely, every "0M:SS" text with SS below 60 is the text of the second it stands for. */
  lemma ClockTextRoundTrip(text: string)
    requires IsClockText(text) && text[0] == '0' && text[3] <= '5'
    ensures TimeText(ClockSeconds(text)) == text
  {
    var second := ClockSeconds(text);
    TimeTextDigits(second);
    var m, t, u := DigitOf(text[1]), DigitOf(text[3]), DigitOf(text[4]);
    assert second == 60 * m + (10 * t + u);
    assert second / 60 == m && second % 60 == 10 * t + u;
    assert (10 * t + u) / 10 == t && (10 * t + u) % 10 == u;
    assert text == ['0', text[1], ':', text[3], text[4]];
  }

  lemma TimeTextExamples()
    ensures TimeText(0) == START_TIME
    ensures TimeText(9) == "00:09"
    ensures TimeText(299) == "04:59"
    ensures TimeText(300) == "05:00"
  {
    TimeTextDigits(0);
    TimeTextDigits(9);
    TimeTextDigits(299);
    TimeTextDigits(300);
  }

  // ---------------------------------------------------------------------
  // Step events
  // ---------------------------------------------------------------------

  /** How many of the step detector's values count as a step: those equal to 1.0. */
  function StepsIn(values: seq<real>): (n: nat)
    ensures n <= |values|
    ensures n == 0 <==> forall i | 0 <= i < |values| :: values[i] != 1.0
  {
    if values == [] then 0 else (if values[0] == 1.0 then 1 else 0) + StepsIn(values[1..])
  }

  /** Steps of two runs of events add up. */
  lemma {:induction false} StepsInAppend(a: seq<real>, b: seq<real>)
    ensures StepsIn(a + b) == StepsIn(a) + StepsIn(b)
  {
    if a != [] {
      assert (a + b)[0] == a[0];
      assert (a + b)[1..] == a[1..] + b;
      StepsInAppend(a[1..], b);
    } else {
      assert a + b == b;
    }
  }

  /** n steps, each followed by the detector falling back to 0. */
  function Alternating(n: nat): (values: seq<real>)
    ensures |values| == 2 * n
  {
    if n == 0 then [] else [1.0, 0.0] + Alternating(n - 1)
  }

  /** An alternating 1,0 run of length 2n counts n steps, not 2n. */
  lemma {:induction false} StepsInAlternating(n: nat)
    ensures StepsIn(Alternating(n)) == n
  {
    if n > 0 {
      StepsInAlternating(n - 1);
      StepsInAppend([1.0, 0.0], Alternating(n - 1));
      assert StepsIn([0.0]) == 0;
    }
  }

  // ---------------------------------------------------------------------
  // The session controller
  // ---------------------------------------------------------------------

  datatype Phase = Idle | Running | Stopped

  /** The extras the results screen is started with. */
  datatype ResultsExtras = ResultsExtras(formattedTime: string, steps: int, runDate: string)

  /** Every piece of session state, the countdown's flag included. */
  datatype Session = Session(
    isRunning: bool,
    runFinished: bool,
    stepCounter: int,
    currentTime: string,
    formattedDate: string,
    listenerRegistered: bool,
    timerRunning: bool,
    resetClickable: bool,
    resetVisible: bool,
    showClickable: bool,
    showVisible: bool)

  /** The state the screen opens in, and the state a reset returns to. */
  const INITIAL: Session :=
    Session(false, false, 0, START_TIME, "", false, false, false, false, false, false)

  /** The stop transition: countdown cancelled, listener removed, the run
      recorded as finished on `today`, reset and show offered. */
  function AfterStop(s: Session, today: string): Session {
    s.(timerRunning := false, resetClickable := true, resetVisible := true,
       showClickable := true, showVisible := true, listenerRegistered := false,
       isRunning := false, runFinished := true, formattedDate := today)
  }

  class MainActivity {
    var isRunning: bool
    var runFinished: bool
    var currentTime: string
    var stepCounter: int
    var formattedDate: string
    var listenerRegistered: bool
    var resetClickable: bool
    var resetVisible: bool
    var showClickable: bool
    var showVisible: bool
    const functionalTimer: CountUpTimer

    function CurrentPhase(): Phase
      reads this
    {
      if isRunning then Running else if runFinished then Stopped else Idle
    }

    ghost function Snapshot(): Session
      reads this, functionalTimer
    {
      Session(isRunning, runFinished, stepCounter, currentTime, formattedDate,
              listenerRegistered, functionalTimer.running,
              resetClickable, resetVisible, showClickable, showVisible)
    }

    /** Never running and finished at once; the countdown runs and the step
        listener is registered exactly while running; reset and show are on
        offer exactly when a finished run is on record, and so is its date;
        the count stays within the cap, and an idle session shows no steps
        and no time. */
    ghost predicate Consistent()
      reads this, functionalTimer
    {
      && functionalTimer.duration == SESSION_MS
      && !(isRunning && runFinished)
      && listenerRegistered == isRunning
      && functionalTimer.running == isRunning
      && resetClickable == resetVisible == showClickable == showVisible == runFinished
      && (formattedDate != "") == runFinished
      && 0 <= stepCounter <= STEP_CAP
      && (CurrentPhase() == Idle ==> stepCounter == 0 && currentTime == START_TIME)
    }

    /** Between events: consistent, and a running session is still below the
        cap (the step that reaches it stops the run). */
    ghost predicate Valid()
      reads this, functionalTimer
    {
      Consistent() && (isRunning ==> stepCounter < STEP_CAP)
    }

    /** The field initialisers and the five-minute timer made in `onCreate`. */
    constructor ()
      ensures Valid() && fresh(functionalTimer)
      ensures Snapshot() == INITIAL && CurrentPhase() == Idle
    {
      isRunning, runFinished := false, false;
      currentTime, stepCounter, formattedDate := START_TIME, 0, "";
      listenerRegistered := false;
      resetClickable, resetVisible, showClickable, showVisible := false, false, false, false;
      functionalTimer := new CountUpTimer(SESSION_MS);
    }

    /** `onTick(int)`: splits the second into minutes and seconds by repeated
        subtraction and stores the "0M:SS" text. Nothing else changes. */
    method OnTick(second: int)
      modifies this`currentTime
      ensures currentTime == TimeText(second)
    {
      var rest, mins := second, 0;
      while rest >= 60
        invariant mins >= 0 && rest + 60 * mins == second
        invariant second < 60 ==> mins == 0 && rest == second
        invariant second >= 0 ==> rest >= 0
      {
        rest := rest - 60;
        mins := mins + 1;
      }
      if second >= 0 {
        assert mins == second / 60 && rest == second % 60;
      }
      if rest >= 10 {
        currentTime := "0" + IntText(mins) + ":" + IntText(rest);
      } else {
        currentTime := "0" + IntText(mins) + ":0" + IntText(rest);
      }
      assert "0" + IntText(mins) + ":0" + IntText(rest) == "0" + IntText(mins) + ":" + "0" + IntText(rest);
    }

    /** A countdown tick: `onTick(long)` turns the milliseconds still to go into
        elapsed seconds for `onTick(int)`. Ticks come only from a running countdown. */
    method TimerTick(msUntilFinished: Long)
      requires Valid() && functionalTimer.running
      modifies this`currentTime
      ensures Valid()
      ensures currentTime == TimeText(ElapsedSecond(functionalTimer.duration, msUntilFinished))
      ensures 0 <= msUntilFinished <= SESSION_MS ==>
                IsClockText(currentTime) &&
                ClockSeconds(currentTime) == ElapsedSecond(SESSION_MS, msUntilFinished) <= SESSION_MS / 1000
    {
      var second := ElapsedSecond(functionalTimer.duration, msUntilFinished);
      OnTick(second);
      if 0 <= msUntilFinished <= SESSION_MS {
        TimeTextRoundTrip(second);
      }
    }

    /** The countdown running out: `onFinish` makes its final tick, then clicks
        the stop button, which ends the run as a stop click does and records
        the full five minutes. */
    method TimerFinished(today: string)
      requires Valid() && functionalTimer.running && today != ""
      modifies this, functionalTimer
      ensures Valid() && CurrentPhase() == Stopped
      ensures Snapshot() == AfterStop(old(Snapshot()), today).(currentTime := TimeText(SESSION_MS / 1000))
      ensures currentTime == "05:00"
    {
      var calls := functionalTimer.OnFinish();
      OnTick(calls[0].second);
      var toast := StopClick(today);
      TimeTextExamples();
    }

    /** The countdown running out with `onFinish` as written: its final tick
        goes through `onTick(long)`, so the five-minute run ends on "04:59". */
    method TimerFinishedAsWritten(today: string)
      requires Valid() && functionalTimer.running && today != ""
      modifies this, functionalTimer
      ensures Valid() && CurrentPhase() == Stopped
      ensures Snapshot() == AfterStop(old(Snapshot()), today).(currentTime := TimeText(299))
      ensures currentTime == "04:59"
    {
      var calls := functionalTimer.OnFinishAsWritten();
      functionalTimer.FinalTickAsWrittenFallsShort();
      OnTick(calls[0].second);
      var toast := StopClick(today);
      TimeTextExamples();
    }

    /** A run of detector events delivered one by one to the registered
        listener: the count grows by the steps in the run, and, while the run
        stays below the cap, nothing else changes. */
    method OnSensorEvents(values: seq<real>, today: string)
      requires Valid() && listenerRegistered && today != ""
      requires stepCounter + StepsIn(values) < STEP_CAP
      modifies this, functionalTimer
      ensures Valid()
      ensures Snapshot() == old(Snapshot()).(stepCounter := old(stepCounter) + StepsIn(values))
    {
      for i := 0 to |values|
        invariant Valid() && listenerRegistered
        invariant stepCounter == old(stepCounter) + StepsIn(values[..i])
        invariant Snapshot() == old(Snapshot()).(stepCounter := stepCounter)
      {
        StepsInAppend(values[..i], values[i..]);
        assert values[..i] + values[i..] == values;
        StepsInAppend([values[i]], values[i + 1..]);
        assert [values[i]] + values[i + 1..] == values[i..];
        OnSensorChanged(values[i], today);
        StepsInAppend(values[..i], [values[i]]);
        assert values[..i] + [values[i]] == values[..i + 1];
      }
      assert values[..|values|] == values;
    }

    /** `onSensorChanged`: only the value 1.0 is a step; the step that reaches
        the cap clicks stop. Events reach only a registered listener. */
    method OnSensorChanged(value: real, today: string)
      requires Valid() && listenerRegistered && today != ""
      modifies this, functionalTimer
      ensures Valid()
      ensures stepCounter == old(stepCounter) + StepsIn([value])
      ensures old(stepCounter) + StepsIn([value]) < STEP_CAP ==>
                Snapshot() == old(Snapshot()).(stepCounter := stepCounter)
      ensures old(stepCounter) + StepsIn([value]) >= STEP_CAP ==>
                Snapshot() == AfterStop(old(Snapshot()), today).(stepCounter := STEP_CAP)
    {
      if value == 1.0 {
        stepCounter := stepCounter + 1;
        if stepCounter >= STEP_CAP {
          var toast := StopClick(today);
        }
      }
    }

    /** `startClick`: from idle, starts the countdown and the listener; after a
        start or a finished run, only a toast. */
    method StartClick() returns (toast: Option<string>)
      requires Valid()
      modifies this, functionalTimer
      ensures Valid()
      ensures toast == if old(isRunning) then Some(ALREADY_STARTED)
                       else if old(runFinished) then Some(ALREADY_FINISHED)
                       else None
      ensures old(CurrentPhase()) != Idle ==> Snapshot() == old(Snapshot())
      ensures old(CurrentPhase()) == Idle ==>
                CurrentPhase() == Running &&
                Snapshot() == old(Snapshot()).(timerRunning := true, listenerRegistered := true, isRunning := true)
    {
      if isRunning {
        return Some(ALREADY_STARTED);
      }
      if runFinished {
        return Some(ALREADY_FINISHED);
      }
      functionalTimer.Start();
      listenerRegistered := true;
      isRunning := true;
      toast := None;
    }

    /** `stopClick`: ends a running session on `today`; otherwise only a toast. */
    method StopClick(today: string) returns (toast: Option<string>)
      requires Consistent() && today != ""
      modifies this, functionalTimer
      ensures Valid()
      ensures toast == if old(isRunning) then None else Some(NOT_RUNNING)
      ensures !old(isRunning) ==> Snapshot() == old(Snapshot())
      ensures old(isRunning) ==> CurrentPhase() == Stopped && Snapshot() == AfterStop(old(Snapshot()), today)
    {
      if !isRunning {
        return Some(NOT_RUNNING);
      }
      functionalTimer.Cancel();
      resetVisible, showVisible := true, true;
      resetClickable, showClickable := true, true;
      listenerRegistered := false;
      isRunning := false;
      runFinished := true;
      formattedDate := today;
      toast := None;
    }

    /** `resetClick`: unless running, returns every field to its initial value. */
    method ResetClick() returns (toast: Option<string>)
      requires Valid()
      modifies this
      ensures Valid()
      ensures toast == if old(isRunning) then Some(RESET_WHILE_RUNNING) else None
      ensures old(isRunning) ==> Snapshot() == old(Snapshot())
      ensures !old(isRunning) ==> CurrentPhase() == Idle && Snapshot() == INITIAL
    {
      if isRunning {
        return Some(RESET_WHILE_RUNNING);
      }
      stepCounter := 0;
      currentTime := START_TIME;
      formattedDate := "";
      resetClickable, showClickable := false, false;
      resetVisible, showVisible := false, false;
      runFinished := false;
      toast := None;
    }

    /** `showClick`: unless running, starts the results screen with the time,
        the steps and the date. It checks only `isRunning`, so after a reset it
        would hand over an empty run; the hidden button is what stops that. */
    method ShowClick() returns (toast: Option<string>, extras: Option<ResultsExtras>)
      ensures isRunning ==> toast == Some(SHOW_WHILE_RUNNING) && extras == None
      ensures !isRunning ==> toast == None && extras == Some(ResultsExtras(currentTime, stepCounter, formattedDate))
    {
      if isRunning {
        return Some(SHOW_WHILE_RUNNING), None;
      }
      toast, extras := None, Some(ResultsExtras(currentTime, stepCounter, formattedDate));
    }
  }

  /** A run from start to reset, as the handlers' contracts let a caller follow it. */
  method Walkthrough(today: string, n: nat)
    requires today != "" && n < STEP_CAP
  {
    var activity := new MainActivity();
    var toast := activity.StartClick();
    assert toast == None && activity.CurrentPhase() == Running;
    toast := activity.StartClick();
    assert toast == Some(ALREADY_STARTED) && activity.stepCounter == 0;

    activity.OnSensorChanged(1.0, today);
    activity.OnSensorChanged(0.0, today);
    activity.TimerTick(SESSION_MS - 9000);
    assert activity.stepCounter == 1 && activity.currentTime == TimeText(9);

    toast := activity.StopClick(today);
    assert activity.CurrentPhase() == Stopped && activity.showClickable;
    toast := activity.StartClick();
    assert toast == Some(ALREADY_FINISHED);

    var extras;
    toast, extras := activity.ShowClick();
    assert extras == Some(ResultsExtras(TimeText(9), 1, today));

    toast := activity.ResetClick();
    assert activity.CurrentPhase() == Idle && !activity.showClickable && !activity.showVisible;
    toast, extras := activity.ShowClick();
    assert extras == Some(ResultsExtras(START_TIME, 0, ""));

    // n steps, each followed by the detector falling back to 0, count n.
    toast := activity.StartClick();
    StepsInAlternating(n);
    activity.OnSensorEvents(Alternating(n), today);
    assert activity.stepCounter == n && activity.CurrentPhase() == Running;
  }
}
