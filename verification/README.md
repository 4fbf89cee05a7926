# Step counter session model

A Dafny model of the session controller of a small Android step-counting app.
The main screen runs one five-minute session at a time. Start begins the
count-up timer and registers a listener on the step detector. Each detector
event with value 1.0 adds a step. Stop (pressed by the user, by the timer when
it runs out, or by the step that reaches 99999) ends the run and records the
date. Show hands the time, steps and date to the results screen. Reset returns
everything to the opening state.

Files:

- `java_lang.dfy` (module `JavaLang`): the Java integer semantics the code relies on. It covers the `int` and `long` ranges, narrowing casts, division rounding toward zero, and the decimal text that `"" + n` produces.
- `count_up_timer.dfy` (module `CountUp`): `CountUpTimer`. It turns a countdown's "milliseconds until finished" into elapsed seconds, and on finishing it calls a final tick and then the owner button's click. The countdown's started/cancelled state is the flag `running`.
- `main_activity.dfy` (module `StepCounter`): the fields of `MainActivity` as a class, with the four click handlers, `onSensorChanged`, the `onTick(int)` "0M:SS" formatter and the two timer callbacks. The Android side effects are flags on the class: timer running, listener registered, and reset/show clickable and visible. The `Valid()` invariant is kept by every handler. It says:
  - the session is never running and finished at once;
  - the listener and the timer are active exactly while running;
  - reset/show are offered, and a date is on record, exactly when a finished run is;
  - the count never exceeds 99999.

Each handler's contract states its whole effect on a `Session` snapshot of all fields. A rejected call leaves the snapshot unchanged and returns the toast text. `OnSensorEvents` is the sensor service calling `onSensorChanged` once per event of a run. `Walkthrough` follows one run from start to reset, then counts an alternating run of n steps, using the contracts alone.

## Model

| member | source | states |
|---|---|---|
| `JavaLang.ToInt` | app/src/main/java/com/example/miniproject_stepcounter/CountUpTimer.java:23 | the `(int)` cast is the identity on the `int` range and otherwise differs by a multiple of 2^32 |
| `JavaLang.ToLong` | app/src/main/java/com/example/miniproject_stepcounter/CountUpTimer.java:23 | `long` subtraction is exact within range and otherwise wraps modulo 2^64 |
| `JavaLang.Quot` | app/src/main/java/com/example/miniproject_stepcounter/CountUpTimer.java:23 | Java `/` by a positive divisor leaves a remainder of the dividend's sign, smaller than the divisor |
| `JavaLang.IntText` | app/src/main/java/com/example/miniproject_stepcounter/MainActivity.java:102-105 | an `int` joined to a string is written with a leading minus sign exactly when it is negative, followed by digits with no leading zero that read back as its absolute value; 0 is written exactly "0" |
| `JavaLang.NatTextRoundTrip` | app/src/main/java/com/example/miniproject_stepcounter/MainActivity.java:102-105 | reading back the decimal digits written for n gives n |
| `CountUp.ElapsedSecond` | app/src/main/java/com/example/miniproject_stepcounter/CountUpTimer.java:22-25 | for 0 <= msUntilFinished <= duration, while duration/1000 fits in an `int`, the second reported is the floor of the elapsed milliseconds over 1000 and lies in [0, duration/1000] |
| `CountUp.ElapsedSecondMonotone` | app/src/main/java/com/example/miniproject_stepcounter/CountUpTimer.java:23 | less time left never reports a smaller second, for 0 <= msUntilFinished <= duration while duration/1000 fits in an `int` |
| `CountUp.ElapsedSecondOnWholeSeconds` | app/src/main/java/com/example/miniproject_stepcounter/CountUpTimer.java:23 | a tick exactly k seconds in reports k, while duration/1000 fits in an `int` |
| `CountUp.CountUpTimer.constructor` | app/src/main/java/com/example/miniproject_stepcounter/CountUpTimer.java:8-17 | the duration is stored unchanged, the tick interval is 1000 ms, and the countdown is not yet started |
| `CountUp.CountUpTimer.Start` | app/src/main/java/com/example/miniproject_stepcounter/MainActivity.java:157 | the countdown is running afterwards |
| `CountUp.CountUpTimer.Cancel` | app/src/main/java/com/example/miniproject_stepcounter/MainActivity.java:179 | the countdown is not running afterwards |
| `CountUp.CountUpTimer.OnFinishAsWritten` | app/src/main/java/com/example/miniproject_stepcounter/CountUpTimer.java:29-32 | as written: one tick then one click on the owner's button, in that order; the tick falls short of duration/1000 exactly when duration % 1000 < duration / 1000, for 0 <= duration while duration/1000 fits in an `int` |
| `CountUp.CountUpTimer.OnFinish` | app/src/main/java/com/example/miniproject_stepcounter/CountUpTimer.java:29-32 | one tick, then exactly one click; for 0 <= duration while duration/1000 fits in an `int`, the tick is duration/1000, the value a tick with no time left reports |
| `CountUp.CountUpTimer.FinalTickCoversEveryTick` | app/src/main/java/com/example/miniproject_stepcounter/CountUpTimer.java:22-30 | with the corrected finish, the final tick is at least every regular tick with 0..duration ms left, while duration/1000 fits in an `int` (as written this fails for longer countdowns) |
| `CountUp.CountUpTimer.FinalTickAsWrittenFallsShort` | app/src/main/java/com/example/miniproject_stepcounter/CountUpTimer.java:30 | for the 300000 ms session the final tick as written is 299, the same as a regular tick 1 ms before the end; corrected, it is 300 |
| `StepCounter.TimeTextDigits` | app/src/main/java/com/example/miniproject_stepcounter/MainActivity.java:91-107 | for 0 <= second < 600 the text is "0", the minute digit, ":", then the tens and units of second mod 60 |
| `StepCounter.TimeTextRoundTrip` | app/src/main/java/com/example/miniproject_stepcounter/MainActivity.java:91-107 | below ten minutes, the text has the form DD:DD and reads back as the same number of seconds |
| `StepCounter.ClockTextRoundTrip` | app/src/main/java/com/example/miniproject_stepcounter/MainActivity.java:91-107 | every "0M:SS" with SS below 60 is the text the formatter writes for the seconds it stands for |
| `StepCounter.TimeTextExamples` | app/src/main/java/com/example/miniproject_stepcounter/MainActivity.java:45 | 0 gives the initial "00:00", 9 gives "00:09", 299 gives "04:59" and 300 gives "05:00" |
| `StepCounter.StepsIn` | app/src/main/java/com/example/miniproject_stepcounter/MainActivity.java:123-127 | only events equal to 1.0 count: at most one step per event, and none for a run with no 1.0 |
| `StepCounter.StepsInAppend` | app/src/main/java/com/example/miniproject_stepcounter/MainActivity.java:123-127 | the steps of consecutive runs of events add up |
| `StepCounter.StepsInAlternating` | app/src/main/java/com/example/miniproject_stepcounter/MainActivity.java:118-127 | an alternating 1,0 run of length 2n counts n steps, so the fall back to 0 is not double counted |
| `StepCounter.MainActivity.constructor` | app/src/main/java/com/example/miniproject_stepcounter/MainActivity.java:43-48 | the screen opens idle: not running, not finished, 0 steps, "00:00", no date, listener and timer off, reset/show hidden; the timer is made for 300000 ms (line 84) |
| `StepCounter.MainActivity.OnTick` | app/src/main/java/com/example/miniproject_stepcounter/MainActivity.java:88-107 | the subtraction loop leaves the quotient and remainder by 60, and `currentTime` becomes the formatter's text for the second; nothing else changes |
| `StepCounter.MainActivity.TimerTick` | app/src/main/java/com/example/miniproject_stepcounter/CountUpTimer.java:22-25 | a tick stores the text of the elapsed second; during the session that text is a DD:DD that reads back as a second within 0..300 |
| `StepCounter.MainActivity.TimerFinished` | app/src/main/java/com/example/miniproject_stepcounter/CountUpTimer.java:29-32 | with the corrected finish, the countdown running out does what a stop click does, and the time reads "05:00" |
| `StepCounter.MainActivity.TimerFinishedAsWritten` | app/src/main/java/com/example/miniproject_stepcounter/CountUpTimer.java:29-31 | with the finish as written, the countdown running out does what a stop click does, and the time reads "04:59" |
| `StepCounter.MainActivity.OnSensorChanged` | app/src/main/java/com/example/miniproject_stepcounter/MainActivity.java:117-134 | the count grows by exactly one on 1.0 and not otherwise; nothing else changes below the cap; the step that reaches 99999 stops the run; the invariant (count <= 99999) is kept |
| `StepCounter.MainActivity.OnSensorEvents` | app/src/main/java/com/example/miniproject_stepcounter/MainActivity.java:117-134 | a run of events delivered to the registered listener, staying below the cap, adds exactly the number of 1.0 values in it to the count and changes nothing else |
| `StepCounter.MainActivity.StartClick` | app/src/main/java/com/example/miniproject_stepcounter/MainActivity.java:142-167 | when running or finished, changes nothing and returns the matching toast; from idle, the timer starts, the listener is registered and the run is running, with steps, time and date unchanged |
| `StepCounter.MainActivity.StopClick` | app/src/main/java/com/example/miniproject_stepcounter/MainActivity.java:170-200 | when not running, changes nothing and returns a toast; while running, it cancels the timer and unregisters the listener. It sets running false and finished true, records the given date and offers reset/show. Steps and time are unchanged |
| `StepCounter.MainActivity.ResetClick` | app/src/main/java/com/example/miniproject_stepcounter/MainActivity.java:203-225 | when running, changes nothing and returns a toast; otherwise every field is back to its initial value |
| `StepCounter.MainActivity.ShowClick` | app/src/main/java/com/example/miniproject_stepcounter/MainActivity.java:228-245 | when running, a toast and no results; otherwise the results screen gets the current time, steps and date, whether or not a run is finished; no field changes |

## Findings

| source | as written | input that shows it | evidently intended | confidence | as-written member | corrected member |
|---|---|---|---|---|---|---|
| app/src/main/java/com/example/miniproject_stepcounter/CountUpTimer.java:30 | `onTick(duration / 1000)` passes a `long`, so Java overload resolution picks `onTick(long msUntilFinished)`. That overload reads 300 as milliseconds still to go and reports (300000 - 300) / 1000 = 299 | the 300000 ms session running out: the final time is "04:59" | the final tick goes to `onTick(int)` with the full duration, 300, so the time reads "05:00" | high, not executed | `CountUp.CountUpTimer.OnFinishAsWritten` | `CountUp.CountUpTimer.OnFinish` |
| app/src/main/java/com/example/miniproject_stepcounter/CountUpTimer.java:29-31 | the stop click that ends a five-minute session on time follows that 299 tick, so `currentTime`, and the time handed to the results screen, is "04:59" | the countdown running out while a run is active | the recorded time is "05:00" | high, not executed | `StepCounter.MainActivity.TimerFinishedAsWritten` | `StepCounter.MainActivity.TimerFinished` |


## Left out

- CountUp.ElapsedSecond: its range and floor facts, and those of `ElapsedSecondMonotone`, `ElapsedSecondOnWholeSeconds`, `OnFinishAsWritten`, `OnFinish` and `FinalTickCoversEveryTick`, are stated only for durations whose whole seconds fit in an `int`. Beyond that the `(int)` cast wraps: for a duration of `Long.MAX_VALUE` and 0 ms left the second is -1511828489. The app only uses 300000 ms.
- StepCounter.MainActivity.TimerFinished: runs the corrected `OnFinish`, so it records "05:00". The finish as written, which records "04:59", is `TimerFinishedAsWritten`.
- The results screen (`ResultsActivity.java`) is not part of this model. Its distance and calorie figures are `double` products formatted by `DecimalFormat` with floor rounding. The model stops at the extras `ShowClick` hands over.
- The countdown's scheduling is not modelled. Ticks are calls of `TimerTick` with a milliseconds-to-go value, and the end is a call of `TimerFinished`. A tick arriving once per second is therefore not stated. `TimerTick` and `TimerFinished` require a running countdown, because a cancelled countdown delivers neither.
- StepCounter.MainActivity.OnSensorChanged: requires the listener to be registered. The sensor service delivers events only to a registered listener. The cap of 99999 rests on this.
- The sensor value is a `real` compared with 1.0. Float rounding, NaN and -0.0 are not modelled. None of them compares equal to 1.0f, so they count no step either way.
- The date is a non-empty string parameter. `SimpleDateFormat` and the clock are not modelled.
- Toasts are the message a handler returns; showing them is not modelled. Starting the results screen is the `ResultsExtras` value returned.
- The crossfade animation is modelled only through its end state: the button is visible. `TextView.setText` mirrors fields the model holds, so it is left out.
- The initial clickable/visible state of reset and show comes from the layout file, which is not part of this model. It is taken as hidden and not clickable, the state `resetClick` restores.
- Android lets a tap reach a button only when it is visible and clickable. The model records both flags but does not model taps. After a reset, only these flags keep show from handing over an empty run.
- Window insets, the action-bar title, `findViewById`, the unused `onAccuracyChanged` and the behaviour on a device without a step detector are not modelled.
- `stepCounter++` on a Java `int` cannot overflow, because the count stops at 99999. It is modelled as plain addition.
