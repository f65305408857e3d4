# Chronos Tesseract Interface — a verified model of its game logic

The Chronos Tesseract Interface is a single-page "hyper-leap" toy. It leads
the user through four screens: initiation, alignment, focus and leap.

- **Initiation.** A button starts a timed wake-up.
- **Alignment.** The user activates eight "reality anchors" by clicking nodes.
- **Focus.** The user plays a press-and-hold minigame. Holding the
  "Channel Energy" button raises the charge. Keeping the charge in the
  70–95 % sweet spot raises the resonance stability. A resonance lock needs
  full charge with at least 90 % stability. Releasing the button starts a decay.
- **Leap.** An authorization button starts a five-second transit countdown,
  followed by navigation to a random page.

This project models that logic in Dafny:

- `stages.dfy` (`StageMachine`): the four stages and their only order.
- `anchors.dfy` (`Anchors`): counting activated anchors.
- `resonance.dfy` (`Resonance`): the minigame as pure values:
  - one tick of the charge interval and of a decay interval;
  - the press and release handlers;
  - the colour band of the charge bar;
  - runs of ticks;
  - arbitrary schedules of presses, releases and timer firings.
- `countdown.dfy` (`Countdown`): the transit countdown.
- `session.dfy` (`TesseractInterface.Session`): the module-level state of the
  page as one class. Its fields are updated in place by event handlers and
  timer callbacks. The anchors' activated flags are an array. Each method's
  contract ties the new state to the pure functions above. The event
  handlers and timer firings also keep the invariant `Valid()`, which relates
  the stage to every pending timer, button and counter. The entry actions
  they call (`AdvanceStage`, `SetupAlignmentStage`, `SetupFocusStage`,
  `StopCharging`) run inside them, in intermediate states, and are specified
  by their effect alone.

Modelling choices:

- **Stability units.** Stability is kept in half-percent units (2.5 % = 5
  units, 0.5 % = 1, 1 % = 2, target 180, cap 200). Every reachable value is
  a multiple of 0.5 %, so this is exact.
- **Timers.** Each timer firing is a method that may be called while its
  timer is live, so the single-threaded event loop becomes an arbitrary
  interleaving of atomic steps.
- **Decay intervals.** Their handles are never stored, so they are counted
  rather than named.
- **Disabled buttons.** The handlers do not check whether their button is
  disabled. The model assumes that a disabled button delivers no click,
  mouse press or release, so the enabled flags gate those handlers. A touch
  press is not covered by that assumption. `TouchPress` models it without
  the gate, and `TouchAfterLockRestartsCharging` shows what it allows after
  a lock.

Two facts about the code matter for what is proved:

- **At full charge with stability short of 90 %,** a charge tick does not
  leave the readings as they were. 100 % is outside the sweet spot, so every
  such tick takes another 0.5 % of stability, while the interval keeps
  running. The code is modelled as written. See
  `UnstableFullChargeKeepsCharging` and `HoldAtFullNeverLocks`.
- **A decay interval keeps running after a new press.** It runs until both
  readings are 0. Press/release cycles therefore stack several decay
  intervals, and they fire between charge ticks.

An uninterrupted hold from rest reaches 100 % charge with exactly 31 %
stability, and it does not lock. The lock can still be won, and
`LockIsReachable` gives a schedule that does it with the intervals firing at
their own rates:

1. Hold from rest to 94 %.
2. Release, and let the decay interval bring the charge back to 70 %.
3. Press again while that interval is still running, and hold.

Every 100 ms the 50 ms charge interval then fires twice and the decay
interval fires once. Each period adds 1 % charge and up to 4 % stability.
The charge reaches 100 % with 93.5 % stability, and that tick locks.

## Model

| member | source | states |
|---|---|---|
| StageMachine.Next | script.js:159-245 | the stage that each completion (lines 159, 187 and 245) hands over to is the one ranked immediately after the current one; the leap stage has no successor |
| Anchors.CountActivated | script.js:180 | the number of activated anchors never exceeds the number of anchors |
| Anchors.NoneActivated | script.js:165-168 | with every anchor deactivated the count is 0 |
| Anchors.ActivateOne | script.js:177-180 | activating an anchor that was not yet activated raises the count by exactly one |
| Anchors.FullCountMeansAllActivated | script.js:184 | the count equals the number of anchors if and only if every anchor is activated |
| Countdown.Tick | script.js:326-341 | a countdown tick lowers the display by one; the interval stays live exactly while the value is positive; navigation is scheduled once the value is at most 0, and stays scheduled |
| Countdown.Run | script.js:323-341 | after k ticks from authorization (k at most 5) the display shows 5 - k, the interval is live exactly for k < 5, and navigation is scheduled exactly at k = 5, so no sixth tick can fire |
| Resonance.ChargeStep | script.js:229-235 | a charge tick keeps both readings in [0, 100] %; charge rises by 2 or stops at 100; stability rises by 2.5 % or stops at the cap when the new charge is in [70, 95]; otherwise it falls by exactly 0.5 %, floored at 0 |
| Resonance.DecayStep | script.js:274-281 | a decay tick keeps both readings in range and raises neither; it strictly lowers charge + stability unless both are 0; the readings reach rest exactly when charge was at most 3 % and stability at most 1 % |
| Resonance.DisplayBand | script.js:301-307 | the three colour bands are total and mutually exclusive: success exactly when stability is at least 90 % and charge at least 70 %; otherwise nominal exactly when stability is above 50 % and charge above 35 %; otherwise warning |
| Resonance.LockShowsSuccessBand | script.js:238-239 | any reading that passes the lock test is shown in the success band |
| Resonance.EnterFocus | script.js:193-198 | entering the focus stage resets both readings to 0, enables the button and clears the lock, leaving the timers untouched |
| Resonance.TouchPress | script.js:211-228 | a touch press starts the charge interval exactly when the stage is focus, charge is below 100 % and no charge interval is running, whether or not the button is enabled; nothing else changes |
| Resonance.Press | script.js:221-228 | a press starts the charge interval exactly when the button is enabled, the stage is focus, charge is below 100 % and no charge interval is running; at most one charge interval exists; nothing else changes |
| Resonance.Release | script.js:265-272 | after a release no charge interval runs; the decay intervals grow by exactly one if and only if the charge interval was running; nothing else changes |
| Resonance.ChargeTick | script.js:228-251 | a charge tick moves the readings as ChargeStep; it locks if and only if the new readings reach 100 % charge with at least 90 % stability; on a lock it stops charging, disables the button and schedules the leap advance; the decay intervals are untouched |
| Resonance.DecayTick | script.js:272-293 | a decay tick moves the readings as DecayStep; its interval retires if and only if both readings are then 0; nothing else changes |
| Resonance.LockIsFinal | script.js:238-268 | after a lock, presses and releases change nothing |
| Resonance.TouchAtFullChargeChangesNothing | script.js:222 | at full charge, a touch press changes nothing |
| Resonance.TouchAfterLockRestartsCharging | script.js:211-293 | after a lock with a decay interval still running, one decay firing takes the charge to 97 %, and a touch press then restarts charging on the disabled, locked button |
| Resonance.PressReleaseAddsDecayTimer | script.js:221-294 | decay intervals stack: each press/release cycle leaves one more decay interval running |
| Resonance.DecayTickProgress | script.js:272-293 | every decay tick strictly lowers charge + stability + running decay intervals, so decay alone ends |
| Resonance.Hold | script.js:228-235 | any number of held charge ticks keeps both readings in range |
| Resonance.Discharge | script.js:272-281 | any number of decay ticks keeps both readings in range |
| Resonance.DischargeClosedForm | script.js:274-281 | n decay ticks lower charge by 3n and stability by n %, each floored at 0 |
| Resonance.DischargeReachesRest | script.js:283-292 | decay alone brings the readings to rest after exactly the larger of ceil(charge / 3) and ceil(stability / 1 %) ticks, and not before |
| Resonance.HoldCharge | script.js:229 | n held ticks raise charge to min(100, charge + 2n) |
| Resonance.HoldAtFullNeverLocks | script.js:238-249 | held at 100 % charge with stability below 90 %, charge stays at 100 %, stability never rises and the lock is never reached |
| Resonance.UnstableFullChargeKeepsCharging | script.js:231-249 | a tick at 100 % charge with stability below 90 % keeps the interval running and the button enabled, and takes 0.5 % of stability away |
| Resonance.LockNeedsMargin | script.js:229-239 | a tick can lock only from at least 98 % charge and more than 90 % stability |
| Resonance.RampToSweetSpot | script.js:229-235 | from rest, the first 34 held ticks raise charge by 2 each and leave stability at 0 |
| Resonance.ThroughSweetSpot | script.js:229-232 | the next 13 held ticks raise charge from 68 % to 94 % and stability by 2.5 % each |
| Resonance.UninterruptedChargeFromRest | script.js:228-249 | an uninterrupted hold from rest reaches 100 % on tick 50 with exactly 31 % stability; that tick does not lock, and the bar shows the warning band |
| Resonance.Step | script.js:221-293 | any single press, release, charge-interval firing or decay-interval firing preserves the minigame invariant: readings in range, charging only with the button enabled, no enabled button after a lock |
| Resonance.RunSchedule | script.js:221-293 | any schedule of presses, releases and interval firings keeps both readings within [0, 100] % and preserves the invariant |
| Resonance.RunScheduleAppend | script.js:221-293 | running two schedules one after the other is running their concatenation |
| Resonance.LockSurvivesSchedule | script.js:238-259 | after a lock, no schedule of events clears it, restarts charging or re-enables the button, so the leap advance is scheduled once |
| Resonance.SweetRun | script.js:229-232 | while charge stays within the sweet spot and stability below the cap, each held tick adds exactly 2 % charge and 2.5 % stability |
| Resonance.OffSpotRun | script.js:229-235 | while every new charge stays below 70 % or above 95 %, each held tick takes exactly 0.5 % of stability, floored at 0 |
| Resonance.RunCharges | script.js:228-251 | charge-interval firings that stay below full charge move the readings exactly as the same number of held ticks, and change nothing else |
| Resonance.RunDecays | script.js:272-293 | decay firings that do not reach rest move the readings exactly as the same number of decay ticks, and change nothing else |
| Resonance.OpeningReachesSweetSpot | script.js:193-293 | from focus entry, holding to 94 %, releasing and decaying eight ticks leaves 70 % charge, 24.5 % stability and one decay interval |
| Resonance.Paced | script.js:228-293 | n periods of holding with one decay interval running are 3n events |
| Resonance.PacedGauge | script.js:228-293 | the readings after any number of such periods stay in range |
| Resonance.RunPaced | script.js:228-293 | periods that each start at 95 % charge or less neither lock nor retire the decay interval; they move the readings exactly as PacedGauge and change nothing else |
| Resonance.PacedSweetRun | script.js:229-235 | inside the sweet spot and below the cap, each period adds exactly 1 % charge and 4 % stability |
| Resonance.PacedNearCap | script.js:229-235 | from (88 %, 96.5 %), the next eight periods each start at 95 % or less and end at (96 %, 94.5 %) |
| Resonance.PacedFromSweetSpot | script.js:229-235 | from (70 %, 24.5 %), each of 26 periods starts at 95 % or less, and they end at (96 %, 94.5 %) |
| Resonance.LockIsReachable | script.js:193-293 | the lock can be won from focus entry with every live decay interval firing once per two charge firings, as their 100 ms and 50 ms periods give |
| TesseractInterface.Session.constructor | script.js:45-54 | the page starts in the initiation stage with no anchors activated, an idle minigame and no countdown |
| TesseractInterface.Session.AdvanceStage | script.js:128-148 | the stage becomes the argument; alignment entry resets all anchors and the counter and attaches the handlers; focus entry resets the minigame and enables its button; leap entry enables the leap button |
| TesseractInterface.Session.ClickInitiate | script.js:151-161 | the initiate button disables itself and schedules exactly one move to alignment |
| TesseractInterface.Session.FireInitiationTimeout | script.js:156-160 | the initiation timeout moves from initiation to its successor, alignment, with every anchor deactivated |
| TesseractInterface.Session.FireAlignmentTimeout | script.js:187 | the alignment timeout moves from alignment to its successor, focus, with the minigame reset |
| TesseractInterface.Session.FireLeapTimeout | script.js:245 | the timeout after a lock moves from focus to its successor, leap, and enables the leap button |
| TesseractInterface.Session.SetupAlignmentStage | script.js:164-173 | alignment entry sets the counter to 0, deactivates every node and attaches the click handlers; the counter equals the number of activated nodes |
| TesseractInterface.Session.ClickNode | script.js:175-190 | a click on an attached, not yet activated node activates exactly that node and raises the count by one; the eighth activation detaches the handlers and schedules the focus advance; any other click changes nothing; the advance is scheduled only with every anchor activated |
| TesseractInterface.Session.SetupFocusStage | script.js:193-198 | focus entry resets both readings, enables the button and clears the lock |
| TesseractInterface.Session.StartCharging | script.js:221-228 | a press acts on the page state exactly as Press |
| TesseractInterface.Session.StopCharging | script.js:254-259 | afterwards no charge interval runs |
| TesseractInterface.Session.StopChargingAndDecay | script.js:265-272 | a release acts on the page state exactly as Release |
| TesseractInterface.Session.FireChargeTick | script.js:228-251 | a charge-interval firing acts on the page state exactly as ChargeTick |
| TesseractInterface.Session.FireDecayTick | script.js:272-293 | a decay-interval firing acts on the page state exactly as DecayTick |
| TesseractInterface.Session.InitiateHyperLeap | script.js:316-326 | the leap button disables itself and starts the countdown at 5 with its interval live, once only |
| TesseractInterface.Session.FireCountdownTick | script.js:326-341 | a countdown firing acts on the page state exactly as Tick and counts one more tick |
| TesseractInterface.Session.FireNavigation | script.js:338-340 | navigation happens once, after exactly five countdown ticks |

## Left out

- DOM writes are not modelled: text, styles, class toggles, the charge bar
  width and the displayed stability rounding. The displayed band is the pure
  function `DisplayBand`. Adding and removing listeners is modelled only as
  the flags that gate which handlers act.
- Sounds are not modelled: the charge loop, clicks, warp and the ambient
  track with its autoplay fallback. Their playback is a browser call, and
  its failure paths do not affect the game state.
- Console logging is not modelled; it is output only.
- The particle system is not modelled: random positions, canvas drawing,
  animation frames and the leap particle burst. It is floating-point
  randomness with no effect on the game.
- The resize handler and the page start-up are not modelled: preloader
  fade, `DOMContentLoaded` and layout measurement. The constructor starts
  from the state the variable declarations give.
- Wall-clock durations (2000, 1500, 1000, 100 and 50 ms) are not modelled.
  Every timer is a discrete event that may fire in any order with the
  others. The model therefore admits more interleavings than real timing
  allows, for example several decay firings between two charge firings.
  Properties proved for every schedule hold for the real timings too. The
  schedule in `LockIsReachable` keeps to the real rates: two charge firings
  for each firing of each running decay interval.
- The navigation to the random page URL is the flag `navigated`, not a
  call.
- The touch-start wrapper only cancels the browser default before pressing.
  Otherwise it is the same handler as `StartCharging`.
- Press: assumes that a disabled button delivers no press, so it holds
  mouse presses back once the button is disabled. The session and the
  schedules model mouse presses only. A touch press after a lock can restart
  charging on the disabled button (`TouchAfterLockRestartsCharging`). The
  second lock and the second timeout to the leap stage that can then follow
  are not modelled.
- LockIsFinal: holds for mouse presses only, under the same assumption.
  For touch presses, `TouchAtFullChargeChangesNothing` holds only while the
  charge is still full.
- LockSurvivesSchedule: holds for schedules without touch presses, under the
  same assumption.
