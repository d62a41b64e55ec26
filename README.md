# Mikro-v2: step classifier and hydration counter

A model of the two pieces of logic in the Mikro-v2 Wear OS application.

**Step accumulator and minute classifier** (`StepsDataRepository`, module
`Steps` in `steps.dfy`). The step-counter sensor reports absolute step
totals. The first reading is only a baseline, and a last total of 0 means
"no baseline yet". After that, a reading adds its difference to the
accumulator of the current minute when the difference is positive. The
reading is recorded as the new last total either way. Once a minute, a
tick exchanges the accumulator for 0. The minute is active if more than
ten steps were captured, and inactive otherwise. Exactly one of the two
counters goes up by one.

The module has two layers:

- A value-level specification: `Counters`, `OnReading`, `OnTick`, and
  `Run` over a sequence of `Event`s.
- The class `StepsDataRepository`. It has the four fields `lastTotal`
  (the source's `lastTotalSensorSteps`), `acc` (`stepsInCurrentMinute`),
  `active` and `inactive` (`_activeMinutes`, `_inactiveMinutes`). It also
  has a ghost history of events. `Valid()` ties the fields to `Run` of
  that history, together with these invariants: the accumulator is
  non-negative, `active + inactive` is the number of ticks, steps are
  conserved, and the last total is the last reading.

Conservation compares against `Gain`. `Gain` is a reference definition of
"the positive deltas observed". It is computed from the readings alone, so
it shows that ticks never lose or invent steps.

**Hydration counter** (`HydrationTrackerScreen`, module `Hydration` in
`hydration.dfy`). The screen has a glass count and a goal. Both are read
from the `water_prefs` store, with defaults 0 and 8. Four guarded buttons
change them: count −, count +, goal − and goal +. Lowering the goal below
the count pulls the count down with it. `HydrationTracker` holds
`glassCount`, `maxGlasses` and the store as a `map<string, int>`.
`Valid()` says that the in-memory values are what the store holds. Each
click handler is proved equal to the pure `Press`. `Press` keeps
`0 <= count <= goal && goal >= 1`, and `PressAllKeepsWithinGoal` extends
that to any sequence of clicks.

## Model


| member | source | states |
|---|---|---|
| Steps.BaselineReading | Mikrov2/app/src/main/java/com/example/mikrov2/StepsDataRepository.kt:108-118 | with no baseline, a reading of any size only records the total; accumulator and counters unchanged |
| Steps.Contribution | Mikrov2/app/src/main/java/com/example/mikrov2/StepsDataRepository.kt:123-132 | a reading's contribution is never negative; it is positive only after a real baseline, and then it is exactly the increase |
| Steps.ReadingAddsContribution | Mikrov2/app/src/main/java/com/example/mikrov2/StepsDataRepository.kt:123-136 | every reading overwrites the last total (even with a lower one) and adds exactly the non-negative contribution; counters untouched |
| Steps.ReadingExamples | Mikrov2/app/src/main/java/com/example/mikrov2/StepsDataRepository.kt:108-136 | a first reading of 500 leaves the accumulator at 0; a drop from 1000 to 998 adds nothing but records 998 |
| Steps.ZeroTotalIsNoBaseline | Mikrov2/app/src/main/java/com/example/mikrov2/StepsDataRepository.kt:108-112 | a total of 0 is indistinguishable from "no baseline": readings 0 then 15 count nothing |
| Steps.ZeroReArms | Mikrov2/app/src/main/java/com/example/mikrov2/StepsDataRepository.kt:108-125 | after a positive baseline, a reading of 0 adds nothing and clears the baseline, so the next reading of any size is only recorded |
| Steps.TickClassifies | Mikrov2/app/src/main/java/com/example/mikrov2/StepsDataRepository.kt:164-183 | a tick empties the accumulator, keeps the last total, and bumps exactly one counter: active iff more than 10 steps |
| Steps.ThresholdIsStrict | Mikrov2/app/src/main/java/com/example/mikrov2/StepsDataRepository.kt:171 | 10 captured steps make an inactive minute, 11 an active one |
| Steps.RunInvariant | Mikrov2/app/src/main/java/com/example/mikrov2/StepsDataRepository.kt:130-183 | over any events: accumulator stays non-negative, each tick adds exactly one to active + inactive, neither counter decreases |
| Steps.MinutesAreTicks | Mikrov2/app/src/main/java/com/example/mikrov2/StepsDataRepository.kt:47-61 | from construction (all zero), active + inactive equals the number of ticks and the accumulator is non-negative |
| Steps.CountersMonotone | Mikrov2/app/src/main/java/com/example/mikrov2/StepsDataRepository.kt:171-183 | extending a run never lowers either counter |
| Steps.ReadingsKeepCounters | Mikrov2/app/src/main/java/com/example/mikrov2/StepsDataRepository.kt:100-138 | any run of readings alone leaves both counters unchanged |
| Steps.NoReadingsAllInactive | Mikrov2/app/src/main/java/com/example/mikrov2/StepsDataRepository.kt:164-183 | with no readings (no sensor), n ticks give exactly 0 active and n inactive minutes |
| Steps.Conservation | Mikrov2/app/src/main/java/com/example/mikrov2/StepsDataRepository.kt:123-164 | captured steps plus the accumulator equal the starting accumulator plus all positive deltas of the readings; the last total is the last reading |
| Steps.NothingLost | Mikrov2/app/src/main/java/com/example/mikrov2/StepsDataRepository.kt:59-164 | from construction, all captured minutes plus the current accumulator equal the sum of all positive deltas observed |
| Steps.TickBetweenReadings | Mikrov2/app/src/main/java/com/example/mikrov2/StepsDataRepository.kt:130-164 | +3, +2 then a tick captures 5 and leaves 0; +3, a tick, then +2 captures 3 and leaves 2 |
| Steps.StepsDataRepository.constructor | Mikrov2/app/src/main/java/com/example/mikrov2/StepsDataRepository.kt:47-61 | all four variables start at 0, with an empty history |
| Steps.StepsDataRepository.OnSensorChanged | Mikrov2/app/src/main/java/com/example/mikrov2/StepsDataRepository.kt:100-138 | the new state is OnReading of the old one; last total is the reading; acc grows by the contribution; counters and refresh requests unchanged; invariants kept |
| Steps.StepsDataRepository.MinuteTick | Mikrov2/app/src/main/java/com/example/mikrov2/StepsDataRepository.kt:162-188 | returns the old accumulator, leaves it 0, keeps the last total, bumps active iff captured > 10 else inactive, requests one refresh; invariants kept |
| Steps.StepsDataRepository.ActiveMinutes | Mikrov2/app/src/main/java/com/example/mikrov2/StepsDataRepository.kt:47-49 | the current active count, between 0 and the number of elapsed minutes |
| Steps.StepsDataRepository.InactiveMinutes | Mikrov2/app/src/main/java/com/example/mikrov2/StepsDataRepository.kt:52-54 | the current inactive count, between 0 and the number of elapsed minutes |
| Hydration.WithGoal | app/src/main/java/com/example/mikrov2/presentation/MainActivity.kt:87-90 | setting the goal to m makes it m and the count the minimum of the count and m |
| Hydration.DefaultsWithinGoal | app/src/main/java/com/example/mikrov2/presentation/MainActivity.kt:72-78 | an empty store gives 0 of 8 glasses, which is within the bound |
| Hydration.PressKeepsWithinGoal | app/src/main/java/com/example/mikrov2/presentation/MainActivity.kt:112-148 | each of the four guarded clicks keeps 0 <= count <= goal and goal >= 1 |
| Hydration.PressAllKeepsWithinGoal | app/src/main/java/com/example/mikrov2/presentation/MainActivity.kt:112-148 | the bound holds after any sequence of clicks |
| Hydration.PressEffect | app/src/main/java/com/example/mikrov2/presentation/MainActivity.kt:112-148 | a disabled click does nothing; count −/+ move the count by one; goal − lowers the goal by one, clamping a full count; goal + always raises the goal |
| Hydration.UpThenDown | app/src/main/java/com/example/mikrov2/presentation/MainActivity.kt:112-148 | count + then count − restores the state; so does goal + then goal − within the bound |
| Hydration.FromEmptyStore | app/src/main/java/com/example/mikrov2/presentation/MainActivity.kt:72-148 | from an empty store, no click sequence makes the count negative, larger than the goal, or the goal below 1 |
| Hydration.HydrationTracker.constructor | app/src/main/java/com/example/mikrov2/presentation/MainActivity.kt:67-78 | the state is the store's values with defaults 0 and 8; memory and store agree |
| Hydration.HydrationTracker.UpdateCount | app/src/main/java/com/example/mikrov2/presentation/MainActivity.kt:80-85 | the count becomes n and "glasses_drank" is stored as n; the goal is unchanged; one refresh is requested |
| Hydration.HydrationTracker.UpdateMaxGlasses | app/src/main/java/com/example/mikrov2/presentation/MainActivity.kt:87-93 | the goal becomes m and "max_glasses" is stored as m; a count above m becomes m and is stored too; otherwise the count is unchanged |
| Hydration.HydrationTracker.OnCountDown | app/src/main/java/com/example/mikrov2/presentation/MainActivity.kt:113-114 | only when count > 0: count − 1, stored as "glasses_drank", one refresh requested; otherwise nothing changes; equals Press with count −; keeps the bound |
| Hydration.HydrationTracker.OnCountUp | app/src/main/java/com/example/mikrov2/presentation/MainActivity.kt:120-121 | only when count < goal: count + 1, stored as "glasses_drank", one refresh requested; otherwise nothing changes; equals Press with count +; keeps the bound |
| Hydration.HydrationTracker.OnGoalDown | app/src/main/java/com/example/mikrov2/presentation/MainActivity.kt:140-141 | only when goal > 1: the goal drops by one and is stored as "max_glasses"; a count above it is clamped and stored too (two refreshes, else one); otherwise nothing changes; keeps the bound |
| Hydration.HydrationTracker.OnGoalUp | app/src/main/java/com/example/mikrov2/presentation/MainActivity.kt:147 | always raises the goal by one and stores it as "max_glasses"; the count is unchanged within the bound, and any clamp write and the 1 or 2 refreshes are stated exactly |

## Left out

- Sensor registration and unregistration, and the `SensorManager` lookup. These are platform I/O. A device without a step sensor is a run with no `Reading` events, covered by `NoReadingsAllInactive`.
- The float-to-int conversion of the sensor value. The reading is taken as an `int`.
- The coroutine scope, the 60-second `delay`, `scope.isActive` and cancellation, i.e. `unregister`. One loop iteration is the method `MinuteTick`.
- The atomicity of `AtomicInteger`. `addAndGet` and `getAndSet(0)` are sequential updates. A tick that falls between two readings is exactly the event order `TickBetweenReadings` describes. Interleavings inside a single update are not modelled.
- `updateComplications`, `requestComplicationUpdate` and `requestTileUpdate`. These are OS calls, counted only by the ghost `refreshRequests`.
- The lazily-created singleton `getInstance`. This is threading and global state.
- Logging, `onAccuracyChanged`, and the Compose layout and rendering. The `enabled` flags of the buttons are the same conditions as their click guards, so they are the predicate `Enabled`.
- The `rememberSaveable` restore path. After a configuration change the state may come from saved instance state instead of the store. The model always reads the store.
- The complication and tile services. They only read the two counters or the two stored values and format them.
- Integer overflow. Counters, totals and the goal are unbounded `int`s, so Kotlin's 32-bit wrap-around on an endless goal + is not modelled.
- The sentinel 0. The source relies on readings being monotone since boot. It uses `lastTotal == 0` rather than a separate flag for "no baseline", and the model keeps this behaviour as written: a reading of 0 clears the baseline, so the next reading is only recorded (`ZeroReArms`), and a first reading of 0 is no baseline at all (`ZeroTotalIsNoBaseline`).
- Goal + from a store whose count is above the goal plus one: the source then clamps the count as well. `OnGoalUp` states this case exactly, and promises an unchanged count only within the bound.
