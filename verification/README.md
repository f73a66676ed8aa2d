# oniondoor door controller — Dafny model

A model of the door-access state machine of oniondoor, a Raspberry Pi door
buzzer. A visitor presses the doorbell button. The controller unlocks the door
when one of three things holds: an operator has opened a time-bounded
activation window, enough devices are on the office WLAN, or the presses form
a "secret handshake" (a second press 10 to 15 seconds after the first). The
unlock runs on a background thread. That thread drives the output pin and is
guarded by an `unlocked` flag.

Every clock read of the source (`time.time()`, `arrow.now()`) becomes an
explicit `now: real` argument, in seconds. Each operation is then a pure
transition on an immutable record:

- `Handshake` (handshake.dfy): `SecretHandshake`. The phase is START or
  WAITING, plus the first press's time stamp. `ShakeEvent` reports whether the
  success action fired, and the controller performs that action.
- `Activation` (activation.dfy): `activate`, `deactivate` and `is_activated`
  acting on `active_until`. The model also keeps the stray `activate_until`
  attribute that the expiry branch writes by mistake.
- `Presence` (presence.dfy): `is_office_occupied`. The device count is an input.
- `UnlockCycle` (unlock_cycle.dfy): `unlock_door` and `unlock_door_async`.
  Each spawned thread is a sequence of four steps: set the flag, write LOW,
  write HIGH, clear the flag. Steps of different threads and further triggers
  may interleave in any order. `Exec` runs such an interleaving.
- `DoorController` (controller.dfy): construction and `button_pressed`.
- `Wrappers` (wrappers.dfy): `Option`, standing in for `None`.

Behaviour of the code that the model keeps as written:

- `is_activated` does not clear an expired window. Its expiry branch assigns
  `False` to a misspelt attribute, `activate_until`. So `active_until` keeps the
  stale expiry, and every later query still answers false.
- The cycle writes LOW and then HIGH. The pin is set up LOW, so the first
  cycle's LOW write does not change the level, and the pin rests HIGH after
  the first cycle. The earlier standalone prototype (oniondoor.py) writes HIGH and then
  LOW.
- `unlock_door` reads the flag, but the flag is only set later, inside the
  spawned thread. A second trigger that arrives before the first thread runs
  spawns a second cycle (see Findings).

## Model

| member | source | states |
|---|---|---|
| Handshake.ShakeEvent | oniondoor/door.py:40-64 | a press fires the success action iff the detector is WAITING and the press lands 10 to 15 s (both inclusive) after the recorded first press; from START it waits on the press's own time; from WAITING it always returns to START with time 0 |
| Handshake.FirstPressPending | oniondoor/door.py:43-47 | a first press never fires and anchors the attempt at its own time |
| Handshake.WindowBoundaries | oniondoor/door.py:49-54 | elapsed 10.0 and 15.0 fire; 9.99 and 15.01 do not |
| Handshake.SecondPressResets | oniondoor/door.py:61-64 | after any second press, success or failure, the next press is a fresh first press |
| Handshake.ReplayPairsPresses | oniondoor/door.py:40-64 | over any run of presses from START, presses pair up as (0,1), (2,3), …; press k fires iff it closes a pair inside the window; the detector ends WAITING on the last press iff the run has odd length, and ends reset otherwise |
| Activation.Activate | oniondoor/door.py:108-111 | sets the expiry to now plus the duration and keeps the stray attribute (datetime overflow not modelled; see Left out) |
| Activation.Deactivate | oniondoor/door.py:115-119 | removes the expiry |
| Activation.IsActivated | oniondoor/door.py:121-135 | answers true iff an expiry is set and now is strictly before it; never changes `active_until`; on an expired window it writes only the stray `activate_until` |
| Activation.ActivateThenQuery | oniondoor/door.py:108-132 | after activate(d) at now, a query at t is true iff t < now + d |
| Activation.ZeroDurationNeverActive | oniondoor/door.py:108-132 | a window opened with d <= 0 is never active at any time from the activation on |
| Activation.DeactivateCloses | oniondoor/door.py:115-127 | after deactivate every query is false, and deactivating twice equals once |
| Activation.ExpiredWindowStaysSet | oniondoor/door.py:129-135 | querying an expired window answers false and keeps the stale `active_until` |
| Activation.ExpiryIsPermanent | oniondoor/door.py:126-135 | once a query finds the window closed, every later query on the resulting window finds it closed |
| Presence.IsOfficeOccupied | oniondoor/door.py:137-149 | false whenever the feature is off; otherwise true iff the device count is strictly above the baseline |
| Presence.OccupancyMonotone | oniondoor/door.py:144-149 | more devices never turn occupied into unoccupied |
| Presence.BaselineIsNotOccupied | oniondoor/door.py:144-149 | a count equal to the baseline is not occupancy; one above it is |
| UnlockCycle.UnlockDoor | oniondoor/door.py:182-189 | a trigger with the flag set changes nothing; with it clear, it spawns one thread and neither touches the pin nor sets the flag |
| UnlockCycle.Step | oniondoor/door.py:165-180 | a thread step advances only that thread's stage: the first step sets the flag and writes nothing, the second writes LOW, the third writes HIGH (neither touches the flag), and the last clears the flag and writes nothing |
| UnlockCycle.TriggersWhileUnlockedIgnored | oniondoor/door.py:185-186 | any number of triggers while the flag is set leave the door unchanged |
| UnlockCycle.SoloCycle | oniondoor/door.py:165-189 | from an idle door, a trigger and one thread's steps, with triggers interleaved after each of its first three steps, run exactly one cycle: LOW, then HIGH, flag clear at the end |
| UnlockCycle.SoloCycleFlagSpan | oniondoor/door.py:170-180 | along a cycle the flag stays set from the first step until after the HIGH write; the step that clears it writes nothing |
| UnlockCycle.FirstCycleLeavesPinHigh | oniondoor/door.py:175-177 | a fresh controller's first cycle writes LOW over the set-up LOW, then HIGH, and leaves the pin HIGH |
| UnlockCycle.RacingTriggersOverlap | oniondoor/door.py:165-189 | two triggers before the first thread runs spawn two cycles, which breaks the at-most-one-in-flight guard; interleaved, they write LOW, LOW, HIGH, HIGH |
| UnlockCycle.AsWrittenTriggerOverlapsIff | oniondoor/door.py:165-189 | from any door with at most one cycle in flight and the flag set exactly when that cycle has started, the as-written trigger puts two cycles in flight iff some thread has been spawned but has not yet set the flag |
| UnlockCycle.UnlockDoorAtomic | oniondoor/door.py:182-189 | corrected trigger: sets the flag together with the decision to spawn |
| UnlockCycle.AtomicTriggerKeepsGuard | oniondoor/door.py:182-189 | the corrected trigger keeps at most one cycle in flight, with the flag set exactly while one is |
| UnlockCycle.StepKeepsGuard | oniondoor/door.py:165-180 | every thread step keeps that guard invariant |
| UnlockCycle.AtomicRunsStayGuarded | oniondoor/door.py:165-189 | with the corrected trigger, every interleaving of triggers and thread steps keeps the guard invariant |
| UnlockCycle.AtomicTriggerBlocksRace | oniondoor/door.py:182-189 | the racing pair of triggers spawns a single cycle under the corrected trigger |
| DoorController.NewController | oniondoor/door.py:70-103 | a new controller keeps its configuration, has no window (and no stray attribute), has the fresh door (flag clear, no threads, pin set up LOW), and has a fresh START handshake iff the handshake is enabled; the fresh door is idle and satisfies the corrected trigger's guard invariant, which the as-written press path leaves after one unlocking press |
| DoorController.ButtonPressed | oniondoor/door.py:151-163 | an open window or an occupied office triggers the unlock and leaves the handshake alone; otherwise the press goes to the handshake as exactly one event, which triggers the unlock if it fires; with no handshake nothing but the stray attribute changes; `active_until` never changes, and the stray attribute becomes `False` exactly when a recorded window has expired |
| DoorController.PressUnlocksIff | oniondoor/door.py:151-163 | a press spawns an unlock thread iff the flag is clear and either it opens directly or it closes a handshake inside the window; it never spawns more than one thread |
| DoorController.UnlockingPressLeavesGuard | oniondoor/door.py:151-189 | a new controller's door satisfies the corrected trigger's guard invariant, and one unlocking press on the as-written path breaks it (a thread spawned with the flag still clear) |
| DoorController.ActivationShortCircuits | oniondoor/door.py:155 | while the window is open, the device count has no effect on a press |
| DoorController.DisabledHandshakeIgnoresPress | oniondoor/door.py:159-163 | with the handshake disabled, a press that does not open directly changes nothing but the window's stray attribute |
| DoorController.ScenarioActivatedPress | oniondoor/door.py:108-163 | activate(120) at 0, then a press at 60, unlocks without touching the handshake |
| DoorController.ScenarioHandshake | oniondoor/door.py:40-163 | presses at 0 and 12 unlock; presses at 0 and 20 do not; both leave the handshake reset |
| DoorController.ScenarioPresence | oniondoor/door.py:137-163 | with 5 devices against a baseline of 3, a first press unlocks at once |
| DoorController.ScenarioStaleWindow | oniondoor/door.py:121-163 | a press after expiry keeps the stale expiry, sets the stray attribute and starts a handshake attempt instead of unlocking |

## Findings

| source | as written | input that shows it | evidently intended | confidence | as-written member | corrected member |
|---|---|---|---|---|---|---|
| oniondoor/door.py:165-189 | `unlock_door` tests `unlocked`, but the flag is set inside the spawned thread, so the test and the set are not one step | two calls of `unlock_door` before the first thread has executed `self.unlocked = True` | at most one unlock cycle at a time: the flag set together with the decision to spawn | medium (the window is the thread's start-up time); not executed | UnlockCycle.RacingTriggersOverlap | UnlockCycle.AtomicRunsStayGuarded |

`DoorController.ButtonPressed` keeps the as-written trigger, because it models
the press path as the code runs it. The corrected trigger is
`UnlockCycle.UnlockDoorAtomic`. The guard invariant is proved for it over
every interleaving.

## Left out

- GPIO pin numbering, pin setup, event-detect registration, `bounce_time` and `clean_up` (oniondoor/door.py:80-81, 88, 96-106, 191-192): hardware configuration. The model keeps only the LOW that setup writes, as the door's first output entry.
- The sleeps of the unlock thread (2 s before the LOW write, `unlocked_duration` = 3 s before the HIGH write): durations are not modelled. Each thread is four ordered, instantaneous steps, and any interleaving of steps stands for any timing.
- Real threads and Python's memory model: each step is atomic. The finer interleavings inside `button_pressed` are not modelled.
- Floating-point clocks and `arrow`/`datetime` arithmetic: times and durations are exact reals, so rounding at the window boundaries is not modelled.
- Logging calls throughout door.py.
- The success action of `SecretHandshake` is a stored callable. The model returns a `fired` flag, and the controller applies `unlock_door` itself. That is the only action the source ever stores.
- Presence.IsOfficeOccupied: the device count is an input. door.py reads `app.fritz.associated_devices` and `app.config.FRITZ_BASELINE` as attributes, but the gateway client (oniondoor/fritz.py:27) only defines `association_numbers`, and the configuration is a mapping. With the feature on, the source would raise there. The model gives the comparison the code evidently means instead.
- Activation.Activate: sets an expiry for every real duration. In door.py:110-111 the sum `arrow.now() + timedelta(seconds=...)` raises OverflowError once it passes the range of Python's datetime (year 9999), and `active_until` then stays as it was. Calendar limits are not modelled.
- Activation.ZeroDurationNeverActive: stated for query times at or after the activation. A clock that goes backwards would make a query before `now + d` answer true.
- oniondoor/main.py (web routes, duration parsing, the 2-minute default for non-positive durations), oniondoor/fritz.py (network client), oniondoor.py (superseded prototype) and setup.py (packaging) are not part of this model.
