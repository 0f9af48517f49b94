# TimedDoor in Dafny

A model of the TimedDoor exercise: a door that is locked or unlocked, a
timer that calls a client back after a delay, and an adapter that turns the
timer's callback into a check of the door, throwing "Door is still open"
when the door is open.

Every C++ object is an immutable record and every member function a pure
transition. A call that may throw returns a `Step`: the door after the call
and an `Outcome`, either `Returned(value)` or `Threw(DoorStillOpen)`. A
thrown exception does not roll back what the call already wrote.

- `outcomes.dfy` (`Outcomes`): the 32-bit `int` of the timeout, a null-able
  pointer (`Option`), the single fault, and `Outcome`.
- `timer.dfy` (`Timers`): the `Timer` interface with its two
  implementations. `Synchronous` is the library's `Timer`, whose
  `tregister` calls the client back at once because its `sleep` is empty.
  `Silent` is the demo's `RealTimer`, whose `tregister` does nothing.
  `Register` returns the callbacks a registration delivers.
- `timed_door.dfy` (`TimedDoors`): `TimedDoor` with its fields, both
  constructors, `isDoorOpened`, `lock`, `unlock`, `getTimeOut`,
  `throwState`, and `DoorTimerAdapter::Timeout`. A door's identity (its
  address) is a `DoorId`, and the adapter holds the identity of the door it
  refers to.
- `interfaces.dfy` (`Interfaces`): the `Door` capability set, dispatch of
  every call, and runs of calls in which the caller catches each exception
  and goes on.
- `scenarios.dfy` (`Scenarios`): the unit tests' call sequences and the demo
  program, stated as lemmas about what the implementation does.

The header and the implementation disagree. The header's constructor takes
an injected `Timer&` and its `Timer` is abstract. The implementation defines
only a one-argument constructor, and its `unlock` declares a local concrete
firing `Timer` that shadows the header's `timer` member, so no written
`unlock` ever consults an injected timer. The model covers both: the door
carries a `Timer` strategy, `New` is the implementation's constructor with
the firing timer, and `NewWithTimer` is the header's constructor. The header
declares `TimedDoor(int, Timer&)` without defining it anywhere, so the
initial state `NewWithTimer` sets up (closed, adapter bound to the door
itself) is taken from the one-argument constructor. A door on the `Silent`
timer describes the header's design, not written code: under the written
`unlock`, the demo program's `unlock` throws (`DemoAsWritten`).

The model follows the implementation where the tests expect something else:
- `throwState` throws even when the door is closed. The test "no exception
  when door is closed" expects no exception.
- With the firing timer, `unlock` runs the adapter while the door is open,
  so `unlock` always throws, and the door stays open. Six tests call
  `unlock` outside any expectation of a throw and so end in an uncaught
  exception at that call: "unlock opens the door", "lock closes the door",
  "throwState throws when door is open", "adapter calls throwState on
  timeout", "can reopen after closing" and "timer reset when locked before
  timeout". None of them reaches its own expectation.

## Model

| member | source | states |
|---|---|---|
| Timers.Register | src/TimedDoor.cpp:42-48 | a registration delivers at most one callback, only to the registered client, and exactly one precisely when the timer fires and the client is not null |
| Timers.SynchronousFiresOnce | src/TimedDoor.cpp:42-48 | the firing timer calls a non-null client back exactly once and a null client never |
| Timers.RegisterIgnoresDuration | src/TimedDoor.cpp:50-52 | `sleep` has no effect: any two durations deliver the same callbacks |
| TimedDoors.NewWithTimer | include/TimedDoor.h:42 | the header's constructor: the door starts closed, keeps the given timeout and injected timer, and its adapter refers to the door itself |
| TimedDoors.New | src/TimedDoor.cpp:12-14 | the implementation's constructor: the door starts closed, `getTimeOut` returns the argument, and the door uses the firing timer |
| TimedDoors.IsDoorOpened | src/TimedDoor.cpp:20-22 | reports whether the door is open and leaves the door unchanged |
| TimedDoors.GetTimeOut | src/TimedDoor.cpp:34-36 | returns the timeout stored in the door; with `TimeoutSurvivesRun`, that is the constructor's argument after any run of calls |
| TimedDoors.Lock | src/TimedDoor.cpp:30-32 | the door is closed afterwards, whatever it was before, the call returns, and timeout, timer and adapter are untouched |
| TimedDoors.ThrowState | src/TimedDoor.cpp:38-40 | always throws "Door is still open", open or closed, and leaves the door unchanged |
| TimedDoors.Timeout | src/TimedDoor.cpp:6-10 | the adapter's callback throws if and only if its door is open, and never changes the door |
| TimedDoors.Deliver | src/TimedDoor.cpp:45-47 | delivering `Timeout` callbacks to adapters of a door leaves the door unchanged and throws exactly when there is a callback and the door is open |
| TimedDoors.Unlock | src/TimedDoor.cpp:24-28 | the door is open afterwards, even when the call throws; it throws "Door is still open" if and only if the door's timer is the firing one |
| TimedDoors.LockIdempotent | src/TimedDoor.cpp:30-32 | `lock; lock` has the same effect as one `lock` |
| TimedDoors.TimeoutFollowsLastTransition | src/TimedDoor.cpp:6-10 | the adapter checks the current state: after `lock` its callback returns, after `unlock` it throws |
| Interfaces.Apply | include/TimedDoor.h:35-48 | no member of `TimedDoor` changes its identity, adapter binding, timer or timeout |
| Interfaces.TimedDoorImplementsDoor | include/TimedDoor.h:19-25 | each of `Door`'s three calls meets the interface contract on a `TimedDoor`: `lock` closes and returns, `unlock` opens, `isDoorOpened` reports the state and changes nothing |
| Interfaces.GetTimeOutIsConst | include/TimedDoor.h:46 | `getTimeOut` leaves the door exactly as it was and returns the stored timeout |
| Interfaces.Run | include/TimedDoor.h:29-40 | after any run of calls the door keeps its identity, timer, timeout and adapter, and the adapter still refers to the door |
| Interfaces.RunOpenState | src/TimedDoor.cpp:24-32 | after a run, the door is open if and only if the last `lock`/`unlock` was `unlock`, and keeps its initial state if the run has neither |
| Interfaces.TimeoutSurvivesRun | src/TimedDoor.cpp:34-36 | `getTimeOut` returns the constructor's argument after any run of calls, with either constructor |
| Interfaces.LockLast | src/TimedDoor.cpp:6-10 | a run that ends with `lock` leaves the door closed, and the adapter's callback then returns |
| Scenarios.UnlockOnFreshDoorThrows | test/tests.cpp:34-37 | with the one-argument constructor the first `unlock` throws and leaves the door open, so the test's bare `unlock` ends in an uncaught exception |
| Scenarios.ThrowStateOnLockedDoorThrows | test/tests.cpp:50-53 | `lock` then `throwState` on a fresh door: the door is closed and `throwState` still throws, unlike the test's expectation |
| Scenarios.SecondAdapterSeesSameDoor | test/tests.cpp:55-59 | the test's `unlock` already throws, so `adapter.Timeout()` is never reached; had it been, a second adapter on the same door throws while the door is open and returns once it is locked |
| Scenarios.DemoWithSilentTimer | src/main.cpp:5-15 | under the header's injected-timer design, with a timer that never calls back, `lock` and `unlock` return normally, the door ends open, and the timeout is 5 |
| Scenarios.DemoAsWritten | src/TimedDoor.cpp:24-28 | the demo's `lock; unlock` under the written `unlock`, which ignores the injected timer: `lock` returns, `unlock` throws and the door stays open |

## Left out

- Memory management: the adapter's `new`/`delete` in the implementation and the header's `unique_ptr`. They decide ownership, not behaviour.
- The field `client` that `Timer::tregister` writes. Nothing reads it, and the timer is a local variable of `unlock`.
- Real time: `Timer::sleep` is empty, so the delay is not modelled. The duration is passed to `Register` and ignored.
- Exception types and message text: one `DoorStillOpen` fault stands for the `std::runtime_error`.
- Dangling references: an adapter that outlives its door is undefined behaviour in C++. `Timeout` requires the door passed in to be the one the adapter refers to.
- Destructors of `TimedDoor`, `Door`, `TimerClient` and `Timer`: they have no observable effect here.
- The mock `TimerClient` of the tests. `Register` is generic over the client type, which stands for any `TimerClient`.
- Concurrency: no code in this library starts a thread.
- Interfaces.Run: a run catches each exception and goes on, as the tests' `EXPECT_THROW` does. Code that lets an exception escape stops at the throwing call, and that case is not modelled as a run.
- TimedDoors.Unlock: on a door built by `NewWithTimer` with the `Silent` timer it returns normally, which follows the header's injected timer; the written `unlock` never consults an injected timer, and the header's constructor has no definition.
