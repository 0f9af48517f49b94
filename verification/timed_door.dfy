/** The `TimedDoor` and its `DoorTimerAdapter`, as immutable records with pure
    transitions. A call that may throw returns a `Step`: the door as it is
    after the call (a thrown exception does not roll back what the call
    already wrote) and how the call ended. */
module TimedDoors {
  import opened Outcomes
  import opened Timers

  /** The identity of a door object (its address in the C++ program). */
  type DoorId = nat

  /** A `TimerClient` that holds a reference to one door. */
  datatype DoorTimerAdapter = DoorTimerAdapter(door: DoorId)

  /** The fields of a `TimedDoor`: its own adapter, the timer it registers
      with, the timeout and the open flag. */
  datatype TimedDoor = TimedDoor(
    id: DoorId,
    adapter: DoorTimerAdapter,
    timer: Timer,
    iTimeout: Int32,
    isOpened: bool)

  /** The door after a call, and how the call ended. */
  datatype Step<+T> = Step(door: TimedDoor, outcome: Outcome<T>)

  /** The class invariant: the door's adapter refers to the door itself. */
  ghost predicate Valid(d: TimedDoor) {
    d.adapter.door == d.id
  }

  /** Everything but the open flag is the same in `d` and `e`: the identity,
      the adapter binding, the timer and the timeout are written only by the
      constructor. */
  ghost predicate Frame(d: TimedDoor, e: TimedDoor) {
    && e.id == d.id
    && e.adapter == d.adapter
    && e.timer == d.timer
    && e.iTimeout == d.iTimeout
  }

  /** The constructor as the header declares it, `TimedDoor(int, Timer&)`:
      the timer is injected. The header gives it no definition; the initial
      state here (closed, adapter bound to the door itself) is the one the
      one-argument constructor of the implementation sets up. */
  function NewWithTimer(id: DoorId, timeout: Int32, timer: Timer): (d: TimedDoor)
    ensures Valid(d)
    ensures !d.isOpened
    ensures d.iTimeout == timeout && d.timer == timer && d.id == id
  {
    TimedDoor(id, DoorTimerAdapter(id), timer, timeout, false)
  }

  /** The constructor as the implementation defines it, `TimedDoor(int)`:
      every `unlock` uses a fresh firing timer. */
  function New(id: DoorId, timeout: Int32): (d: TimedDoor)
    ensures Valid(d)
    ensures !d.isOpened && GetTimeOut(d) == timeout
    ensures d.timer.Synchronous?
  {
    NewWithTimer(id, timeout, Synchronous)
  }

  /** `isDoorOpened`: reports the flag and changes nothing. */
  function IsDoorOpened(d: TimedDoor): (s: Step<bool>)
    ensures s.door == d
    ensures s.outcome.Returned? && (s.outcome.value <==> d.isOpened)
  {
    Step(d, Returned(d.isOpened))
  }

  /** `getTimeOut`: a `const` member, so it yields only a value, the
      timeout the constructor stored. */
  function GetTimeOut(d: TimedDoor): (t: Int32)
    ensures t == d.iTimeout
  {
    d.iTimeout
  }

  /** `lock`: the door is closed afterwards, whatever it was before. */
  function Lock(d: TimedDoor): (s: Step<()>)
    ensures !s.door.isOpened && Frame(d, s.door)
    ensures s.outcome.Returned?
  {
    Step(d.(isOpened := false), Returned(()))
  }

  /** `throwState`: throws "Door is still open" unconditionally, whether the
      door is open or closed, and leaves the door as it is. */
  function ThrowState(d: TimedDoor): (s: Step<()>)
    ensures s.door == d
    ensures s.outcome == Threw(DoorStillOpen)
  {
    Step(d, Threw(DoorStillOpen))
  }

  /** `DoorTimerAdapter::Timeout`: the adapter asks its door whether it is
      open and, only if so, has the door throw. It never writes the door.
      The door passed in is the one the adapter refers to. */
  function Timeout(a: DoorTimerAdapter, d: TimedDoor): (s: Step<()>)
    requires a.door == d.id
    ensures s.door == d
    ensures s.outcome.Threw? <==> d.isOpened
    ensures s.outcome.Threw? ==> s.outcome.fault == DoorStillOpen
  {
    var query := IsDoorOpened(d);
    if query.outcome.value then ThrowState(query.door)
    else Step(query.door, Returned(()))
  }

  /** Delivers the `Timeout` callbacks of a registration to adapters bound
      to `d`, one after the other; the first exception propagates and ends
      the delivery. Since the adapter only reads the door, the door is
      unchanged and the delivery throws exactly when there is a callback to
      deliver and the door is open. */
  function Deliver(d: TimedDoor, calls: seq<DoorTimerAdapter>): (s: Step<()>)
    requires forall i :: 0 <= i < |calls| ==> calls[i].door == d.id
    ensures s.door == d
    ensures s.outcome.Threw? <==> |calls| > 0 && d.isOpened
    ensures s.outcome.Threw? ==> s.outcome.fault == DoorStillOpen
    decreases |calls|
  {
    if |calls| == 0 then Step(d, Returned(()))
    else
      var first := Timeout(calls[0], d);
      if first.outcome.Threw? then first
      else Deliver(first.door, calls[1..])
  }

  /** `unlock`: sets the flag, then registers the door's adapter with the
      timer for the door's timeout. With the firing timer the adapter runs
      while the door is open, so `unlock` always ends by throwing; with the
      silent timer it returns normally. Either way the door stays open.
      The implementation's `unlock` always uses a fresh firing timer of its
      own, so only doors built by `New` describe written code; a door built
      by `NewWithTimer` with the silent timer follows the header's design. */
  function Unlock(d: TimedDoor): (s: Step<()>)
    requires Valid(d)
    ensures s.door.isOpened && Frame(d, s.door)
    ensures s.outcome.Threw? <==> d.timer.Synchronous?
    ensures s.outcome.Threw? ==> s.outcome.fault == DoorStillOpen
  {
    var unlocked := d.(isOpened := true);
    Deliver(unlocked, Register(d.timer, d.iTimeout, Some(d.adapter)))
  }

  /** `lock` is idempotent: locking a locked door changes nothing. */
  lemma LockIdempotent(d: TimedDoor)
    ensures Lock(Lock(d).door) == Lock(d)
  {
  }

  /** The adapter's check is a check of the CURRENT state: after `lock` its
      callback returns normally, after `unlock` it throws. */
  lemma TimeoutFollowsLastTransition(d: TimedDoor)
    requires Valid(d)
    ensures Timeout(d.adapter, Lock(d).door).outcome.Returned?
    ensures Timeout(d.adapter, Unlock(d).door).outcome == Threw(DoorStillOpen)
  {
  }
}
