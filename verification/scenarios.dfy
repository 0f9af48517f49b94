/** The library's own usage, replayed on the model: the unit tests' call
    sequences and the demo program. Where a test expects something the
    implementation does not do, the lemma states what the implementation
    does. */
module Scenarios {
  import opened Outcomes
  import opened Timers
  import opened TimedDoors
  import opened Interfaces

  /** With the one-argument constructor, the first `unlock` on a fresh door
      throws "Door is still open" (its own timer fires at once), and the door
      is left open. Every test that calls `unlock` outside an expectation of
      a throw therefore ends in an uncaught exception at that call. */
  lemma UnlockOnFreshDoorThrows(id: DoorId, timeout: Int32)
    ensures Unlock(New(id, timeout)).outcome == Threw(DoorStillOpen)
    ensures Unlock(New(id, timeout)).door.isOpened
  {
  }

  /** `lock` then `throwState` on a fresh door: the door is closed, yet
      `throwState` throws, since it does not look at the state. The test
      expects it not to throw. */
  lemma ThrowStateOnLockedDoorThrows(id: DoorId, timeout: Int32)
    ensures !Lock(New(id, timeout)).door.isOpened
    ensures ThrowState(Lock(New(id, timeout)).door).outcome == Threw(DoorStillOpen)
  {
  }

  /** The adapter test: the door's `unlock` already throws, so the test stops
      there. Had it gone on, a second adapter built on the same door would
      throw on the open door, and return once the door is locked. */
  lemma SecondAdapterSeesSameDoor(id: DoorId, timeout: Int32)
    ensures Unlock(New(id, timeout)).outcome == Threw(DoorStillOpen)
    ensures
      var open := Unlock(New(id, timeout)).door;
      && Timeout(DoorTimerAdapter(id), open).outcome == Threw(DoorStillOpen)
      && Timeout(DoorTimerAdapter(id), Lock(open).door).outcome.Returned?
  {
  }

  /** The demo under the header's design: a door built on a timer that never
      calls back is locked and unlocked without any exception and ends open. */
  lemma DemoWithSilentTimer()
    ensures
      var d := NewWithTimer(0, 5, Silent);
      var locked := Lock(d);
      var unlocked := Unlock(locked.door);
      && locked.outcome.Returned?
      && unlocked.outcome.Returned?
      && unlocked.door.isOpened
      && GetTimeOut(unlocked.door) == 5
  {
  }

  /** The demo under the written `unlock`, which ignores the injected timer
      and fires its own: `lock` returns, and `unlock` throws on the open
      door. */
  lemma DemoAsWritten()
    ensures
      var locked := Lock(New(0, 5));
      var unlocked := Unlock(locked.door);
      && locked.outcome.Returned?
      && unlocked.outcome == Threw(DoorStillOpen)
      && unlocked.door.isOpened
  {
  }
}
