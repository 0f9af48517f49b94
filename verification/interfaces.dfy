/** The header's interfaces and sequences of calls on one door. `Door` is a
    capability set of exactly three calls; `TimedDoor` implements it and adds
    `getTimeOut` and `throwState`; the adapter's `Timeout` is the single
    callback of `TimerClient`. A run applies calls one after another, with a
    caller that catches each exception and goes on. */
module Interfaces {
  import opened Outcomes
  import opened Timers
  import opened TimedDoors

  /** The `Door` interface: exactly `lock`, `unlock` and `isDoorOpened`. */
  datatype DoorCall = LockCall | UnlockCall | IsDoorOpenedCall

  /** Every call a client can make on a door: through the `Door` interface,
      the two members only `TimedDoor` has, or the `TimerClient` callback of
      the door's adapter. */
  datatype Call =
    | ThroughDoor(call: DoorCall)
    | GetTimeOutCall
    | ThrowStateCall
    | TimeoutCall

  /** What a call hands back when it returns. */
  datatype Reply = Nothing | Flag(isOpen: bool) | Duration(timeout: Int32)

  /** The outcome of a `void` member as a reply: nothing on return, the
      same fault on a throw. */
  function Void(o: Outcome<()>): (r: Outcome<Reply>) {
    match o
    case Returned(_) => Returned(Nothing)
    case Threw(f) => Threw(f)
  }

  /** Dispatches one call to the door's member of that name. */
  function Apply(d: TimedDoor, c: Call): (s: Step<Reply>)
    requires Valid(d)
    ensures Valid(s.door) && Frame(d, s.door)
  {
    match c
    case ThroughDoor(LockCall) =>
      var r := Lock(d); Step(r.door, Void(r.outcome))
    case ThroughDoor(UnlockCall) =>
      var r := Unlock(d); Step(r.door, Void(r.outcome))
    case ThroughDoor(IsDoorOpenedCall) =>
      var r := IsDoorOpened(d); Step(r.door, Returned(Flag(r.outcome.value)))
    case GetTimeOutCall =>
      Step(d, Returned(Duration(GetTimeOut(d))))
    case ThrowStateCall =>
      var r := ThrowState(d); Step(r.door, Void(r.outcome))
    case TimeoutCall =>
      var r := Timeout(d.adapter, d); Step(r.door, Void(r.outcome))
  }

  /** What the `Door` interface promises of each of its calls: `lock`
      leaves the door closed and returns, `unlock` leaves it open (a timer
      may still throw), `isDoorOpened` reports the state and changes nothing. */
  ghost predicate DoorContract(d: TimedDoor, c: DoorCall, s: Step<Reply>) {
    match c
    case LockCall => !s.door.isOpened && s.outcome == Returned(Nothing)
    case UnlockCall => s.door.isOpened
    case IsDoorOpenedCall => s.door == d && s.outcome == Returned(Flag(d.isOpened))
  }

  /** `TimedDoor` implements `Door`: each of the three calls meets the
      interface's contract and leaves the timeout and bindings alone. */
  lemma TimedDoorImplementsDoor(d: TimedDoor, c: DoorCall)
    requires Valid(d)
    ensures DoorContract(d, c, Apply(d, ThroughDoor(c)))
    ensures Frame(d, Apply(d, ThroughDoor(c)).door)
  {
  }

  /** `getTimeOut` is `const`: the call leaves the door exactly as it was. */
  lemma GetTimeOutIsConst(d: TimedDoor)
    requires Valid(d)
    ensures Apply(d, GetTimeOutCall).door == d
    ensures Apply(d, GetTimeOutCall).outcome == Returned(Duration(d.iTimeout))
  {
  }

  /** The door after a run of calls, each applied to the door the previous
      one left, whether or not it threw. */
  function Run(d: TimedDoor, calls: seq<Call>): (e: TimedDoor)
    requires Valid(d)
    ensures Valid(e) && Frame(d, e)
    decreases |calls|
  {
    if |calls| == 0 then d
    else Run(Apply(d, calls[0]).door, calls[1..])
  }

  /** The state the last `lock` or `unlock` of a run wrote, if any. */
  function LastWrite(calls: seq<Call>): (w: Option<bool>)
    decreases |calls|
  {
    if |calls| == 0 then None
    else
      var later := LastWrite(calls[1..]);
      if later.Some? then later
      else match calls[0]
        case ThroughDoor(LockCall) => Some(false)
        case ThroughDoor(UnlockCall) => Some(true)
        case _ => None
  }

  /** The open flag after a run is the one the last `lock`/`unlock` wrote,
      and the flag the run started with when there is none: no other call
      writes it. */
  lemma {:induction false} RunOpenState(d: TimedDoor, calls: seq<Call>)
    requires Valid(d)
    ensures LastWrite(calls).Some? ==> Run(d, calls).isOpened == LastWrite(calls).value
    ensures LastWrite(calls).None? ==> Run(d, calls).isOpened == d.isOpened
    decreases |calls|
  {
    if |calls| > 0 {
      RunOpenState(Apply(d, calls[0]).door, calls[1..]);
    }
  }

  /** `getTimeOut` returns the constructor's argument after any run of
      calls: only the constructor writes the timeout. */
  lemma TimeoutSurvivesRun(id: DoorId, timeout: Int32, timer: Timer, calls: seq<Call>)
    ensures GetTimeOut(Run(NewWithTimer(id, timeout, timer), calls)) == timeout
    ensures GetTimeOut(Run(New(id, timeout), calls)) == timeout
  {
  }

  /** A run that ends with `lock`, after anything at all, leaves the door
      closed, and the adapter's callback then returns normally: closing
      before the timer fires suppresses the fault. */
  lemma {:induction false} LockLast(d: TimedDoor, calls: seq<Call>)
    requires Valid(d)
    ensures !Run(d, calls + [ThroughDoor(LockCall)]).isOpened
    ensures Apply(Run(d, calls + [ThroughDoor(LockCall)]), TimeoutCall).outcome == Returned(Nothing)
  {
    var all := calls + [ThroughDoor(LockCall)];
    LastWriteOfSuffix(calls, ThroughDoor(LockCall));
    RunOpenState(d, all);
  }

  /** Appending a `lock` or `unlock` makes it the last write. */
  lemma {:induction false} LastWriteOfSuffix(calls: seq<Call>, c: Call)
    requires c == ThroughDoor(LockCall) || c == ThroughDoor(UnlockCall)
    ensures LastWrite(calls + [c]) == Some(c == ThroughDoor(UnlockCall))
    decreases |calls|
  {
    if |calls| == 0 {
      assert calls + [c] == [c];
    } else {
      assert (calls + [c])[1..] == calls[1..] + [c];
      LastWriteOfSuffix(calls[1..], c);
    }
  }
}
