/** Values shared by every part of the model: the C++ `int` width, the one
    fault the door can raise, and the result of a call that may throw. */
module Outcomes {

  /** The C++ `int` the timeout is stored in (32 bits, two's complement). */
  newtype Int32 = x: int | -0x8000_0000 <= x < 0x8000_0000

  /** A possibly absent value; `None` stands for a null pointer. */
  datatype Option<+T> = None | Some(value: T)

  /** The only fault of the door: the `std::runtime_error` carrying
      "Door is still open". Its message text is not modelled further. */
  datatype Fault = DoorStillOpen

  /** How a call ends: it returns a value, or it throws a fault. */
  datatype Outcome<+T> = Returned(value: T) | Threw(fault: Fault)
}
