// The two enumerations shared between the CAN button transport and the event
// handler (include/hardware_driver/driver/button_driver_interface.hpp). Both are
// C++ `enum class` types whose underlying type is uint8_t, so their numeric
// codes are part of the interface.

module ButtonDriverInterface {

  newtype uint8 = x: int | 0 <= x < 256

  /** A byte that is not the value of any declared ButtonStatus enumerator. */
  type UnknownCode = c: uint8 | c > 3 witness 4

  /** A decoded button status. `Other(code)` stands for a byte value outside the
      four declared enumerators, which a cast can still place in the enum. */
  datatype ButtonStatus =
    | None          // 0: no status
    | EntryTeach    // 1: short press followed by a 2 s long press
    | ExitTeach     // 2: 2 s long press
    | TeachRepeat   // 3: double click
    | Other(code: UnknownCode)

  /** The underlying uint8_t value of a status: 0..3 for the enumerators, above 3 otherwise. */
  function StatusCode(s: ButtonStatus): (r: uint8)
    ensures s.Other? <==> r > 3
  {
    match s
    case None => 0
    case EntryTeach => 1
    case ExitTeach => 2
    case TeachRepeat => 3
    case Other(c) => c
  }

  /** The status a uint8_t value denotes: one of the four enumerators, or `Other`. */
  function StatusOfCode(c: uint8): (s: ButtonStatus)
    ensures StatusCode(s) == c
    ensures s.Other? <==> c > 3
  {
    if c == 0 then None
    else if c == 1 then EntryTeach
    else if c == 2 then ExitTeach
    else if c == 3 then TeachRepeat
    else Other(c)
  }

  /** Decoding the code of a status gives the status back. */
  lemma StatusCodeRoundTrip(s: ButtonStatus)
    ensures StatusOfCode(StatusCode(s)) == s
  {
  }

  /** A mode-change request sent to the motion controller. */
  datatype ControllerCommand =
    | StartRecord   // 1: enter teaching
    | StopRecord    // 2: leave teaching
    | StartReplay   // 3: replay the recorded trajectory

  /** The underlying uint8_t value of a command. */
  function CommandCode(c: ControllerCommand): (r: uint8)
    ensures 1 <= r <= 3
  {
    match c
    case StartRecord => 1
    case StopRecord => 2
    case StartReplay => 3
  }

  /** Distinct commands have distinct codes. */
  lemma CommandCodeInjective(a: ControllerCommand, b: ControllerCommand)
    requires CommandCode(a) == CommandCode(b)
    ensures a == b
  {
  }
}
