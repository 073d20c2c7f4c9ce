# Button event handler: a Dafny model

This project models the event handler of a CAN-bus teach button. The handler turns
decoded button statuses into requests to a motion controller. The requests enter
teaching (recording a trajectory), leave teaching, and replay the recorded trajectory.
Its state is two flags, `is_teaching_` and `is_replaying_`, plus the current
trajectory name and the last interface name. Together the flags encode three modes:
IDLE, TEACHING and REPLAYING. A mode changes only when the injected controller
callback answers `true`. A separate notification from the motion layer ends a
replay and fires the replay-complete callback.

Files:

- `button_driver_interface.dfy` (module `ButtonDriverInterface`): the enums
  `ButtonStatus` and `ControllerCommand` with their `uint8_t` codes.
  `Other(code)` stands for a status byte above 3, outside the four enumerators. Such a byte
  reaches the `default:` branch of the handler's switch.
- `decimal.dfy` (module `Decimal`): the decimal text that `stringstream << time_t`
  writes. `Parse` is its inverse.
- `handler_spec.dfy` (module `HandlerSpec`): the handler's fields as a `Session`
  value. It has one transition function per entry point and per private handler.
  Each transition returns the new session and the ordered list of callback
  invocations (`Call`) it makes.
- `handler_properties.dfy` (module `HandlerProperties`): the properties. These
  cover the session invariant over any sequence of events, each handler's guards,
  and the exact controller and transport calls per event. They also show that the
  flags follow the IDLE / TEACHING / REPLAYING transition table.
- `button_event_handler.dfy` (module `EventHandler`): the class
  `ButtonEventHandler`. Its fields are the source's four members, plus a ghost trace
  `calls` of every callback invocation. Each method is proved to follow its
  transition function and to keep the invariant `Valid()`.

External collaborators become inputs. Each entry point receives a `Callbacks` value.
It says whether a controller callback is set and what it answers if invoked
(`Unset | Answers(ok)`). It also says whether a replay-complete callback and a log
callback are set. The clock reading that `generate_trajectory_name` takes from
`system_clock` is passed in as an integer `timestamp`. Log messages are recorded as
one `Note` kind per log site, not as text.

Two points where the code does less than a reader might expect. The model follows
the code:

- A failed or missing controller answer is meant to leave the handler as it was
  (include/hardware_driver/driver/button_event_handler.hpp:37-41 documents the
  boolean result as the success signal). But `handle_entry_teach` overwrites
  `current_trajectory_name_` before it calls the controller
  (src/driver/button_event_handler.cpp:73). So a failed or unanswered START_RECORD
  still replaces the name that a later TEACH_REPEAT will replay.
  `EntryTeachFromIdle` states this.
- Names are not guaranteed fresh. Two entries with the same clock second get the
  same name. `GeneratedNamesDiffer` proves only that different timestamps give
  different names.

## Model

| member | source | states |
|---|---|---|
| `ButtonDriverInterface.StatusOfCode` | include/hardware_driver/driver/button_driver_interface.hpp:27-32 | byte 0..3 decodes to NONE, ENTRY_TEACH, EXIT_TEACH, TEACH_REPEAT and any other byte to `Other`; the code of the decoded status is the byte |
| `ButtonDriverInterface.StatusCode` | include/hardware_driver/driver/button_driver_interface.hpp:27-32 | the byte value of a status: 0..3 exactly for NONE, ENTRY_TEACH, EXIT_TEACH, TEACH_REPEAT, above 3 for any other byte |
| `ButtonDriverInterface.StatusCodeRoundTrip` | include/hardware_driver/driver/button_driver_interface.hpp:27-32 | decoding the code of any status gives the status back |
| `ButtonDriverInterface.CommandCode` | include/hardware_driver/driver/button_driver_interface.hpp:35-39 | START_RECORD, STOP_RECORD, START_REPLAY have codes in 1..3 |
| `ButtonDriverInterface.CommandCodeInjective` | include/hardware_driver/driver/button_driver_interface.hpp:35-39 | distinct commands have distinct codes |
| `Decimal.Digits` | src/driver/button_event_handler.cpp:139 | the digits of a natural number are non-empty decimal digits with no leading zero |
| `Decimal.Format` | src/driver/button_event_handler.cpp:139 | the streamed text of a signed integer is a decimal numeral that starts with '-' exactly when the number is negative |
| `Decimal.ParseDigitsOfDigits` | src/driver/button_event_handler.cpp:139 | reading the digits of n back gives n |
| `Decimal.FormatRoundTrip` | src/driver/button_event_handler.cpp:139 | parsing the streamed text of n gives n |
| `Decimal.FormatInjective` | src/driver/button_event_handler.cpp:139 | distinct integers stream to distinct texts |
| `HandlerSpec.Logged` | src/driver/button_event_handler.cpp:143-147 | a log message produces one log-callback call when a log callback is set and none otherwise |
| `HandlerSpec.GenerateTrajectoryName` | src/driver/button_event_handler.cpp:135-141 | a generated name is non-empty, starts with `button_traj_` and continues with the decimal timestamp |
| `HandlerSpec.GeneratedNameEncodesTimestamp` | src/driver/button_event_handler.cpp:135-141 | the timestamp can be read back from the text after the prefix |
| `HandlerSpec.GeneratedNamesDiffer` | src/driver/button_event_handler.cpp:135-141 | different timestamps give different names |
| `HandlerSpec.EntryTeachStep` | src/driver/button_event_handler.cpp:59-86 | while teaching or replaying the session is unchanged; from idle the name becomes the generated one and teaching becomes true iff the controller is set and answers true, nothing else changes |
| `HandlerSpec.ExitTeachStep` | src/driver/button_event_handler.cpp:88-107 | teaching is cleared exactly when the handler was teaching and the controller answered true; no other field changes |
| `HandlerSpec.TeachRepeatStep` | src/driver/button_event_handler.cpp:109-133 | replaying is set exactly when the handler was idle and the controller answered true, and kept if already replaying; no other field changes |
| `HandlerSpec.Dispatch` | src/driver/button_event_handler.cpp:28-44 | NONE and unknown bytes only log the unknown status; only ENTRY_TEACH can change the name or set teaching, only EXIT_TEACH can clear it; the last interface is untouched |
| `HandlerSpec.ButtonEventStep` | src/driver/button_event_handler.cpp:23-45 | every button event, whatever its status, records its interface as the last interface |
| `HandlerSpec.ReplayCompleteStep` | src/driver/button_event_handler.cpp:47-57 | afterwards the handler is not replaying, and no other field has changed |
| `HandlerProperties.FreshIsValid` | include/hardware_driver/driver/button_event_handler.hpp:110-113 | the initial session is neither teaching nor replaying and satisfies the session invariant |
| `HandlerProperties.StepKeepsValid` | src/driver/button_event_handler.cpp:47-132 | every button event and replay-complete notification keeps the invariant: never teaching and replaying at once, name empty or generated, generated while teaching |
| `HandlerProperties.RunKeepsValid` | src/driver/button_event_handler.cpp:23-132 | any sequence of events keeps the invariant |
| `HandlerProperties.NeverTeachingAndReplaying` | src/driver/button_event_handler.cpp:23-132 | from a fresh handler, no sequence of events leaves it teaching and replaying at once |
| `HandlerProperties.ButtonEventCalls` | src/driver/button_event_handler.cpp:28-44 | the controller and transport calls of a button event are those of the handler its status dispatches to; NONE and unknown statuses make none |
| `HandlerProperties.EntryTeachWhileBusyIgnored` | src/driver/button_event_handler.cpp:59-68 | ENTRY_TEACH while teaching or replaying changes only the last interface and calls neither controller nor transport |
| `HandlerProperties.EntryTeachFromIdle` | src/driver/button_event_handler.cpp:70-85 | ENTRY_TEACH from idle stores the generated name even on failure; a set controller gets exactly one START_RECORD with that name; teaching iff it answers true; not replaying |
| `HandlerProperties.ExitTeachWhenNotTeachingIgnored` | src/driver/button_event_handler.cpp:88-92 | EXIT_TEACH when not teaching changes only the last interface and calls neither controller nor transport |
| `HandlerProperties.ExitTeachWhileTeaching` | src/driver/button_event_handler.cpp:94-106 | EXIT_TEACH while teaching sends a set controller exactly one STOP_RECORD with the unchanged name; teaching ends iff it answers true; nothing else changes |
| `HandlerProperties.TeachRepeatWhileBusyIgnored` | src/driver/button_event_handler.cpp:109-118 | TEACH_REPEAT while teaching or replaying changes only the last interface and calls neither controller nor transport |
| `HandlerProperties.TeachRepeatFromIdle` | src/driver/button_event_handler.cpp:120-132 | TEACH_REPEAT from idle sends a set controller exactly one START_REPLAY with the current (possibly empty) name; replaying iff it answers true; nothing else changes |
| `HandlerProperties.UnhandledStatusIgnored` | src/driver/button_event_handler.cpp:23-45 | NONE or an unknown status changes only the last interface and calls neither controller nor transport |
| `HandlerProperties.FlagChangeNeedsControllerSuccess` | include/hardware_driver/driver/button_event_handler.hpp:37-41 | a button event changes a flag only when the controller callback is set and answers true |
| `HandlerProperties.NoControllerNoFlagChange` | src/driver/button_event_handler.cpp:76-132 | with no controller callback, no button event changes either flag |
| `HandlerProperties.ReplayCompleteWhileReplaying` | src/driver/button_event_handler.cpp:47-56 | while replaying, notification ends the replay, changes nothing else, calls no controller, and calls a set replay-complete callback exactly once with the interface |
| `HandlerProperties.ReplayCompleteWhenIdleIgnored` | src/driver/button_event_handler.cpp:47-48 | when not replaying, notification changes nothing and calls nothing |
| `HandlerProperties.ReplayCompleteTwiceIsOnce` | src/driver/button_event_handler.cpp:47-57 | a second notification right after the first is a no-op |
| `HandlerProperties.LoggingNotLoadBearing` | src/driver/button_event_handler.cpp:143-147 | without a log callback nothing is logged; whether one is set changes neither the session nor the controller and transport calls |
| `HandlerProperties.StepFollowsModeTable` | src/driver/button_event_handler.cpp:23-132 | one event moves the mode IDLE / TEACHING / REPLAYING exactly as the transition table says |
| `HandlerProperties.RunFollowsModeTable` | src/driver/button_event_handler.cpp:23-132 | any sequence of events moves the mode exactly as the table says |
| `HandlerProperties.RecordThenReplayUsesOneName` | src/driver/button_event_handler.cpp:73-124 | record, save, replay with an agreeing controller: START_RECORD, STOP_RECORD and START_REPLAY all carry the same generated name, ending in replay |
| `EventHandler.ButtonEventHandler.constructor` | include/hardware_driver/driver/button_event_handler.hpp:110-113 | a new handler is not teaching, not replaying, has empty trajectory name and last interface, and has made no calls |
| `EventHandler.ButtonEventHandler.GetLastInterface` | include/hardware_driver/driver/button_event_handler.hpp:72 | returns the last-interface field, reading only the object |
| `EventHandler.ButtonEventHandler.GetCurrentTrajectoryName` | include/hardware_driver/driver/button_event_handler.hpp:78 | returns the trajectory-name field, which under the invariant is empty or a generated name |
| `EventHandler.ButtonEventHandler.IsTeaching` | include/hardware_driver/driver/button_event_handler.hpp:83 | returns the teaching flag; under the invariant teaching implies not replaying and a generated name |
| `EventHandler.ButtonEventHandler.IsReplaying` | include/hardware_driver/driver/button_event_handler.hpp:88 | returns the replaying flag; under the invariant replaying implies not teaching |
| `EventHandler.ButtonEventHandler.OnButtonEvent` | src/driver/button_event_handler.cpp:23-45 | keeps `Valid()`; the new fields and the appended calls are those of `ButtonEventStep` |
| `EventHandler.ButtonEventHandler.NotifyReplayComplete` | src/driver/button_event_handler.cpp:47-57 | keeps `Valid()`; the new fields and the appended calls are those of `ReplayCompleteStep` |
| `EventHandler.ButtonEventHandler.HandleEntryTeach` | src/driver/button_event_handler.cpp:59-86 | keeps `Valid()`; the new fields and the appended calls are those of `EntryTeachStep` |
| `EventHandler.ButtonEventHandler.HandleExitTeach` | src/driver/button_event_handler.cpp:88-107 | keeps `Valid()`; the new fields and the appended calls are those of `ExitTeachStep` |
| `EventHandler.ButtonEventHandler.HandleTeachRepeat` | src/driver/button_event_handler.cpp:109-133 | keeps `Valid()`; the new fields and the appended calls are those of `TeachRepeatStep` |
| `EventHandler.ButtonEventHandler.Log` | src/driver/button_event_handler.cpp:143-147 | appends one log-callback call when a log callback is set, and nothing otherwise |

## Left out

- The callback setters `set_controller_switch_callback`, `set_replay_complete_callback` and `set_log_callback` (src/driver/button_event_handler.cpp:11-21) are not modelled as methods. Each entry point takes the callbacks as a `Callbacks` value instead. This also covers setters called between events.
- `std::atomic` flags and concurrent callers are not modelled. The model is sequential, one call at a time.
- Callbacks that re-enter the handler are not modelled: each callback returns before the handler resumes and makes no call back into it. `NeverTeachingAndReplaying` depends on this. In the source, a controller that delivers TEACH_REPEAT from inside its START_RECORD callback sets `is_replaying_` (src/driver/button_event_handler.cpp:125) and then `is_teaching_` (:78), so both flags end up true. A START_REPLAY callback that calls `notify_replay_complete` before it returns leaves the handler replaying.
- Log text is not modelled. This covers the Chinese messages and the `[ButtonEventHandler] ` prefix. Each log site is a `Note` kind with the values it prints.
- The clock is not modelled. `generate_trajectory_name` takes the `time_t` reading as an unbounded integer parameter, so the width of `time_t` is not modelled.
- The abstract `ButtonDriverInterface` and `ButtonEventObserver` classes are not modelled: send_replay_complete, observers, receive callback, CAN ids, the FXJS payload. They are pure virtual contracts with no logic. The replay-complete callback is the handler's only way to reach the transport.
- Shared ownership (`enable_shared_from_this`, `shared_ptr`) is not modelled.
- Exceptions thrown by a callback are not modelled. Neither is a controller callback that never returns.
- What the controller does with a request is not modelled. The model records only the request and the boolean answer.
