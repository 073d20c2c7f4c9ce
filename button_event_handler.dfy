// ButtonEventHandler (include/hardware_driver/driver/button_event_handler.hpp,
// src/driver/button_event_handler.cpp) as a class over its four member fields.
// The injected callbacks are passed to each entry point as a `Callbacks` value
// (whether each is set, and what the controller callback answers), the clock
// reading as a timestamp, and every callback invocation is appended to the
// ghost trace `calls`. Each method is proved to follow the transition function
// of HandlerSpec for the same operation, and to keep the session invariant.

module EventHandler {
  import opened ButtonDriverInterface
  import opened HandlerSpec
  import opened HandlerProperties

  class ButtonEventHandler {
    var isTeaching: bool
    var isReplaying: bool
    var currentTrajectoryName: string
    var lastInterface: string

    /** Every callback invocation made by this handler so far, in order. */
    ghost var calls: seq<Call>

    ghost function State(): Session
      reads this
    {
      Session(isTeaching, isReplaying, currentTrajectoryName, lastInterface)
    }

    ghost predicate Valid()
      reads this
    {
      ValidSession(State())
    }

    /** Not teaching, not replaying, empty trajectory name and interface. */
    constructor ()
      ensures Valid()
      ensures State() == Fresh
      ensures !isTeaching && !isReplaying
      ensures currentTrajectoryName == "" && lastInterface == ""
      ensures calls == []
    {
      isTeaching := false;
      isReplaying := false;
      currentTrajectoryName := "";
      lastInterface := "";
      calls := [];
    }

    // -------------------------------------------------------------------------
    // Read-only accessors

    function GetLastInterface(): (r: string)
      reads this
      ensures r == State().lastInterface
    {
      lastInterface
    }

    function GetCurrentTrajectoryName(): (r: string)
      reads this
      ensures r == State().trajectory
      ensures Valid() && r != "" ==> IsGeneratedName(r)
    {
      currentTrajectoryName
    }

    function IsTeaching(): (r: bool)
      reads this
      ensures r == State().teaching
      ensures Valid() && r ==> !IsReplaying() && IsGeneratedName(GetCurrentTrajectoryName())
    {
      isTeaching
    }

    function IsReplaying(): (r: bool)
      reads this
      ensures r == State().replaying
      ensures Valid() && r ==> !isTeaching
    {
      isReplaying
    }

    // -------------------------------------------------------------------------
    // Entry points

    /** `on_button_event(interface, status)`. */
    method OnButtonEvent(iface: string, status: ButtonStatus, cb: Callbacks, timestamp: int)
      requires Valid()
      modifies this
      ensures Valid()
      ensures State() == ButtonEventStep(old(State()), iface, status, cb, timestamp).session
      ensures calls == old(calls) + ButtonEventStep(old(State()), iface, status, cb, timestamp).calls
    {
      ghost var received := Logged(cb, EventReceived(iface, StatusCode(status)));
      Log(cb, EventReceived(iface, StatusCode(status)));
      lastInterface := iface;
      ghost var s1, logged := State(), calls;
      match status {
        case EntryTeach => HandleEntryTeach(iface, cb, timestamp);
        case ExitTeach => HandleExitTeach(iface, cb);
        case TeachRepeat => HandleTeachRepeat(iface, cb);
        case _ => Log(cb, UnknownStatus(StatusCode(status)));
      }
      ghost var handled := Dispatch(s1, iface, status, cb, timestamp);
      assert State() == handled.session && calls == logged + handled.calls;
      AppendAssociative(old(calls), received, handled.calls);
    }

    /** `notify_replay_complete(interface)`. */
    method NotifyReplayComplete(iface: string, cb: Callbacks)
      requires Valid()
      modifies this
      ensures Valid()
      ensures State() == ReplayCompleteStep(old(State()), iface, cb).session
      ensures calls == old(calls) + ReplayCompleteStep(old(State()), iface, cb).calls
    {
      if isReplaying {
        isReplaying := false;
        ghost var logged := Logged(cb, ReplayCompleted(iface));
        Log(cb, ReplayCompleted(iface));
        ghost var signal := if cb.replayComplete then [ReplayCompleteSignal(iface)] else [];
        if cb.replayComplete {
          calls := calls + signal;
        }
        AppendAssociative(old(calls), logged, signal);
      }
    }

    // -------------------------------------------------------------------------
    // Private handlers

    /** `handle_entry_teach`. */
    method HandleEntryTeach(iface: string, cb: Callbacks, timestamp: int)
      requires Valid()
      modifies this
      ensures Valid()
      ensures State() == EntryTeachStep(old(State()), iface, cb, timestamp).session
      ensures calls == old(calls) + EntryTeachStep(old(State()), iface, cb, timestamp).calls
    {
      if isTeaching {
        Log(cb, DuplicateEntry);
        return;
      }
      if isReplaying {
        Log(cb, EntryRejectedWhileReplaying);
        return;
      }
      ghost var announced := Logged(cb, EnteringTeach(iface));
      Log(cb, EnteringTeach(iface));
      currentTrajectoryName := GenerateTrajectoryName(timestamp);
      match cb.controller {
        case Unset =>
          Log(cb, NoControllerCallback);
          AppendAssociative(old(calls), announced, Logged(cb, NoControllerCallback));
        case Answers(ok) =>
          ghost var request := [ControllerSwitch(StartRecord, currentTrajectoryName)];
          calls := calls + request;
          ghost var outcome := Logged(cb, if ok then RecordingStarted(currentTrajectoryName) else StartRecordFailed);
          if ok {
            isTeaching := true;
            Log(cb, RecordingStarted(currentTrajectoryName));
          } else {
            Log(cb, StartRecordFailed);
          }
          AppendAssociative(old(calls), announced, request);
          AppendAssociative(old(calls), announced + request, outcome);
      }
    }

    /** `handle_exit_teach`. */
    method HandleExitTeach(iface: string, cb: Callbacks)
      requires Valid()
      modifies this
      ensures Valid()
      ensures State() == ExitTeachStep(old(State()), iface, cb).session
      ensures calls == old(calls) + ExitTeachStep(old(State()), iface, cb).calls
    {
      if !isTeaching {
        Log(cb, ExitIgnoredNotTeaching);
        return;
      }
      ghost var announced := Logged(cb, ExitingTeach(iface));
      Log(cb, ExitingTeach(iface));
      match cb.controller {
        case Unset =>
          Log(cb, NoControllerCallback);
          AppendAssociative(old(calls), announced, Logged(cb, NoControllerCallback));
        case Answers(ok) =>
          ghost var request := [ControllerSwitch(StopRecord, currentTrajectoryName)];
          calls := calls + request;
          ghost var outcome := Logged(cb, if ok then RecordingSaved(currentTrajectoryName) else StopRecordFailed);
          if ok {
            isTeaching := false;
            Log(cb, RecordingSaved(currentTrajectoryName));
          } else {
            Log(cb, StopRecordFailed);
          }
          AppendAssociative(old(calls), announced, request);
          AppendAssociative(old(calls), announced + request, outcome);
      }
    }

    /** `handle_teach_repeat`. */
    method HandleTeachRepeat(iface: string, cb: Callbacks)
      requires Valid()
      modifies this
      ensures Valid()
      ensures State() == TeachRepeatStep(old(State()), iface, cb).session
      ensures calls == old(calls) + TeachRepeatStep(old(State()), iface, cb).calls
    {
      if isTeaching {
        Log(cb, ReplayRejectedWhileTeaching);
        return;
      }
      if isReplaying {
        Log(cb, DuplicateReplay);
        return;
      }
      ghost var announced := Logged(cb, StartingReplay(iface, currentTrajectoryName));
      Log(cb, StartingReplay(iface, currentTrajectoryName));
      match cb.controller {
        case Unset =>
          Log(cb, NoControllerCallback);
          AppendAssociative(old(calls), announced, Logged(cb, NoControllerCallback));
        case Answers(ok) =>
          ghost var request := [ControllerSwitch(StartReplay, currentTrajectoryName)];
          calls := calls + request;
          ghost var outcome := Logged(cb, if ok then ReplayStarted(currentTrajectoryName) else StartReplayFailed);
          if ok {
            isReplaying := true;
            Log(cb, ReplayStarted(currentTrajectoryName));
          } else {
            Log(cb, StartReplayFailed);
          }
          AppendAssociative(old(calls), announced, request);
          AppendAssociative(old(calls), announced + request, outcome);
      }
    }

    /** `log(message)`: reaches the log callback only when one is set. */
    ghost method Log(cb: Callbacks, note: Note)
      modifies this`calls
      ensures calls == old(calls) + Logged(cb, note)
    {
      if cb.log {
        calls := calls + [LogLine(note)];
      }
    }
  }
}
