// The button event handler's behaviour as values: a `Session` (the handler's
// four member fields), the callbacks as they answer one call, and one
// transition function per entry point and per private handler of
// src/driver/button_event_handler.cpp. Each transition returns the new session
// and the callback invocations it makes, in order. The class in
// button_event_handler.dfy is proved to follow these functions; the lemmas
// below state what the source promises about them, and that the two boolean
// flags follow the three-mode table IDLE / TEACHING / REPLAYING.

module HandlerSpec {
  import opened ButtonDriverInterface
  import Decimal

  /** The member fields of ButtonEventHandler. */
  datatype Session = Session(
    teaching: bool,         // is_teaching_
    replaying: bool,        // is_replaying_
    trajectory: string,     // current_trajectory_name_
    lastInterface: string)  // last_interface_

  /** The field initialisers of a freshly constructed handler. */
  const Fresh: Session := Session(false, false, "", "")

  /** The controller-switch callback as seen by one call: unset, or set and
      answering `ok` when it is invoked. */
  datatype Controller = Unset | Answers(ok: bool)

  /** What the three injected callbacks do during one call into the handler. */
  datatype Callbacks = Callbacks(
    controller: Controller,
    replayComplete: bool,   // a replay-complete callback is set
    log: bool)              // a log callback is set

  /** The messages the handler logs, one kind per log site (their text is not modelled). */
  datatype Note =
    | EventReceived(iface: string, code: uint8)
    | UnknownStatus(code: uint8)
    | ReplayCompleted(iface: string)
    | DuplicateEntry
    | EntryRejectedWhileReplaying
    | EnteringTeach(iface: string)
    | RecordingStarted(name: string)
    | StartRecordFailed
    | NoControllerCallback
    | ExitIgnoredNotTeaching
    | ExitingTeach(iface: string)
    | RecordingSaved(name: string)
    | StopRecordFailed
    | ReplayRejectedWhileTeaching
    | DuplicateReplay
    | StartingReplay(iface: string, name: string)
    | ReplayStarted(name: string)
    | StartReplayFailed

  /** One invocation of an injected callback. */
  datatype Call =
    | ControllerSwitch(command: ControllerCommand, trajectory: string)
    | ReplayCompleteSignal(iface: string)
    | LogLine(note: Note)

  datatype Recipient = ToController | ToTransport | ToLogger

  function RecipientOf(c: Call): Recipient {
    match c
    case ControllerSwitch(_, _) => ToController
    case ReplayCompleteSignal(_) => ToTransport
    case LogLine(_) => ToLogger
  }

  /** The calls in `calls` addressed to `r`, in order. */
  function CallsTo(calls: seq<Call>, r: Recipient): (sub: seq<Call>)
    ensures |sub| <= |calls|
    ensures forall i :: 0 <= i < |sub| ==> RecipientOf(sub[i]) == r
  {
    if calls == [] then []
    else (if RecipientOf(calls[0]) == r then [calls[0]] else []) + CallsTo(calls[1..], r)
  }

  lemma {:induction false} CallsToAppend(a: seq<Call>, b: seq<Call>, r: Recipient)
    ensures CallsTo(a + b, r) == CallsTo(a, r) + CallsTo(b, r)
  {
    if a != [] {
      assert (a + b)[0] == a[0];
      assert (a + b)[1..] == a[1..] + b;
      CallsToAppend(a[1..], b, r);
    } else {
      assert a + b == b;
    }
  }

  lemma AppendAssociative(a: seq<Call>, b: seq<Call>, c: seq<Call>)
    ensures (a + b) + c == a + (b + c)
  {
  }

  /** The new session and the callback invocations of one transition. */
  datatype Outcome = Outcome(session: Session, calls: seq<Call>)

  /** `log(message)`: forwards to the log callback when one is set, else nothing. */
  function Logged(cb: Callbacks, note: Note): (calls: seq<Call>)
    ensures cb.log ==> calls == [LogLine(note)]
    ensures !cb.log ==> calls == []
  {
    if cb.log then [LogLine(note)] else []
  }

  const TrajectoryPrefix: string := "button_traj_"

  /** A name of the shape `generate_trajectory_name` produces. */
  predicate IsGeneratedName(name: string) {
    |name| > |TrajectoryPrefix|
    && name[..|TrajectoryPrefix|] == TrajectoryPrefix
    && Decimal.IsDecimal(name[|TrajectoryPrefix|..])
  }

  /** `generate_trajectory_name()` with the clock reading supplied as `timestamp`. */
  function GenerateTrajectoryName(timestamp: int): (name: string)
    ensures IsGeneratedName(name)
    ensures name != ""
  {
    var digits := Decimal.Format(timestamp);
    var name := TrajectoryPrefix + digits;
    assert name[..|TrajectoryPrefix|] == TrajectoryPrefix;
    assert name[|TrajectoryPrefix|..] == digits;
    name
  }

  /** The timestamp can be read back from the name it produced. */
  lemma GeneratedNameEncodesTimestamp(timestamp: int)
    ensures Decimal.Parse(GenerateTrajectoryName(timestamp)[|TrajectoryPrefix|..]) == timestamp
  {
    var name := GenerateTrajectoryName(timestamp);
    assert name[|TrajectoryPrefix|..] == Decimal.Format(timestamp);
    Decimal.FormatRoundTrip(timestamp);
  }

  /** Clock readings that differ give different names (equal readings give equal names). */
  lemma GeneratedNamesDiffer(t1: int, t2: int)
    requires t1 != t2
    ensures GenerateTrajectoryName(t1) != GenerateTrajectoryName(t2)
  {
    GeneratedNameEncodesTimestamp(t1);
    GeneratedNameEncodesTimestamp(t2);
  }

  // ---------------------------------------------------------------------------
  // Transitions

  /** `handle_entry_teach`. */
  function EntryTeachStep(s: Session, iface: string, cb: Callbacks, timestamp: int): (o: Outcome)
    ensures s.teaching || s.replaying ==> o.session == s
    ensures !s.teaching && !s.replaying ==>
      o.session == s.(teaching := cb.controller == Answers(true), trajectory := GenerateTrajectoryName(timestamp))
  {
    if s.teaching then Outcome(s, Logged(cb, DuplicateEntry))
    else if s.replaying then Outcome(s, Logged(cb, EntryRejectedWhileReplaying))
    else
      var announced := Logged(cb, EnteringTeach(iface));
      var name := GenerateTrajectoryName(timestamp);
      var named := s.(trajectory := name);
      match cb.controller
      case Unset =>
        Outcome(named, announced + Logged(cb, NoControllerCallback))
      case Answers(ok) =>
        Outcome(named.(teaching := ok),
                announced + [ControllerSwitch(StartRecord, name)]
                + Logged(cb, if ok then RecordingStarted(name) else StartRecordFailed))
  }

  /** `handle_exit_teach`. */
  function ExitTeachStep(s: Session, iface: string, cb: Callbacks): (o: Outcome)
    ensures o.session == s.(teaching := s.teaching && cb.controller != Answers(true))
  {
    if !s.teaching then Outcome(s, Logged(cb, ExitIgnoredNotTeaching))
    else
      var announced := Logged(cb, ExitingTeach(iface));
      match cb.controller
      case Unset =>
        Outcome(s, announced + Logged(cb, NoControllerCallback))
      case Answers(ok) =>
        Outcome(s.(teaching := !ok),
                announced + [ControllerSwitch(StopRecord, s.trajectory)]
                + Logged(cb, if ok then RecordingSaved(s.trajectory) else StopRecordFailed))
  }

  /** `handle_teach_repeat`. */
  function TeachRepeatStep(s: Session, iface: string, cb: Callbacks): (o: Outcome)
    ensures o.session == s.(replaying := s.replaying || (!s.teaching && cb.controller == Answers(true)))
  {
    if s.teaching then Outcome(s, Logged(cb, ReplayRejectedWhileTeaching))
    else if s.replaying then Outcome(s, Logged(cb, DuplicateReplay))
    else
      var announced := Logged(cb, StartingReplay(iface, s.trajectory));
      match cb.controller
      case Unset =>
        Outcome(s, announced + Logged(cb, NoControllerCallback))
      case Answers(ok) =>
        Outcome(s.(replaying := ok),
                announced + [ControllerSwitch(StartReplay, s.trajectory)]
                + Logged(cb, if ok then ReplayStarted(s.trajectory) else StartReplayFailed))
  }

  /** The `switch (status)` of `on_button_event`: one handler per enumerator;
      NONE and any other value only log. */
  function Dispatch(s: Session, iface: string, status: ButtonStatus, cb: Callbacks, timestamp: int): (o: Outcome)
    ensures o.session.lastInterface == s.lastInterface
    ensures status.None? || status.Other? ==> o == Outcome(s, Logged(cb, UnknownStatus(StatusCode(status))))
    ensures !status.EntryTeach? ==> o.session.trajectory == s.trajectory
    ensures !status.ExitTeach? && o.session.teaching != s.teaching ==> status.EntryTeach? && o.session.teaching
  {
    match status
    case EntryTeach => EntryTeachStep(s, iface, cb, timestamp)
    case ExitTeach => ExitTeachStep(s, iface, cb)
    case TeachRepeat => TeachRepeatStep(s, iface, cb)
    case _ => Outcome(s, Logged(cb, UnknownStatus(StatusCode(status))))
  }

  /** `on_button_event(interface, status)`: log, record the interface, dispatch. */
  function ButtonEventStep(s: Session, iface: string, status: ButtonStatus, cb: Callbacks, timestamp: int): (o: Outcome)
    ensures o.session.lastInterface == iface
  {
    var handled := Dispatch(s.(lastInterface := iface), iface, status, cb, timestamp);
    Outcome(handled.session, Logged(cb, EventReceived(iface, StatusCode(status))) + handled.calls)
  }

  /** `notify_replay_complete(interface)`. */
  function ReplayCompleteStep(s: Session, iface: string, cb: Callbacks): (o: Outcome)
    ensures o.session.replaying == false
    ensures o.session.(replaying := s.replaying) == s
  {
    if !s.replaying then Outcome(s, [])
    else
      Outcome(s.(replaying := false),
              Logged(cb, ReplayCompleted(iface))
              + (if cb.replayComplete then [ReplayCompleteSignal(iface)] else []))
  }

  /** The two entry points, as events a caller delivers one at a time. */
  datatype Event =
    | Press(iface: string, status: ButtonStatus, cb: Callbacks, timestamp: int)
    | ReplayDone(iface: string, cb: Callbacks)

  function Step(s: Session, e: Event): Outcome {
    match e
    case Press(iface, status, cb, timestamp) => ButtonEventStep(s, iface, status, cb, timestamp)
    case ReplayDone(iface, cb) => ReplayCompleteStep(s, iface, cb)
  }

  /** The session after delivering `events` in order, starting from `s`. */
  function Run(s: Session, events: seq<Event>): Session
    decreases |events|
  {
    if events == [] then s else Run(Step(s, events[0]).session, events[1..])
  }
}
