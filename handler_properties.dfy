// What the button event handler promises, stated over the transition functions
// of HandlerSpec: the session invariant (never teaching and replaying at once),
// the guards of each handler, the exact controller and transport calls each
// event makes, and that the two flags follow the three-mode table
// IDLE / TEACHING / REPLAYING.

module HandlerProperties {
  import opened ButtonDriverInterface
  import opened HandlerSpec

  // ---------------------------------------------------------------------------
  // Session invariant

  /** Never teaching and replaying at once; the trajectory name is empty or
      generated, and generated whenever teaching. */
  predicate ValidSession(s: Session) {
    && !(s.teaching && s.replaying)
    && (s.trajectory == "" || IsGeneratedName(s.trajectory))
    && (s.teaching ==> IsGeneratedName(s.trajectory))
  }

  lemma FreshIsValid()
    ensures ValidSession(Fresh)
    ensures !Fresh.teaching && !Fresh.replaying
  {
  }

  lemma StepKeepsValid(s: Session, e: Event)
    requires ValidSession(s)
    ensures ValidSession(Step(s, e).session)
  {
  }

  lemma {:induction false} RunKeepsValid(s: Session, events: seq<Event>)
    requires ValidSession(s)
    ensures ValidSession(Run(s, events))
    decreases |events|
  {
    if events != [] {
      StepKeepsValid(s, events[0]);
      RunKeepsValid(Step(s, events[0]).session, events[1..]);
    }
  }

  /** Across any sequence of button events and replay-complete notifications
      delivered to a fresh handler, it is never teaching and replaying at once. */
  lemma NeverTeachingAndReplaying(events: seq<Event>)
    ensures !(Run(Fresh, events).teaching && Run(Fresh, events).replaying)
  {
    RunKeepsValid(Fresh, events);
  }

  // ---------------------------------------------------------------------------
  // Filtering the calls of one transition

  /** Calls to a recipient other than the logger, around one call in the middle. */
  lemma CallsToAroundLogs(cb: Callbacks, before: Note, c: Call, after: Note, r: Recipient)
    requires r != ToLogger
    ensures CallsTo(Logged(cb, before) + [c] + Logged(cb, after), r)
         == if RecipientOf(c) == r then [c] else []
  {
    CallsToAppend(Logged(cb, before) + [c], Logged(cb, after), r);
    CallsToAppend(Logged(cb, before), [c], r);
  }

  /** The controller and transport calls of a button event are those of the handler it dispatches to. */
  lemma ButtonEventCalls(s: Session, iface: string, status: ButtonStatus, cb: Callbacks, timestamp: int, r: Recipient)
    requires r != ToLogger
    ensures CallsTo(ButtonEventStep(s, iface, status, cb, timestamp).calls, r)
         == match status
            case EntryTeach => CallsTo(EntryTeachStep(s.(lastInterface := iface), iface, cb, timestamp).calls, r)
            case ExitTeach => CallsTo(ExitTeachStep(s.(lastInterface := iface), iface, cb).calls, r)
            case TeachRepeat => CallsTo(TeachRepeatStep(s.(lastInterface := iface), iface, cb).calls, r)
            case _ => []
  {
  }

  /** A handler that returns early, or finds no controller callback, calls only the logger. */
  lemma LogOnlyCalls(cb: Callbacks, first: Note, second: Note, r: Recipient)
    requires r != ToLogger
    ensures CallsTo(Logged(cb, first) + Logged(cb, second), r) == []
  {
  }

  // ---------------------------------------------------------------------------
  // ENTRY_TEACH

  /** ENTRY_TEACH while teaching or replaying records the interface and nothing
      else: no flag or name changes, no controller call, no transport call. */
  lemma EntryTeachWhileBusyIgnored(s: Session, iface: string, cb: Callbacks, timestamp: int)
    requires s.teaching || s.replaying
    ensures var o := ButtonEventStep(s, iface, EntryTeach, cb, timestamp);
      && o.session == s.(lastInterface := iface)
      && CallsTo(o.calls, ToController) == []
      && CallsTo(o.calls, ToTransport) == []
  {
  }

  /** ENTRY_TEACH from idle stores a freshly generated name whether or not the
      controller agrees; a set controller gets exactly one START_RECORD with that
      name, and teaching starts iff it answers true. */
  lemma EntryTeachFromIdle(s: Session, iface: string, cb: Callbacks, timestamp: int)
    requires !s.teaching && !s.replaying
    ensures var o := ButtonEventStep(s, iface, EntryTeach, cb, timestamp);
      var name := GenerateTrajectoryName(timestamp);
      && o.session == Session(cb.controller == Answers(true), false, name, iface)
      && CallsTo(o.calls, ToController)
         == (if cb.controller.Unset? then [] else [ControllerSwitch(StartRecord, name)])
      && CallsTo(o.calls, ToTransport) == []
  {
    var name := GenerateTrajectoryName(timestamp);
    ButtonEventCalls(s, iface, EntryTeach, cb, timestamp, ToController);
    ButtonEventCalls(s, iface, EntryTeach, cb, timestamp, ToTransport);
    match cb.controller
    case Unset =>
      LogOnlyCalls(cb, EnteringTeach(iface), NoControllerCallback, ToController);
      LogOnlyCalls(cb, EnteringTeach(iface), NoControllerCallback, ToTransport);
    case Answers(ok) =>
      var after := if ok then RecordingStarted(name) else StartRecordFailed;
      CallsToAroundLogs(cb, EnteringTeach(iface), ControllerSwitch(StartRecord, name), after, ToController);
      CallsToAroundLogs(cb, EnteringTeach(iface), ControllerSwitch(StartRecord, name), after, ToTransport);
  }

  // ---------------------------------------------------------------------------
  // EXIT_TEACH

  /** EXIT_TEACH when not teaching records the interface and nothing else. */
  lemma ExitTeachWhenNotTeachingIgnored(s: Session, iface: string, cb: Callbacks, timestamp: int)
    requires !s.teaching
    ensures var o := ButtonEventStep(s, iface, ExitTeach, cb, timestamp);
      && o.session == s.(lastInterface := iface)
      && CallsTo(o.calls, ToController) == []
      && CallsTo(o.calls, ToTransport) == []
  {
  }

  /** EXIT_TEACH while teaching sends a set controller exactly one STOP_RECORD
      with the unchanged trajectory name; teaching ends iff it answers true. */
  lemma ExitTeachWhileTeaching(s: Session, iface: string, cb: Callbacks, timestamp: int)
    requires s.teaching
    ensures var o := ButtonEventStep(s, iface, ExitTeach, cb, timestamp);
      && o.session == s.(lastInterface := iface, teaching := cb.controller != Answers(true))
      && CallsTo(o.calls, ToController)
         == (if cb.controller.Unset? then [] else [ControllerSwitch(StopRecord, s.trajectory)])
      && CallsTo(o.calls, ToTransport) == []
  {
    ButtonEventCalls(s, iface, ExitTeach, cb, timestamp, ToController);
    ButtonEventCalls(s, iface, ExitTeach, cb, timestamp, ToTransport);
    match cb.controller
    case Unset =>
      LogOnlyCalls(cb, ExitingTeach(iface), NoControllerCallback, ToController);
      LogOnlyCalls(cb, ExitingTeach(iface), NoControllerCallback, ToTransport);
    case Answers(ok) =>
      var after := if ok then RecordingSaved(s.trajectory) else StopRecordFailed;
      CallsToAroundLogs(cb, ExitingTeach(iface), ControllerSwitch(StopRecord, s.trajectory), after, ToController);
      CallsToAroundLogs(cb, ExitingTeach(iface), ControllerSwitch(StopRecord, s.trajectory), after, ToTransport);
  }

  // ---------------------------------------------------------------------------
  // TEACH_REPEAT

  /** TEACH_REPEAT while teaching or replaying records the interface and nothing else. */
  lemma TeachRepeatWhileBusyIgnored(s: Session, iface: string, cb: Callbacks, timestamp: int)
    requires s.teaching || s.replaying
    ensures var o := ButtonEventStep(s, iface, TeachRepeat, cb, timestamp);
      && o.session == s.(lastInterface := iface)
      && CallsTo(o.calls, ToController) == []
      && CallsTo(o.calls, ToTransport) == []
  {
  }

  /** TEACH_REPEAT from idle sends a set controller exactly one START_REPLAY with
      the current trajectory name (possibly still empty); replay starts iff it
      answers true. */
  lemma TeachRepeatFromIdle(s: Session, iface: string, cb: Callbacks, timestamp: int)
    requires !s.teaching && !s.replaying
    ensures var o := ButtonEventStep(s, iface, TeachRepeat, cb, timestamp);
      && o.session == s.(lastInterface := iface, replaying := cb.controller == Answers(true))
      && CallsTo(o.calls, ToController)
         == (if cb.controller.Unset? then [] else [ControllerSwitch(StartReplay, s.trajectory)])
      && CallsTo(o.calls, ToTransport) == []
  {
    ButtonEventCalls(s, iface, TeachRepeat, cb, timestamp, ToController);
    ButtonEventCalls(s, iface, TeachRepeat, cb, timestamp, ToTransport);
    match cb.controller
    case Unset =>
      LogOnlyCalls(cb, StartingReplay(iface, s.trajectory), NoControllerCallback, ToController);
      LogOnlyCalls(cb, StartingReplay(iface, s.trajectory), NoControllerCallback, ToTransport);
    case Answers(ok) =>
      var after := if ok then ReplayStarted(s.trajectory) else StartReplayFailed;
      CallsToAroundLogs(cb, StartingReplay(iface, s.trajectory), ControllerSwitch(StartReplay, s.trajectory), after, ToController);
      CallsToAroundLogs(cb, StartingReplay(iface, s.trajectory), ControllerSwitch(StartReplay, s.trajectory), after, ToTransport);
  }

  // ---------------------------------------------------------------------------
  // NONE and unknown statuses; the controller's answer

  /** NONE, or a byte outside the enumerators, records the interface and nothing else. */
  lemma UnhandledStatusIgnored(s: Session, iface: string, status: ButtonStatus, cb: Callbacks, timestamp: int)
    requires status.None? || status.Other?
    ensures var o := ButtonEventStep(s, iface, status, cb, timestamp);
      && o.session == s.(lastInterface := iface)
      && CallsTo(o.calls, ToController) == []
      && CallsTo(o.calls, ToTransport) == []
  {
  }

  /** A flag changes only when the controller callback was set and answered true. */
  lemma FlagChangeNeedsControllerSuccess(s: Session, iface: string, status: ButtonStatus, cb: Callbacks, timestamp: int)
    ensures var o := ButtonEventStep(s, iface, status, cb, timestamp);
      (o.session.teaching != s.teaching || o.session.replaying != s.replaying)
      ==> cb.controller == Answers(true)
  {
  }

  /** With no controller callback registered, no button event changes either flag. */
  lemma NoControllerNoFlagChange(s: Session, iface: string, status: ButtonStatus, cb: Callbacks, timestamp: int)
    requires cb.controller.Unset?
    ensures var o := ButtonEventStep(s, iface, status, cb, timestamp);
      o.session.teaching == s.teaching && o.session.replaying == s.replaying
  {
  }

  // ---------------------------------------------------------------------------
  // notify_replay_complete

  /** While replaying: replay ends, nothing else changes, and a set
      replay-complete callback is called exactly once, with the interface. */
  lemma ReplayCompleteWhileReplaying(s: Session, iface: string, cb: Callbacks)
    requires s.replaying
    ensures var o := ReplayCompleteStep(s, iface, cb);
      && o.session == s.(replaying := false)
      && CallsTo(o.calls, ToTransport) == (if cb.replayComplete then [ReplayCompleteSignal(iface)] else [])
      && CallsTo(o.calls, ToController) == []
  {
  }

  /** When not replaying: nothing changes and no callback is called. */
  lemma ReplayCompleteWhenIdleIgnored(s: Session, iface: string, cb: Callbacks)
    requires !s.replaying
    ensures ReplayCompleteStep(s, iface, cb) == Outcome(s, [])
  {
  }

  /** A second notification right after the first is a no-op. */
  lemma ReplayCompleteTwiceIsOnce(s: Session, iface1: string, cb1: Callbacks, iface2: string, cb2: Callbacks)
    ensures var once := ReplayCompleteStep(s, iface1, cb1).session;
      ReplayCompleteStep(once, iface2, cb2) == Outcome(once, [])
  {
  }

  // ---------------------------------------------------------------------------
  // Logging is best effort

  function WithoutLog(e: Event): Event {
    e.(cb := e.cb.(log := false))
  }

  /** Without a log callback nothing reaches the logger, and whether one is set
      changes neither the session nor the controller and transport calls. */
  lemma LoggingNotLoadBearing(s: Session, e: Event, r: Recipient)
    requires r != ToLogger
    ensures !e.cb.log ==> CallsTo(Step(s, e).calls, ToLogger) == []
    ensures Step(s, WithoutLog(e)).session == Step(s, e).session
    ensures CallsTo(Step(s, WithoutLog(e)).calls, r) == CallsTo(Step(s, e).calls, r)
  {
    if !e.cb.log {
      assert forall c :: c in Step(s, e).calls ==> RecipientOf(c) != ToLogger;
      NoLoggerCalls(Step(s, e).calls);
    }
    match e
    case Press(iface, status, cb, timestamp) =>
      PressCallsIgnoreLog(s, iface, status, cb, timestamp, r);
    case ReplayDone(iface, cb) =>
      if s.replaying {
        ReplayCompleteWhileReplaying(s, iface, cb);
        ReplayCompleteWhileReplaying(s, iface, cb.(log := false));
      }
  }

  lemma {:induction false} NoLoggerCalls(calls: seq<Call>)
    requires forall c :: c in calls ==> RecipientOf(c) != ToLogger
    ensures CallsTo(calls, ToLogger) == []
  {
    if calls != [] {
      assert forall c :: c in calls[1..] ==> c in calls;
      NoLoggerCalls(calls[1..]);
    }
  }

  lemma PressCallsIgnoreLog(s: Session, iface: string, status: ButtonStatus, cb: Callbacks, timestamp: int, r: Recipient)
    requires r != ToLogger
    ensures var quiet := cb.(log := false);
      && ButtonEventStep(s, iface, status, quiet, timestamp).session == ButtonEventStep(s, iface, status, cb, timestamp).session
      && CallsTo(ButtonEventStep(s, iface, status, quiet, timestamp).calls, r)
         == CallsTo(ButtonEventStep(s, iface, status, cb, timestamp).calls, r)
  {
    var quiet := cb.(log := false);
    var s1 := s.(lastInterface := iface);
    match status
    case EntryTeach =>
      if s1.teaching {
        EntryTeachWhileBusyIgnored(s, iface, cb, timestamp);
        EntryTeachWhileBusyIgnored(s, iface, quiet, timestamp);
      } else if s1.replaying {
        EntryTeachWhileBusyIgnored(s, iface, cb, timestamp);
        EntryTeachWhileBusyIgnored(s, iface, quiet, timestamp);
      } else {
        EntryTeachFromIdle(s, iface, cb, timestamp);
        EntryTeachFromIdle(s, iface, quiet, timestamp);
      }
    case ExitTeach =>
      if s1.teaching {
        ExitTeachWhileTeaching(s, iface, cb, timestamp);
        ExitTeachWhileTeaching(s, iface, quiet, timestamp);
      } else {
        ExitTeachWhenNotTeachingIgnored(s, iface, cb, timestamp);
        ExitTeachWhenNotTeachingIgnored(s, iface, quiet, timestamp);
      }
    case TeachRepeat =>
      if s1.teaching || s1.replaying {
        TeachRepeatWhileBusyIgnored(s, iface, cb, timestamp);
        TeachRepeatWhileBusyIgnored(s, iface, quiet, timestamp);
      } else {
        TeachRepeatFromIdle(s, iface, cb, timestamp);
        TeachRepeatFromIdle(s, iface, quiet, timestamp);
      }
    case _ =>
      UnhandledStatusIgnored(s, iface, status, cb, timestamp);
      UnhandledStatusIgnored(s, iface, status, quiet, timestamp);
  }

  // ---------------------------------------------------------------------------
  // The three-mode table

  datatype Mode = Idle | Teaching | Replaying

  function ModeOf(s: Session): Mode
    requires !(s.teaching && s.replaying)
  {
    if s.teaching then Teaching else if s.replaying then Replaying else Idle
  }

  /** The three-mode transition table: a request leaves the current mode unless
      the controller callback is set and answers true. */
  function NextMode(m: Mode, e: Event): Mode {
    match e
    case ReplayDone(_, _) => if m == Replaying then Idle else m
    case Press(_, status, cb, _) =>
      var granted := cb.controller == Answers(true);
      match status
      case EntryTeach => if m == Idle && granted then Teaching else m
      case ExitTeach => if m == Teaching && granted then Idle else m
      case TeachRepeat => if m == Idle && granted then Replaying else m
      case _ => m
  }

  function RunModes(m: Mode, events: seq<Event>): Mode
    decreases |events|
  {
    if events == [] then m else RunModes(NextMode(m, events[0]), events[1..])
  }

  lemma StepFollowsModeTable(s: Session, e: Event)
    requires ValidSession(s)
    ensures ValidSession(Step(s, e).session)
    ensures ModeOf(Step(s, e).session) == NextMode(ModeOf(s), e)
  {
    StepKeepsValid(s, e);
  }

  /** Over any sequence of events the flags move exactly as the mode table says. */
  lemma {:induction false} RunFollowsModeTable(s: Session, events: seq<Event>)
    requires ValidSession(s)
    ensures ValidSession(Run(s, events))
    ensures ModeOf(Run(s, events)) == RunModes(ModeOf(s), events)
    decreases |events|
  {
    if events != [] {
      StepFollowsModeTable(s, events[0]);
      RunFollowsModeTable(Step(s, events[0]).session, events[1..]);
    }
  }

  // ---------------------------------------------------------------------------
  // A whole teach-and-replay session

  /** Teaching from idle, saving, then replaying: the controller is asked to
      record, stop and replay under the same generated name, and the handler
      ends up replaying. */
  lemma RecordThenReplayUsesOneName(s: Session, iface: string, cb: Callbacks, t1: int, t2: int, t3: int)
    requires !s.teaching && !s.replaying
    requires cb.controller == Answers(true)
    ensures var name := GenerateTrajectoryName(t1);
      var o1 := ButtonEventStep(s, iface, EntryTeach, cb, t1);
      var o2 := ButtonEventStep(o1.session, iface, ExitTeach, cb, t2);
      var o3 := ButtonEventStep(o2.session, iface, TeachRepeat, cb, t3);
      && o1.session.teaching && !o2.session.teaching && o3.session.replaying
      && CallsTo(o1.calls, ToController) == [ControllerSwitch(StartRecord, name)]
      && CallsTo(o2.calls, ToController) == [ControllerSwitch(StopRecord, name)]
      && CallsTo(o3.calls, ToController) == [ControllerSwitch(StartReplay, name)]
  {
    var o1 := ButtonEventStep(s, iface, EntryTeach, cb, t1);
    EntryTeachFromIdle(s, iface, cb, t1);
    var o2 := ButtonEventStep(o1.session, iface, ExitTeach, cb, t2);
    ExitTeachWhileTeaching(o1.session, iface, cb, t2);
    TeachRepeatFromIdle(o2.session, iface, cb, t3);
  }
}
