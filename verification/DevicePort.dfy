/** The device port object. Other threads run its callbacks wherever one of its methods waits; a check of
    the state and the store after it are one step here (PortProtocol takes them apart). */
module DevicePort {
  import opened Options
  import opened AudioSession
  import opened PortProtocol

  class BluetoothAudioPortAidl {
    var cookie: nat
    var state: StreamState
    var sessionType: SessionType
    ghost var callbacks: seq<Callback>   // those that reached a handler, in order

    constructor ()
      ensures cookie == UNDEFINED && state == DISABLED && sessionType == UNKNOWN && callbacks == []
    {
      cookie, state, sessionType, callbacks := UNDEFINED, DISABLED, UNKNOWN, [];
    }

    predicate InUse()
      reads this
    {
      cookie != UNDEFINED
    }

    predicate IsA2dp(): (r: bool)
      reads this
      ensures r <==> Number(sessionType) == 1 || Number(sessionType) == 2
    {
      sessionType == A2DP_SOFTWARE_ENCODING_DATAPATH || sessionType == A2DP_HARDWARE_OFFLOAD_ENCODING_DATAPATH
    }

    // `kind` is None for a device that is not a Bluetooth one; `session` is the one of that type.
    method SetUp(kind: Option<SessionType>, session: BluetoothAudioSession, observer: nat) returns (ok: bool)
      requires kind.Some? ==> session.sessionType == kind.value
      modifies this`sessionType, this`state, this`cookie, session`observers
      ensures ok <==>
        kind.Some? && Ready(old(session.View())) && Allotted(kind.value, old(session.observers)) != UNDEFINED
      ensures if kind.Some? && Ready(old(session.View())) then
                && state == STANDBY && sessionType == kind.value
                && cookie == Allotted(sessionType, old(session.observers))
                && session.View() == Apply(old(session.View()), RegisterStatusCback(Callbacks(observer, false)))
              else
                state == old(state) && cookie == old(cookie) && session.View() == old(session.View())
      ensures ok ==> InUse() && session.observers == old(session.observers)[cookie := Callbacks(observer, false)]
    {
      if kind.None? { return false; }
      sessionType := kind.value;
      var ready := session.IsSessionReady();
      if !ready { return false; }
      state := STANDBY;
      cookie := session.RegisterStatusCback(Callbacks(observer, false));
      ok := cookie != UNDEFINED;
    }

    method TearDown(session: BluetoothAudioSession)
      requires session.sessionType == sessionType
      modifies this`cookie, session`observers
      ensures !InUse()
      ensures session.observers == old(session.observers) - if old(InUse()) then {old(cookie)} else {}
    {
      if !InUse() { return; }
      session.UnregisterStatusCback(cookie);
      cookie := UNDEFINED;
    }

    // ----- callbacks -----

    method ControlResultHandler(status: Status)
      modifies this`state, this`callbacks
      ensures !InUse() ==> state == old(state) && callbacks == old(callbacks)
      ensures InUse() ==> state == Handled(old(state), ControlResult(status))
      ensures InUse() ==> callbacks == old(callbacks) + [ControlResult(status)]
    {
      if !InUse() { return; }
      callbacks := callbacks + [ControlResult(status)];
      match state
      case STARTED =>
        if status == RECONFIGURATION || status == SUCCESS { state := STANDBY; }
      case STARTING =>
        if status == SUCCESS { state := STARTED; } else { state := STANDBY; }
      case SUSPENDING =>
        if status == SUCCESS { state := STANDBY; } else { state := DISABLED; }
      case _ =>
    }

    method SessionChangedHandler()
      modifies this`state, this`callbacks
      ensures !InUse() ==> state == old(state) && callbacks == old(callbacks)
      ensures InUse() ==> state == DISABLED && callbacks == old(callbacks) + [SessionChanged]
    {
      if !InUse() { return; }
      callbacks := callbacks + [SessionChanged];
      state := DISABLED;
    }

    // The state is what the callbacks since `seen` of them make of `base`.
    ghost predicate Since(base: StreamState, seen: seq<Callback>)
      reads this
    {
      seen <= callbacks && state == After(base, callbacks[|seen|..])
    }

    // The registered callbacks, which drop what is addressed to another cookie.
    method CallBack(addressee: nat, c: Callback, ghost base: StreamState, ghost seen: seq<Callback>)
      requires Since(base, seen)
      modifies this`state, this`callbacks
      ensures Since(base, seen)
      ensures !InUse() || addressee != cookie ==> state == old(state) && callbacks == old(callbacks)
      ensures InUse() && addressee == cookie ==>
        state == Handled(old(state), c) && callbacks == old(callbacks) + [c]
    {
      if !InUse() { return; }
      if cookie != addressee { return; }
      ghost var before := callbacks;
      match c {
        case ControlResult(status) => ControlResultHandler(status);
        case SessionChanged => SessionChangedHandler();
      }
      AfterAppended(base, before[|seen|..], c);
      assert callbacks[|seen|..] == before[|seen|..] + [c];
    }

    // Any number of callbacks, on other threads.
    method Wait(ghost base: StreamState, ghost seen: seq<Callback>)
      requires Since(base, seen)
      modifies this`state, this`callbacks
      ensures Since(base, seen)
    {
      var n: nat :| true;
      for i := 0 to n
        invariant Since(base, seen)
      {
        var addressee: nat := *;
        var c: Callback := *;
        CallBack(addressee, c, base, seen);
      }
    }

    // ----- requests -----

    // The wait ends when the state has changed, or with a timeout; either way what counts is the state.
    method CondwaitState(waiting: StreamState, ghost seen: seq<Callback>) returns (retval: bool)
      requires Since(waiting, seen)
      modifies this`state, this`callbacks
      ensures Since(waiting, seen)
      ensures retval <==> (waiting == STARTING && state == STARTED) || (waiting == SUSPENDING && state == STANDBY)
    {
      match waiting
      case STARTING =>
        Wait(waiting, seen);
        retval := state != STARTING;
        retval := retval && state == STARTED;
      case SUSPENDING =>
        Wait(waiting, seen);
        retval := state != SUSPENDING;
        retval := retval && state == STANDBY;
      case _ =>
        retval := false;
    }

    /** Succeeds exactly when the port was in standby, the stack took the request, and the callbacks
        that came in since were a success and then nothing but failures. */
    method Start(accepted: bool) returns (retval: bool)
      modifies this`state, this`callbacks
      ensures !InUse() || old(state) != STANDBY ==> !retval && state == old(state) && callbacks == old(callbacks)
      ensures InUse() && old(state) == STANDBY ==> Since(STARTING, old(callbacks))
      ensures InUse() && old(state) == STANDBY && !accepted ==> !retval
      ensures InUse() && old(state) == STANDBY && accepted ==>
        (retval <==>
         && |callbacks| > |old(callbacks)| && callbacks[|old(callbacks)|] == ControlResult(SUCCESS)
         && OnlyFailures(callbacks[|old(callbacks)| + 1..]))
      ensures retval ==> state == STARTED
    {
      if !InUse() { return false; }
      retval := false;
      if state == STANDBY {
        ghost var seen := callbacks;
        state := STARTING;
        Wait(STARTING, seen);
        if accepted {
          retval := CondwaitState(STARTING, seen);
        }
        StartedIff(callbacks[|seen|..]);
        assert |callbacks| > |seen| ==> callbacks[|seen|..][1..] == callbacks[|seen| + 1..];
      }
    }

    /** Succeeds exactly when the port was started, the stack took the request, and the callbacks that
        came in since began with a success and no session change came after it. */
    method Suspend(accepted: bool) returns (retval: bool)
      modifies this`state, this`callbacks
      ensures !InUse() || old(state) != STARTED ==> !retval && state == old(state) && callbacks == old(callbacks)
      ensures InUse() && old(state) == STARTED ==> Since(SUSPENDING, old(callbacks))
      ensures InUse() && old(state) == STARTED && !accepted ==> !retval
      ensures InUse() && old(state) == STARTED && accepted ==>
        (retval <==>
         && |callbacks| > |old(callbacks)| && callbacks[|old(callbacks)|] == ControlResult(SUCCESS)
         && SessionChanged !in callbacks[|old(callbacks)| + 1..])
      ensures retval ==> state == STANDBY
    {
      if !InUse() { return false; }
      retval := false;
      if state == STARTED {
        ghost var seen := callbacks;
        state := SUSPENDING;
        Wait(SUSPENDING, seen);
        if accepted {
          retval := CondwaitState(SUSPENDING, seen);
        }
        SuspendedIff(callbacks[|seen|..]);
        assert |callbacks| > |seen| ==> callbacks[|seen|..][1..] == callbacks[|seen| + 1..];
      }
    }

    method Stop()
      modifies this`state
      ensures state == if InUse() then DISABLED else old(state)
    {
      if !InUse() { return; }
      state := DISABLED;
    }

    method SetState(state: StreamState)
      modifies this`state
      ensures this.state == state
    {
      this.state := state;
    }
  }
}
