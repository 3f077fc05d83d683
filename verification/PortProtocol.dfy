/** The state of a device port, shared without a common lock: the callbacks run under the port's own
    mutex, the stream under the stream's. Every load and every store of the state is a step of its own,
    so a store may be stale: decided on a state that has changed meanwhile. */
module PortProtocol {
  import opened Options

  datatype StreamState = DISABLED | STANDBY | STARTING | STARTED | SUSPENDING

  // Of the statuses that the stack reports, the handler tells these apart.
  datatype Status = SUCCESS | RECONFIGURATION | FAILURE

  // What ControlResultHandler stores after loading `previous`, if it stores anything.
  function Answer(previous: StreamState, status: Status): Option<StreamState> {
    match previous
    case STARTED => if status == FAILURE then None else Some(STANDBY)
    case STARTING => Some(if status == SUCCESS then STARTED else STANDBY)
    case SUSPENDING => Some(if status == SUCCESS then STANDBY else DISABLED)
    case _ => None
  }

  // ----- callbacks one after the other -----

  datatype Callback = ControlResult(status: Status) | SessionChanged

  function Handled(state: StreamState, c: Callback): StreamState {
    match c
    case ControlResult(status) => if Answer(state, status).Some? then Answer(state, status).value else state
    case SessionChanged => DISABLED
  }

  function After(state: StreamState, callbacks: seq<Callback>): StreamState
    decreases callbacks
  {
    if callbacks == [] then state else After(Handled(state, callbacks[0]), callbacks[1..])
  }

  lemma {:induction false} AfterAppended(state: StreamState, callbacks: seq<Callback>, c: Callback)
    ensures After(state, callbacks + [c]) == Handled(After(state, callbacks), c)
    decreases callbacks
  {
    if callbacks == [] {
      assert callbacks + [c] == [c];
    } else {
      AfterAppended(Handled(state, callbacks[0]), callbacks[1..], c);
      assert (callbacks + [c])[1..] == callbacks[1..] + [c];
    }
  }

  lemma {:induction false} DisabledSticks(callbacks: seq<Callback>)
    ensures After(DISABLED, callbacks) == DISABLED
  {
    if callbacks != [] { DisabledSticks(callbacks[1..]); }
  }

  lemma {:induction false} StandbySticks(callbacks: seq<Callback>)
    ensures After(STANDBY, callbacks) == if SessionChanged in callbacks then DISABLED else STANDBY
  {
    if callbacks != [] {
      if callbacks[0].SessionChanged? { DisabledSticks(callbacks[1..]); } else { StandbySticks(callbacks[1..]); }
    }
  }

  predicate OnlyFailures(callbacks: seq<Callback>) {
    forall i :: 0 <= i < |callbacks| ==> callbacks[i] == ControlResult(FAILURE)
  }

  lemma {:induction false} StaysStarted(callbacks: seq<Callback>)
    ensures After(STARTED, callbacks) == STARTED <==> OnlyFailures(callbacks)
  {
    if callbacks != [] {
      var c, rest := callbacks[0], callbacks[1..];
      StaysStarted(rest);
      if c == ControlResult(FAILURE) {
        assert forall i :: 1 <= i < |callbacks| ==> callbacks[i] == rest[i - 1];
        assert OnlyFailures(callbacks) <==> OnlyFailures(rest);
      } else {
        StandbySticks(rest);
        DisabledSticks(rest);
      }
    }
  }

  /** A starting port ends up started exactly when its first callback is a success and nothing but
      failures follows: the next success or reconfiguration takes it back to standby. */
  lemma StartedIff(callbacks: seq<Callback>)
    ensures After(STARTING, callbacks) == STARTED <==>
            && callbacks != [] && callbacks[0] == ControlResult(SUCCESS)
            && OnlyFailures(callbacks[1..])
  {
    if callbacks != [] {
      StaysStarted(callbacks[1..]);
      StandbySticks(callbacks[1..]);
      DisabledSticks(callbacks[1..]);
    }
  }

  /** A suspending port ends up in standby exactly when its first callback is a success and the session
      does not change after it. */
  lemma SuspendedIff(callbacks: seq<Callback>)
    ensures After(SUSPENDING, callbacks) == STANDBY <==>
            && callbacks != [] && callbacks[0] == ControlResult(SUCCESS) && SessionChanged !in callbacks[1..]
  {
    if callbacks != [] {
      StandbySticks(callbacks[1..]);
      DisabledSticks(callbacks[1..]);
    }
  }

  lemma {:induction false} DisabledByChange(state: StreamState, callbacks: seq<Callback>)
    requires state == STANDBY || state == STARTING || state == STARTED
    ensures After(state, callbacks) == DISABLED <==> SessionChanged in callbacks
    decreases callbacks
  {
    if callbacks != [] {
      var next := Handled(state, callbacks[0]);
      if callbacks[0].SessionChanged? {
        DisabledSticks(callbacks[1..]);
      } else {
        DisabledByChange(next, callbacks[1..]);
        assert callbacks == [callbacks[0]] + callbacks[1..];
      }
    }
  }

  /** Where a starting or a started port ends up: disabled only by a session change; a refused start and
      an answered suspension leave it in standby, and a refused one as it was. */
  lemma OutcomeOfStart(callbacks: seq<Callback>)
    ensures After(STARTING, callbacks) ==
            if SessionChanged in callbacks then DISABLED
            else if callbacks == [] then STARTING
            else if callbacks[0] == ControlResult(SUCCESS) && OnlyFailures(callbacks[1..]) then STARTED
            else STANDBY
    ensures After(STARTED, callbacks) ==
            if SessionChanged in callbacks then DISABLED else if OnlyFailures(callbacks) then STARTED else STANDBY
  {
    DisabledByChange(STARTING, callbacks);
    DisabledByChange(STARTED, callbacks);
    StartedIff(callbacks);
    StaysStarted(callbacks);
    NeverBack(STARTED, callbacks);
    if callbacks != [] { NeverBack(Handled(STARTING, callbacks[0]), callbacks[1..]); }
  }

  // No callback takes a port back to starting or suspending.
  lemma {:induction false} NeverBack(state: StreamState, callbacks: seq<Callback>)
    requires state != STARTING && state != SUSPENDING
    ensures After(state, callbacks) != STARTING && After(state, callbacks) != SUSPENDING
    decreases callbacks
  {
    if callbacks != [] { NeverBack(Handled(state, callbacks[0]), callbacks[1..]); }
  }

  /** And a suspending port: any answer but a success disables it too. */
  lemma OutcomeOfSuspend(callbacks: seq<Callback>)
    ensures After(SUSPENDING, callbacks) ==
            if callbacks == [] then SUSPENDING
            else if SessionChanged in callbacks || callbacks[0] != ControlResult(SUCCESS) then DISABLED
            else STANDBY
  {
    SuspendedIff(callbacks);
    if callbacks != [] {
      assert callbacks == [callbacks[0]] + callbacks[1..];
      DisabledSticks(callbacks[1..]);
      StandbySticks(callbacks[1..]);
    }
  }

  // ----- loads and stores -----

  // Where the thread is that holds the stream's mutex. A suspension on behalf of A2dpSuspended=true
  // (`disable`) ends in a store of DISABLED.
  datatype Stream =
    | Idle
    | StoreStarting | AskStart | AwaitStart
    | StoreSuspending(disable: bool) | AskSuspend(disable: bool) | AwaitSuspend(disable: bool)
    | StoreDisabled
    | StoreStandby

  // Where the thread is that holds the port's mutex.
  datatype Handler = Quiet | Answering(previous: StreamState, status: Status)

  datatype Port = Port(state: StreamState, stream: Stream, handler: Handler, a2dp: bool)

  datatype Step =
    | BeginStart                  // loads the state in Start
    | BeginSuspend(disable: bool) // loads it in Suspend
    | Stop                        // stores DISABLED
    | BeginUnsuspend              // A2dpSuspended un-set: loads the state
    | StreamStep(accepted: bool)  // the next thing the stream does; the stack accepts a request or not
    | LoadAnswer(status: Status)  // ControlResultHandler loads the state
    | StoreAnswer                 // and stores its answer, if any
    | ChangeSession               // SessionChangedHandler stores DISABLED

  predicate Enabled(p: Port, s: Step) {
    match s
    case BeginStart => p.stream.Idle?
    case BeginSuspend(_) => p.stream.Idle?
    case Stop => p.stream.Idle?
    case BeginUnsuspend => p.stream.Idle? && p.a2dp
    case StreamStep(_) =>
      !p.stream.Idle? && (p.stream.AwaitStart? || p.stream.AwaitSuspend? ==> p.handler.Quiet?)
    case LoadAnswer(_) => p.handler.Quiet?
    case StoreAnswer => p.handler.Answering?
    case ChangeSession => p.handler.Quiet?
  }

  function AfterSuspend(disable: bool): Stream { if disable then StoreDisabled else Idle }

  function Advance(p: Port, accepted: bool): Port
    requires !p.stream.Idle?
  {
    match p.stream
    case StoreStarting => p.(state := STARTING, stream := AskStart)
    case AskStart => p.(stream := if accepted then AwaitStart else Idle)
    case AwaitStart => p.(stream := Idle)
    case StoreSuspending(disable) => p.(state := SUSPENDING, stream := AskSuspend(disable))
    case AskSuspend(disable) => p.(stream := if accepted then AwaitSuspend(disable) else AfterSuspend(disable))
    case AwaitSuspend(disable) => p.(stream := AfterSuspend(disable))
    case StoreDisabled => p.(state := DISABLED, stream := Idle)
    case StoreStandby => p.(state := STANDBY, stream := Idle)
  }

  function Next(p: Port, s: Step): Port
    requires Enabled(p, s)
  {
    match s
    case BeginStart => p.(stream := if p.state == STANDBY then StoreStarting else Idle)
    case BeginSuspend(disable) =>
      p.(stream := if p.state == STARTED then StoreSuspending(disable) else AfterSuspend(disable))
    case Stop => p.(state := DISABLED)
    case BeginUnsuspend => p.(stream := if p.state == DISABLED then StoreStandby else Idle)
    case StreamStep(accepted) => Advance(p, accepted)
    case LoadAnswer(status) => p.(handler := Answering(p.state, status))
    case StoreAnswer =>
      var answer := Answer(p.handler.previous, p.handler.status);
      p.(state := if answer.Some? then answer.value else p.state, handler := Quiet)
    case ChangeSession => p.(state := DISABLED)
  }

  // Start returns true with this step: its wait is over and the port is started.
  predicate StartSucceeds(p: Port, s: Step) { s.StreamStep? && p.stream.AwaitStart? && p.state == STARTED }

  // The step stores a state, and what it stores was decided on a load that no longer holds.
  predicate Stale(p: Port, s: Step) {
    match s
    case StreamStep(_) =>
      || (p.stream.StoreStarting? && p.state != STANDBY)
      || (p.stream.StoreSuspending? && p.state != STARTED)
      || (p.stream.StoreStandby? && p.state != DISABLED)
    case StoreAnswer =>
      && p.handler.Answering? && Answer(p.handler.previous, p.handler.status).Some?
      && p.state != p.handler.previous
    case _ => false
  }

  predicate IsRun(ports: seq<Port>, steps: seq<Step>) {
    && |ports| == |steps| + 1
    && ports[0] == Port(STANDBY, Idle, Quiet, ports[0].a2dp)
    && forall i :: 0 <= i < |steps| ==> Enabled(ports[i], steps[i]) && ports[i + 1] == Next(ports[i], steps[i])
  }

  predicate Inv(p: Port) { p.stream.StoreStandby? ==> p.a2dp }

  lemma {:induction false} RunKeepsInv(ports: seq<Port>, steps: seq<Step>, i: nat)
    requires IsRun(ports, steps) && i < |ports|
    ensures Inv(ports[i]) && ports[i].a2dp == ports[0].a2dp
  {
    if i > 0 {
      RunKeepsInv(ports, steps, i - 1);
      assert ports[i] == Next(ports[i - 1], steps[i - 1]);
    }
  }

  /** STARTED is entered by one step only: the handler storing its answer to a success that it took
      while it saw STARTING. */
  lemma EntersStarted(p: Port, s: Step)
    requires Enabled(p, s) && p.state != STARTED
    ensures Next(p, s).state == STARTED <==> s.StoreAnswer? && p.handler == Answering(STARTING, SUCCESS)
  {}

  /** The other states, and the only steps that enter them. */
  lemma EntersOthers(p: Port, s: Step)
    requires Enabled(p, s)
    ensures var t := Next(p, s).state;
            && (p.state != STARTING ==> (t == STARTING <==> s.StreamStep? && p.stream.StoreStarting?))
            && (p.state != SUSPENDING ==> (t == SUSPENDING <==> s.StreamStep? && p.stream.StoreSuspending?))
            && (p.state != STANDBY ==>
                  (t == STANDBY <==>
                   || (s.StreamStep? && p.stream.StoreStandby?)
                   || (s.StoreAnswer? && p.handler.previous == STARTING && p.handler.status != SUCCESS)
                   || (s.StoreAnswer? && p.handler.previous == STARTED && p.handler.status != FAILURE)
                   || (s.StoreAnswer? && p.handler.previous == SUSPENDING && p.handler.status == SUCCESS)))
            && (p.state != DISABLED ==>
                  (t == DISABLED <==>
                   || s.Stop? || s.ChangeSession?
                   || (s.StreamStep? && p.stream.StoreDisabled?)
                   || (s.StoreAnswer? && p.handler.previous == SUSPENDING && p.handler.status != SUCCESS)))
  {}

  /** What the stream's thread goes on to, by what it has loaded or been told: only from standby to a start,
      only from started to a suspension, only from disabled back to standby. */
  lemma StreamGoesOn(p: Port, s: Step)
    requires Enabled(p, s)
    ensures var t := Next(p, s).stream;
            match s
            case BeginStart => t == if p.state == STANDBY then StoreStarting else Idle
            case BeginSuspend(disable) =>
              t == if p.state == STARTED then StoreSuspending(disable) else if disable then StoreDisabled else Idle
            case BeginUnsuspend => p.a2dp && t == if p.state == DISABLED then StoreStandby else Idle
            case StreamStep(accepted) =>
              (match p.stream
               case StoreStarting => t == AskStart
               case AskStart => t == if accepted then AwaitStart else Idle
               case StoreSuspending(disable) => t == AskSuspend(disable)
               case AskSuspend(disable) =>
                 t == if accepted then AwaitSuspend(disable) else if disable then StoreDisabled else Idle
               case AwaitSuspend(disable) => t == if disable then StoreDisabled else Idle
               case _ => t == Idle)
            case _ => t == p.stream
    ensures Next(p, s).handler ==
            if s.LoadAnswer? then Answering(p.state, s.status) else if s.StoreAnswer? then Quiet else p.handler
    ensures p.stream.Idle? ==> Enabled(p, BeginStart) && Enabled(p, Stop) && forall d :: Enabled(p, BeginSuspend(d))
    ensures p.handler.Quiet? ==> Enabled(p, ChangeSession) && forall status :: Enabled(p, LoadAnswer(status))
    ensures !p.handler.Quiet? ==> Enabled(p, StoreAnswer)
    ensures !p.stream.Idle? && p.handler.Quiet? ==> forall accepted :: Enabled(p, StreamStep(accepted))
  {}

  /** When Start returns true, such an answer was stored after Start had stored STARTING, and the port
      has been started ever since. */
  lemma StartIsAnswered(ports: seq<Port>, steps: seq<Step>, i: nat) returns (k: nat)
    requires IsRun(ports, steps) && i < |steps| && StartSucceeds(ports[i], steps[i])
    ensures k < i && steps[k] == StoreAnswer && ports[k].handler == Answering(STARTING, SUCCESS)
    ensures ports[k].stream.AskStart? || ports[k].stream.AwaitStart?
    ensures forall m :: k < m <= i ==>
              ports[m].state == STARTED && (ports[m].stream.AskStart? || ports[m].stream.AwaitStart?)
  {
    k := AnsweredBefore(ports, steps, i);
  }

  lemma {:induction false} AnsweredBefore(ports: seq<Port>, steps: seq<Step>, i: nat) returns (k: nat)
    requires IsRun(ports, steps) && i < |ports|
    requires ports[i].state == STARTED && (ports[i].stream.AskStart? || ports[i].stream.AwaitStart?)
    ensures k < i && steps[k] == StoreAnswer && ports[k].handler == Answering(STARTING, SUCCESS)
    ensures ports[k].stream.AskStart? || ports[k].stream.AwaitStart?
    ensures forall m :: k < m <= i ==>
              ports[m].state == STARTED && (ports[m].stream.AskStart? || ports[m].stream.AwaitStart?)
  {
    k := i - 1;
    assert ports[i] == Next(ports[k], steps[k]);
    if ports[k].state == STARTED {
      k := AnsweredBefore(ports, steps, i - 1);
    } else {
      EntersStarted(ports[k], steps[k]);
    }
  }

  // ----- disabled ports -----

  /** A disabled port leaves that state with exactly these steps: A2dpSuspended un-set, which only A2DP
      ports take, and stale stores of anything but DISABLED. */
  lemma LeavesDisabled(p: Port, s: Step)
    requires Enabled(p, s) && Inv(p) && p.state == DISABLED
    ensures Next(p, s).state != DISABLED <==>
            || (s.StreamStep? && p.stream.StoreStandby?)
            || (Stale(p, s) && !(s.StoreAnswer? && Answer(p.handler.previous, p.handler.status) == Some(DISABLED)))
    ensures s.StreamStep? && p.stream.StoreStandby? ==> p.a2dp
  {}

  /** Without stale stores, a disabled LE Audio or hearing-aid port stays disabled, and Start never
      succeeds on it again. */
  lemma {:induction false} DisabledForGood(ports: seq<Port>, steps: seq<Step>, i: nat, j: nat)
    requires IsRun(ports, steps) && i <= j < |ports|
    requires !ports[0].a2dp && ports[i].state == DISABLED
    requires forall k :: i <= k < j ==> !Stale(ports[k], steps[k])
    ensures ports[j].state == DISABLED
    ensures j < |steps| ==> !StartSucceeds(ports[j], steps[j])
    decreases j
  {
    if i < j {
      DisabledForGood(ports, steps, i, j - 1);
      RunKeepsInv(ports, steps, j - 1);
      LeavesDisabled(ports[j - 1], steps[j - 1]);
    }
  }

  // The locks do not rule stale stores out: a session change between the load and the store in Start
  // is forgotten, and a disabled port that is not an A2DP port starts.
  lemma StaleStart() returns (ports: seq<Port>, steps: seq<Step>)
    ensures IsRun(ports, steps) && !ports[0].a2dp && |steps| == 7
    ensures ports[2].state == DISABLED && Stale(ports[2], steps[2])
    ensures StartSucceeds(ports[6], steps[6])
  {
    steps := [BeginStart, ChangeSession, StreamStep(true), StreamStep(true), LoadAnswer(SUCCESS), StoreAnswer,
              StreamStep(true)];
    var p0 := Port(STANDBY, Idle, Quiet, false);
    var p1 := Next(p0, steps[0]);
    var p2 := Next(p1, steps[1]);
    var p3 := Next(p2, steps[2]);
    var p4 := Next(p3, steps[3]);
    var p5 := Next(p4, steps[4]);
    var p6 := Next(p5, steps[5]);
    ports := [p0, p1, p2, p3, p4, p5, p6, Next(p6, steps[6])];
  }

  // Nor does the port's own mutex help: Stop does not take it, so the answer to a start that has timed
  // out overwrites its DISABLED.
  lemma StopOverwritten() returns (ports: seq<Port>, steps: seq<Step>)
    ensures IsRun(ports, steps) && !ports[0].a2dp && |steps| == 7
    ensures steps[5] == Stop && ports[6].state == DISABLED && Stale(ports[6], steps[6])
    ensures ports[7].state == STARTED
  {
    steps := [BeginStart, StreamStep(true), StreamStep(true), StreamStep(true), LoadAnswer(SUCCESS), Stop, StoreAnswer];
    var p0 := Port(STANDBY, Idle, Quiet, false);
    var p1 := Next(p0, steps[0]);
    var p2 := Next(p1, steps[1]);
    var p3 := Next(p2, steps[2]);
    var p4 := Next(p3, steps[3]);
    var p5 := Next(p4, steps[4]);
    var p6 := Next(p5, steps[5]);
    ports := [p0, p1, p2, p3, p4, p5, p6, Next(p6, steps[6])];
  }
}
