/** The fingerprint HAL object itself. Each method is one section under mCommandMutex, or one pass of
    the watcher that nobody interrupts, proved against the atomic operations of the protocol. */
module GoodixHal {
  import opened GoodixProtocol

  class BiometricsFingerprint {
    var fingerSequence: nat
    var fingerDown: bool
    var lightAreaStable: bool
    var commandQueue: seq<Command>
    ghost var sent: seq<Command>
    ghost var hbm: seq<bool>
    ghost var stableQueued: nat
    ghost var spotLost: nat
    ghost var won: bool
    ghost var stolen: bool

    ghost function View(): Shared
      reads this
    {
      Shared(fingerSequence, fingerDown, lightAreaStable, commandQueue, sent, hbm, stableQueued, spotLost,
             won, stolen)
    }

    constructor ()
      ensures View() == Initial.mem
    {
      fingerSequence, fingerDown, lightAreaStable, commandQueue := 0, false, false, [];
      sent, hbm, stableQueued, spotLost, won, stolen := [], [], 0, 0, false, false;
    }

    method RequestHbm(enabled: bool)
      modifies this`hbm
      ensures hbm == old(hbm) + [enabled]
    {
      hbm := hbm + [enabled];
    }

    method EnqueueGoodixCommand(command: int, sequence: nat)
      modifies this
      ensures View() == Enqueue(old(View()), command, sequence)
    {
      if sequence != fingerSequence { return; }
      if command == CMD_LIGHT_AREA_STABLE && !fingerDown { return; }
      if command == CMD_LIGHT_AREA_CLOSE && fingerDown { return; }
      commandQueue := commandQueue + [Command(sequence, command)];
      if command == CMD_LIGHT_AREA_STABLE { stableQueued := stableQueued + 1; }
    }

    // `carried`: where the watcher stands, see FinishPress.
    method OnFingerDown(ghost carried: bool)
      modifies this
      ensures View() == FinishPress(FlagPress(CountPress(old(View()))), carried)
    {
      fingerSequence := fingerSequence + 1;
      var sequence := fingerSequence;
      fingerDown := true;
      lightAreaStable := false;
      commandQueue := [];
      RequestHbm(true);
      commandQueue := commandQueue + [Command(sequence, CMD_FINGER_DOWN)];
      stableQueued, spotLost, won, stolen := 0, 0, carried, false;
    }

    method OnFingerUp()
      modifies this
      ensures View() ==
              if old(fingerDown) then FinishLift(FlagLift(CountLift(old(View())))) else old(View())
    {
      if !fingerDown { return; }
      fingerSequence := fingerSequence + 1;
      var sequence := fingerSequence;
      fingerDown := false;
      lightAreaStable := false;
      commandQueue := [];
      commandQueue := commandQueue + [Command(sequence, CMD_FINGER_UP)];
    }

    // One iteration of the worker, after its condition variable has seen a command.
    method WorkerPass()
      requires commandQueue != []
      modifies this
      ensures View() == Work(old(View()))
    {
      var command := commandQueue[0];
      commandQueue := commandQueue[1..];
      var currentSequence := fingerSequence;
      if command.sequence != currentSequence { return; }
      if command.command == CMD_LIGHT_AREA_STABLE && !fingerDown { return; }
      if command.command == CMD_LIGHT_AREA_CLOSE && fingerDown { return; }
      sent := sent + [command];
      if command.command == CMD_FINGER_UP {
        RequestHbm(false);
      }
    }

    // std::atomic<bool>::exchange(true).
    method TakeLightArea() returns (was: bool)
      modifies this`lightAreaStable
      ensures was == old(lightAreaStable) && lightAreaStable
    {
      was := lightAreaStable;
      lightAreaStable := true;
    }

    // What the watcher does after one poll of the spot node, nobody interrupting.
    method WatchSpot(ready: bool)
      modifies this
      ensures View() == Watch(old(View()), if ready then LoadDown else StoreLost)
    {
      if ready {
        if fingerDown {
          var was := TakeLightArea();
          if !was {
            won := true;
            ghost var m := View();
            EnqueueGoodixCommand(CMD_LIGHT_AREA_STABLE, fingerSequence);
            assert Watch(m, LoadSequence) == Watch(m, QueueStable(m.sequence)) == View();
          }
        }
      } else {
        lightAreaStable := false;
        if fingerDown { spotLost := spotLost + 1; }
        ghost var m := View();
        if !fingerDown {
          EnqueueGoodixCommand(CMD_LIGHT_AREA_CLOSE, fingerSequence);
          assert Watch(m, LoadCloseSequence) == Watch(m, QueueClose(m.sequence)) == View();
        }
        assert Watch(m, LoadUp) == View();
      }
    }
  }

  function Distance(w: Watcher): nat {
    match w
    case Polling => 0
    case QueueStable(_) => 1
    case QueueClose(_) => 1
    case LoadSequence => 2
    case LoadCloseSequence => 2
    case TakeFlag => 3
    case LoadUp => 3
    case LoadDown => 4
    case StoreLost => 4
  }

  // The watcher run on its own until it polls again.
  ghost function Watch(m: Shared, w: Watcher): Shared
    decreases Distance(w)
  {
    if w.Polling? then m
    else
      var s := WatcherNext(State(m, Free, w, map[]));
      Watch(s.mem, s.watcher)
  }

  // One more step of the watcher on its own.
  lemma WatchOn(m: Shared, w: Watcher)
    requires !w.Polling?
    ensures var s := WatcherNext(State(m, Free, w, map[])); Watch(m, w) == Watch(s.mem, s.watcher)
  {}

  /** Left to itself, the watcher turns every poll into what the spot and the finger call for: a ready
      spot sets the flag of a press and, where it was clear, queues a 200002; a lost spot clears it and,
      with the finger up, queues a 200000. */
  lemma WatcherReacts(m: Shared)
    ensures var r := Watch(m, LoadDown);
            && r.sent == m.sent && r.hbm == m.hbm && r.sequence == m.sequence && r.fingerDown == m.fingerDown
            && r.lightAreaStable == (m.lightAreaStable || m.fingerDown)
            && Appends(m, r, 200002, m.sequence, m.fingerDown && !m.lightAreaStable)
    ensures var r := Watch(m, StoreLost);
            && r.sent == m.sent && r.hbm == m.hbm && r.sequence == m.sequence && r.fingerDown == m.fingerDown
            && !r.lightAreaStable
            && Appends(m, r, 200000, m.sequence, !m.fingerDown)
  {
    WatchOn(m, LoadDown);
    if m.fingerDown {
      WatchOn(m, TakeFlag);
      if !m.lightAreaStable {
        var taken := m.(lightAreaStable := true, won := true);
        WatchOn(taken, LoadSequence);
        WatchOn(taken, QueueStable(m.sequence));
      }
    }
    WatchOn(m, StoreLost);
    var lost := LoseSpot(m);
    WatchOn(lost, LoadUp);
    if !m.fingerDown {
      WatchOn(lost, LoadCloseSequence);
      WatchOn(lost, QueueClose(m.sequence));
    }
  }

  function Remaining(w: Waiter): nat {
    match w
    case Waiting => 5
    case CheckDown => 4
    case CheckSequence => 3
    case TakeStable => 2
    case QueueOwn => 1
    case Finished => 0
  }

  // The waiter of one press run on its own to its end.
  ghost function Await(s: State, press: nat): State
    requires press in s.waiters
    decreases Remaining(s.waiters[press])
  {
    if s.waiters[press].Finished? then s else Await(WaiterNext(s, press), press)
  }

  lemma AwaitOn(s: State, press: nat)
    requires press in s.waiters && !s.waiters[press].Finished?
    ensures press in WaiterNext(s, press).waiters && Await(s, press) == Await(WaiterNext(s, press), press)
  {}

  /** Left to itself, the waiter of a press queues a 200002 exactly if that press is still the present one
      and its flag is clear, and sets the flag with it. */
  lemma WaiterReacts(s: State, press: nat)
    requires press in s.waiters && s.waiters[press].Waiting?
    ensures var m, r := s.mem, Await(s, press).mem;
            var wins := m.fingerDown && m.sequence == press && !m.lightAreaStable;
            && r.sent == m.sent && r.hbm == m.hbm && r.sequence == m.sequence && r.fingerDown == m.fingerDown
            && r.lightAreaStable == (m.lightAreaStable || wins)
            && Appends(m, r, 200002, press, wins)
  {
    AwaitOn(s, press);
    var s1 := WaiterNext(s, press);
    AwaitOn(s1, press);
    var s2 := WaiterNext(s1, press);
    if !s2.waiters[press].Finished? {
      AwaitOn(s2, press);
      var s3 := WaiterNext(s2, press);
      if !s3.waiters[press].Finished? {
        AwaitOn(s3, press);
        var s4 := WaiterNext(s3, press);
        if !s4.waiters[press].Finished? { AwaitOn(s4, press); }
      }
    }
  }
}
