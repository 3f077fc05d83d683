/** What holds of every run of the fingerprint protocol, whatever the schedule and however many
    waiters are alive. */
module GoodixRuns {
  import opened GoodixProtocol

  /** The commands that reach the daemon are serialized: sequences never decrease, each has one edge,
      and light-area commands come after the edge that they belong to. */
  lemma SentIsSerialized(states: seq<State>, actions: seq<Action>, i: nat)
    requires IsRun(states, actions) && i < |states|
    ensures Serialized(states[i].mem.sent)
  {
    RunKeepsInv(states, actions, i);
    ChainedPrefix(states[i].mem.sent, states[i].mem.queue);
    ChainedIsSerialized(states[i].mem.sent);
  }

  // The worker as it would be without its three checks.
  function FifoNext(s: State, a: Action): State
    requires Enabled(s, a)
  {
    if a.WorkerPass? then s.(mem := Send(s.mem.(queue := s.mem.queue[1..]), s.mem.queue[0]))
    else Next(s, a)
  }

  /** Every run of the protocol is a run of the plain FIFO worker. */
  lemma RunIsFifoRun(states: seq<State>, actions: seq<Action>)
    requires IsRun(states, actions)
    ensures forall i :: 0 <= i < |actions| ==> states[i + 1] == FifoNext(states[i], actions[i])
  {
    forall i | 0 <= i < |actions|
      ensures states[i + 1] == FifoNext(states[i], actions[i])
    {
      if actions[i].WorkerPass? {
        RunKeepsInv(states, actions, i);
        WorkerIsFifo(states[i]);
      }
    }
  }

  lemma OthersSendNothing(s: State, a: Action)
    requires Enabled(s, a) && !a.WorkerPass?
    ensures Next(s, a).mem.sent == s.mem.sent
    ensures Next(s, a).mem.hbm == s.mem.hbm + if a.EndPress? then [true] else []
  {
    match a
    case WatcherStep => WatcherSendsNothing(s);
    case WaiterStep(k) => WaiterSendsNothing(s, k);
    case _ =>
  }

  lemma WatcherSendsNothing(s: State)
    requires !s.watcher.Polling?
    ensures WatcherNext(s).mem.sent == s.mem.sent && WatcherNext(s).mem.hbm == s.mem.hbm
  {}

  lemma WaiterSendsNothing(s: State, k: nat)
    requires k in s.waiters && s.waiters[k] != Finished
    ensures WaiterNext(s, k).mem.sent == s.mem.sent && WaiterNext(s, k).mem.hbm == s.mem.hbm
  {}

  /** No thread waits for anything but the mutex, which is always given up again. */
  lemma NothingIsBlocked(s: State)
    ensures s.section.Free? ==>
              && Enabled(s, BeginPress) && (s.mem.fingerDown ==> Enabled(s, BeginLift))
              && (s.mem.queue != [] ==> Enabled(s, WorkerPass))
              && (if s.watcher.Polling? then forall ready :: Enabled(s, SpotPolled(ready)) else Enabled(s, WatcherStep))
              && forall k :: k in s.waiters && s.waiters[k] != Finished ==> Enabled(s, WaiterStep(k))
    ensures match s.section
            case Free => true
            case PressCounted => Enabled(s, MarkPress) && Enabled(Next(s, MarkPress), EndPress)
            case PressFlagged => Enabled(s, EndPress) && Next(s, EndPress).section.Free?
            case LiftCounted => Enabled(s, MarkLift) && Enabled(Next(s, MarkLift), EndLift)
            case LiftFlagged => Enabled(s, EndLift) && Next(s, EndLift).section.Free?
  {}

  lemma WorkerSendsHead(s: State)
    requires Inv(s) && Enabled(s, WorkerPass)
    ensures var m, m' := s.mem, Next(s, WorkerPass).mem;
            && m'.sent == m.sent + [m.queue[0]] && m'.queue == m.queue[1..]
            && m'.hbm == m.hbm + if m.queue[0].command == 200003 then [false] else []
  {
    WorkerIsFifo(s);
  }

  /** What every step of a run sends: a worker pass the head of the queue, whatever it is; nothing else
      sends, and nobody but the worker is kept from running by a queued command. */
  lemma SentByStep(states: seq<State>, actions: seq<Action>, i: nat)
    requires IsRun(states, actions) && i < |actions|
    ensures var m, m' := states[i].mem, states[i + 1].mem;
            && (actions[i].WorkerPass? ==>
                  m.queue != [] && m'.sent == m.sent + [m.queue[0]] && m'.queue == m.queue[1..])
            && (!actions[i].WorkerPass? ==> m'.sent == m.sent)
            && m'.hbm == m.hbm +
                 if actions[i].EndPress? then [true]
                 else if actions[i].WorkerPass? && m.queue[0].command == 200003 then [false] else []
    ensures states[i].section.Free? && states[i].mem.queue != [] ==> Enabled(states[i], WorkerPass)
  {
    assert Enabled(states[i], actions[i]) && states[i + 1] == Next(states[i], actions[i]);
    if actions[i].WorkerPass? {
      RunKeepsInv(states, actions, i);
      WorkerSendsHead(states[i]);
    } else {
      OthersSendNothing(states[i], actions[i]);
    }
  }

  /** So a run of worker passes empties the queue into the sent commands, in order. */
  lemma {:induction false} WorkerDrains(states: seq<State>, actions: seq<Action>, i: nat, n: nat)
    requires IsRun(states, actions) && i + n <= |actions|
    requires forall k :: i <= k < i + n ==> actions[k].WorkerPass?
    ensures n <= |states[i].mem.queue|
    ensures states[i + n].mem.sent == states[i].mem.sent + states[i].mem.queue[..n]
    ensures states[i + n].mem.queue == states[i].mem.queue[n..]
    decreases n
  {
    if n == 0 {
      assert states[i].mem.queue[..0] == [];
    } else {
      WorkerDrains(states, actions, i, n - 1);
      SentByStep(states, actions, i + n - 1);
      var q := states[i].mem.queue;
      assert q[..n] == q[..n - 1] + [q[n - 1]];
    }
  }

  /** What every step queues, and where it empties the queue first. */
  lemma QueuedByStep(states: seq<State>, actions: seq<Action>, i: nat)
    requires IsRun(states, actions) && i < |actions| && !actions[i].WorkerPass?
    ensures var s, m, m' := states[i], states[i].mem, states[i + 1].mem;
            match actions[i]
            case EndPress => m'.queue == [Command(m'.sequence, 200001)] && m'.fingerDown
            case EndLift => m'.queue == [Command(m'.sequence, 200003)] && !m'.fingerDown
            case WatcherStep =>
              if s.watcher.QueueStable? then
                Appends(m, m', 200002, s.watcher.sequence, s.watcher.sequence == m.sequence && m.fingerDown)
              else if s.watcher.QueueClose? then
                Appends(m, m', 200000, s.watcher.sequence, s.watcher.sequence == m.sequence && !m.fingerDown)
              else m'.queue == m.queue
            case WaiterStep(k) =>
              if s.waiters[k].QueueOwn? then Appends(m, m', 200002, k, k == m.sequence && m.fingerDown)
              else m'.queue == m.queue
            case _ => m'.queue == m.queue
  {
    RunKeepsInv(states, actions, i);
    assert states[i + 1] == Next(states[i], actions[i]);
  }

  /** What every step does to the counter and the two flags. */
  lemma FlagsByStep(states: seq<State>, actions: seq<Action>, i: nat)
    requires IsRun(states, actions) && i < |actions|
    ensures var s, a, m, m' := states[i], actions[i], states[i].mem, states[i + 1].mem;
            var loses := a.WatcherStep? && s.watcher.StoreLost?;
            var takes := (a.WatcherStep? && s.watcher.TakeFlag?) || (a.WaiterStep? && s.waiters[a.press].TakeStable?);
            && m'.sequence == m.sequence + (if a.BeginPress? || a.BeginLift? then 1 else 0)
            && m'.fingerDown == (if a.MarkPress? then true else if a.MarkLift? then false else m.fingerDown)
            && m'.lightAreaStable ==
                 if a.EndPress? || a.EndLift? || loses then false else if takes then true else m.lightAreaStable
  {
    assert states[i + 1] == Next(states[i], actions[i]);
  }

  /** Whenever the mutex is free, all queued commands are current and of the shape of the finger. */
  lemma RunQueueShape(states: seq<State>, actions: seq<Action>, i: nat, j: nat)
    requires IsRun(states, actions) && i < |states|
    requires states[i].section.Free? && j < |states[i].mem.queue|
    ensures states[i].mem.queue[j].sequence == states[i].mem.sequence
    ensures states[i].mem.queue[j].command ==
              if states[i].mem.fingerDown
              then if j == 0 && IsEdge(states[i].mem.queue[j]) then CMD_FINGER_DOWN else CMD_LIGHT_AREA_STABLE
              else if j == 0 && IsEdge(states[i].mem.queue[j]) then CMD_FINGER_UP else CMD_LIGHT_AREA_CLOSE
  {
    RunKeepsInv(states, actions, i);
    QueueShape(states[i]);
  }

  /** HBM safety: with the mutex free, HBM is requested exactly while the finger is down or a
      finger-up command waits at the head of the queue; then the next worker pass turns it off. */
  lemma HbmFollowsFinger(states: seq<State>, actions: seq<Action>, i: nat)
    requires IsRun(states, actions) && i < |states| && states[i].section.Free?
    ensures states[i].mem.fingerDown ==> HbmOn(states[i].mem)
    ensures !states[i].mem.fingerDown ==>
              (HbmOn(states[i].mem) <==>
               Command(states[i].mem.sequence, CMD_FINGER_UP) in states[i].mem.queue)
    ensures !states[i].mem.fingerDown && HbmOn(states[i].mem) ==>
              && Enabled(states[i], WorkerPass)
              && states[i].mem.queue[0] == Command(states[i].mem.sequence, CMD_FINGER_UP)
              && Next(states[i], WorkerPass).mem.sent == states[i].mem.sent + [states[i].mem.queue[0]]
              && !HbmOn(Next(states[i], WorkerPass).mem)
  {
    RunKeepsInv(states, actions, i);
    var s := states[i];
    QueueShape(s);
    if !s.mem.fingerDown && HbmOn(s.mem) {
      WorkerIsFifo(s);
    }
    if Command(s.mem.sequence, CMD_FINGER_UP) in s.mem.queue {
      var j :| 0 <= j < |s.mem.queue| && s.mem.queue[j] == Command(s.mem.sequence, CMD_FINGER_UP);
    }
  }

  // ----- counting the 200002 commands of one press -----

  predicate QueuesStable(before: Shared, after: Shared) {
    && |after.queue| == |before.queue| + 1
    && after.queue[..|before.queue|] == before.queue
    && after.queue[|before.queue|].command == CMD_LIGHT_AREA_STABLE
  }

  // How many of the steps from `first` up to `upto` queue a 200002.
  function StablesQueued(states: seq<State>, first: nat, upto: nat): nat
    requires first <= upto < |states|
  {
    if first == upto then 0
    else StablesQueued(states, first, upto - 1) +
         if QueuesStable(states[upto - 1].mem, states[upto].mem) then 1 else 0
  }

  // How many of those steps are the watcher storing false while the finger is down.
  function SpotsLost(states: seq<State>, actions: seq<Action>, first: nat, upto: nat): nat
    requires first <= upto < |states| && |states| == |actions| + 1
  {
    if first == upto then 0
    else SpotsLost(states, actions, first, upto - 1) +
         var s := states[upto - 1];
         if actions[upto - 1].WatcherStep? && s.watcher.StoreLost? && s.mem.fingerDown then 1 else 0
  }

  lemma StepCounts(s: State, a: Action)
    requires Inv(s) && Enabled(s, a) && !a.EndPress?
    ensures Next(s, a).mem.stableQueued ==
              s.mem.stableQueued + if QueuesStable(s.mem, Next(s, a).mem) then 1 else 0
    ensures Next(s, a).mem.spotLost ==
              s.mem.spotLost + if a.WatcherStep? && s.watcher.StoreLost? && s.mem.fingerDown then 1 else 0
  {
    match a
    case EndLift =>
      assert !QueuesStable(s.mem, Next(s, a).mem);
    case WorkerPass =>
    case _ =>
  }

  // The history fields move with the counts over the step after state i.
  predicate HistoryMoves(states: seq<State>, actions: seq<Action>, i: nat)
    requires i < |actions| && |states| == |actions| + 1
  {
    var s, t := states[i], states[i + 1].mem;
    && t.stableQueued == s.mem.stableQueued + (if QueuesStable(s.mem, t) then 1 else 0)
    && t.spotLost == s.mem.spotLost +
         if actions[i].WatcherStep? && s.watcher.StoreLost? && s.mem.fingerDown then 1 else 0
  }

  lemma {:induction false} HistoryAdds(states: seq<State>, actions: seq<Action>, first: nat, upto: nat)
    requires first <= upto < |states| && |states| == |actions| + 1
    requires forall i :: first <= i < upto ==> HistoryMoves(states, actions, i)
    ensures states[upto].mem.stableQueued == states[first].mem.stableQueued + StablesQueued(states, first, upto)
    ensures states[upto].mem.spotLost == states[first].mem.spotLost + SpotsLost(states, actions, first, upto)
    decreases upto
  {
    if first < upto {
      HistoryAdds(states, actions, first, upto - 1);
      assert HistoryMoves(states, actions, upto - 1);
    }
  }

  // The history fields of the shared memory are these counts since the last finger-down.
  lemma HistoryCounts(states: seq<State>, actions: seq<Action>, first: nat, upto: nat)
    requires IsRun(states, actions) && first <= upto < |states|
    requires first > 0 && actions[first - 1].EndPress?
    requires forall i :: first <= i < upto ==> !actions[i].EndPress?
    ensures states[upto].mem.stableQueued == StablesQueued(states, first, upto)
    ensures states[upto].mem.spotLost == SpotsLost(states, actions, first, upto)
  {
    forall i | first <= i < upto
      ensures HistoryMoves(states, actions, i)
    {
      RunKeepsInv(states, actions, i);
      StepCounts(states[i], actions[i]);
    }
    assert states[first] == Next(states[first - 1], actions[first - 1]);
    HistoryAdds(states, actions, first, upto);
  }

  /** From one finger-down to the next, at most two 200002 commands are queued beyond those that the
      watcher's false stores allow, however many stale waiters race for the flag. */
  lemma StableBudget(states: seq<State>, actions: seq<Action>, first: nat, upto: nat)
    requires IsRun(states, actions) && first <= upto < |states|
    requires first > 0 && actions[first - 1].EndPress?
    requires forall i :: first <= i < upto ==> !actions[i].EndPress?
    ensures StablesQueued(states, first, upto) <= 2 + SpotsLost(states, actions, first, upto)
  {
    HistoryCounts(states, actions, first, upto);
    RunKeepsInv(states, actions, upto);
  }

  // ----- which presses get a 200002 -----

  // The step wins the flag for the present press: the watcher's exchange, or that of its own waiter.
  predicate Wins(s: State, a: Action) {
    !s.mem.lightAreaStable &&
    ((a.WatcherStep? && s.watcher.TakeFlag?) || TakesAs(s, a, s.mem.sequence))
  }

  predicate TakesAs(s: State, a: Action, press: nat) {
    a == WaiterStep(press) && press in s.waiters && s.waiters[press].TakeStable?
  }

  // The waiter of another press takes the flag.
  predicate Steals(s: State, a: Action) {
    !s.mem.lightAreaStable && a.WaiterStep? && a.press != s.mem.sequence && TakesAs(s, a, a.press)
  }

  ghost predicate WonSince(states: seq<State>, actions: seq<Action>, first: nat, upto: nat)
    requires 0 < first <= upto < |states| && |states| == |actions| + 1
  {
    Carries(states[first - 1]) || exists k :: first <= k < upto && Wins(states[k], actions[k])
  }

  ghost predicate StolenSince(states: seq<State>, actions: seq<Action>, first: nat, upto: nat)
    requires first <= upto < |states| && |states| == |actions| + 1
  {
    exists k :: first <= k < upto && Steals(states[k], actions[k])
  }

  lemma FlagMoves(s: State, a: Action)
    requires Enabled(s, a) && !a.EndPress?
    ensures Next(s, a).mem.won <==> s.mem.won || Wins(s, a)
    ensures Next(s, a).mem.stolen <==> s.mem.stolen || Steals(s, a)
  {}

  predicate FlagsMove(states: seq<State>, actions: seq<Action>, i: nat)
    requires i < |actions| && |states| == |actions| + 1
  {
    && (states[i + 1].mem.won <==> states[i].mem.won || Wins(states[i], actions[i]))
    && (states[i + 1].mem.stolen <==> states[i].mem.stolen || Steals(states[i], actions[i]))
  }

  lemma {:induction false} FlagsAdd(states: seq<State>, actions: seq<Action>, first: nat, upto: nat)
    requires first <= upto < |states| && |states| == |actions| + 1
    requires forall i :: first <= i < upto ==> FlagsMove(states, actions, i)
    ensures states[upto].mem.won <==>
            states[first].mem.won || exists k :: first <= k < upto && Wins(states[k], actions[k])
    ensures states[upto].mem.stolen <==> states[first].mem.stolen || StolenSince(states, actions, first, upto)
    decreases upto
  {
    if first < upto {
      FlagsAdd(states, actions, first, upto - 1);
      assert FlagsMove(states, actions, upto - 1);
    }
  }

  // The two history flags say what happened since the last finger-down.
  lemma FlagHistory(states: seq<State>, actions: seq<Action>, first: nat, upto: nat)
    requires IsRun(states, actions) && first <= upto < |states|
    requires first > 0 && actions[first - 1].EndPress?
    requires forall i :: first <= i < upto ==> !actions[i].EndPress?
    ensures states[upto].mem.won <==> WonSince(states, actions, first, upto)
    ensures states[upto].mem.stolen <==> StolenSince(states, actions, first, upto)
  {
    forall i | first <= i < upto
      ensures FlagsMove(states, actions, i)
    {
      FlagMoves(states[i], actions[i]);
    }
    assert states[first] == Next(states[first - 1], actions[first - 1]);
    FlagsAdd(states, actions, first, upto);
  }

  /** Once its own waiter is done and the watcher is polling, a press has had a 200002 queued exactly if
      its own waiter or the watcher won the flag since the finger-down, or the watcher carried a flag
      won before into the press. It goes without only if the waiter of another press took the flag. */
  lemma PressIsServed(states: seq<State>, actions: seq<Action>, first: nat, i: nat)
    requires IsRun(states, actions) && first <= i < |states|
    requires first > 0 && actions[first - 1].EndPress?
    requires forall k :: first <= k < i ==> !actions[k].EndPress?
    requires states[i].section.Free? && states[i].mem.fingerDown
    ensures states[i].mem.sequence in states[i].waiters
    ensures states[i].waiters[states[i].mem.sequence].Finished? && states[i].watcher.Polling? ==>
              && (StablesQueued(states, first, i) > 0 <==> WonSince(states, actions, first, i))
              && (StablesQueued(states, first, i) == 0 ==> StolenSince(states, actions, first, i))
  {
    RunKeepsInv(states, actions, i);
    HistoryCounts(states, actions, first, i);
    FlagHistory(states, actions, first, i);
  }

  // ----- witnesses -----

  lemma Extend(states: seq<State>, actions: seq<Action>, a: Action)
      returns (states': seq<State>, actions': seq<Action>)
    requires IsRun(states, actions) && Enabled(states[|states| - 1], a)
    ensures IsRun(states', actions')
    ensures states'[|states'| - 1] == Next(states[|states| - 1], a)
  {
    states' := states + [Next(states[|states| - 1], a)];
    actions' := actions + [a];
  }

  // A first press, its waiter past its checks and its watcher past its exchange, then a second one.
  lemma TwoPresses(first: seq<Action>, watcher: Watcher, waiter: Waiter)
      returns (states: seq<State>, actions: seq<Action>)
    requires (first == [SpotPolled(true), WatcherStep, WatcherStep] && watcher == LoadSequence && waiter == Waiting)
          || (first == [WaiterStep(1), WaiterStep(1), WaiterStep(1)] && watcher == Polling && waiter == TakeStable)
    ensures IsRun(states, actions)
    ensures var s := states[|states| - 1];
            && s.section.Free? && s.watcher == watcher && s.waiters == map[1 := waiter, 2 := Waiting]
            && s.mem.sequence == 2 && s.mem.fingerDown && !s.mem.lightAreaStable
            && s.mem.stableQueued == 0 && s.mem.spotLost == 0 && s.mem.won == (watcher == LoadSequence)
  {
    states, actions := [Initial], [];
    states, actions := Extend(states, actions, BeginPress);
    states, actions := Extend(states, actions, MarkPress);
    states, actions := Extend(states, actions, EndPress);
    states, actions := Extend(states, actions, first[0]);
    states, actions := Extend(states, actions, first[1]);
    states, actions := Extend(states, actions, first[2]);
    states, actions := Extend(states, actions, BeginPress);
    states, actions := Extend(states, actions, MarkPress);
    states, actions := Extend(states, actions, EndPress);
  }

  /** The budget of two is reached: the watcher carries one exchange over a new finger-down, and the
      waiter of the new press adds its own. */
  lemma BudgetIsTight() returns (states: seq<State>, actions: seq<Action>)
    ensures IsRun(states, actions)
    ensures states[|states| - 1].mem.stableQueued == 2 && states[|states| - 1].mem.spotLost == 0
  {
    states, actions := TwoPresses([SpotPolled(true), WatcherStep, WatcherStep], LoadSequence, Waiting);
    states, actions := Extend(states, actions, WatcherStep);
    states, actions := Extend(states, actions, WatcherStep);
    states, actions := Extend(states, actions, WaiterStep(2));
    states, actions := Extend(states, actions, WaiterStep(2));
    states, actions := Extend(states, actions, WaiterStep(2));
    states, actions := Extend(states, actions, WaiterStep(2));
    states, actions := Extend(states, actions, WaiterStep(2));
  }

  /** A press can be without any 200002 when all its threads are done: the waiter of an earlier press,
      stopped between its checks and its exchange, takes the flag of the new press and its own command
      is dropped. */
  lemma StaleWaiterStarvesPress() returns (states: seq<State>, actions: seq<Action>)
    ensures IsRun(states, actions)
    ensures var s := states[|states| - 1];
            && s.section.Free? && s.mem.fingerDown && s.watcher.Polling?
            && (forall k :: k in s.waiters ==> s.waiters[k].Finished?)
            && s.mem.stableQueued == 0 && !s.mem.won && s.mem.stolen
  {
    states, actions := TwoPresses([WaiterStep(1), WaiterStep(1), WaiterStep(1)], Polling, TakeStable);
    states, actions := Extend(states, actions, WaiterStep(1));
    states, actions := Extend(states, actions, WaiterStep(1));
    states, actions := Extend(states, actions, WaiterStep(2));
    states, actions := Extend(states, actions, WaiterStep(2));
    states, actions := Extend(states, actions, WaiterStep(2));
    states, actions := Extend(states, actions, WaiterStep(2));
  }
}
