/** The command protocol between the under-display fingerprint HAL and the Goodix daemon:
    one worker thread, one spot watcher, one detached HBM waiter per press, and the binder
    threads that report finger-down and finger-up.

    `Shared` is the memory those threads share, together with the history the theorems speak of.
    Each function from Shared to Shared is one atomic operation. The queue, the sent commands and
    the HBM requests are touched only under mCommandMutex; the counter and the two flags are
    atomics which the watcher and the waiters also reach without the mutex, so the sections of
    onFingerDown and onFingerUp are split at every store to them. */
module GoodixProtocol {

  const CMD_FINGER_DOWN := 200001
  const CMD_FINGER_UP := 200003
  const CMD_LIGHT_AREA_CLOSE := 200000
  const CMD_LIGHT_AREA_STABLE := 200002

  datatype Command = Command(sequence: nat, command: int)

  datatype Shared = Shared(
    sequence: nat,              // mFingerSequence
    fingerDown: bool,           // mFingerDown
    lightAreaStable: bool,      // mLightAreaStable
    queue: seq<Command>,        // mCommandQueue
    sent: seq<Command>,         // every command handed to the daemon, oldest first
    hbm: seq<bool>,             // every HBM request, oldest first
    stableQueued: nat,          // 200002 commands queued since the last finger-down
    spotLost: nat,              // false stores of the watcher since then, finger still down
    won: bool,                  // the watcher or the press's own waiter won the flag for this press
    stolen: bool)               // the waiter of an earlier press won it since then

  // ----- atomic operations on the shared memory -----

  function CountPress(m: Shared): Shared { m.(sequence := m.sequence + 1) }

  function FlagPress(m: Shared): Shared { m.(fingerDown := true) }

  // `carried`: the watcher has won the flag before and has yet to queue its command.
  function FinishPress(m: Shared, carried: bool): Shared {
    m.(lightAreaStable := false, queue := [Command(m.sequence, CMD_FINGER_DOWN)],
       hbm := m.hbm + [true], stableQueued := 0, spotLost := 0, won := carried, stolen := false)
  }

  function CountLift(m: Shared): Shared { m.(sequence := m.sequence + 1) }

  function FlagLift(m: Shared): Shared { m.(fingerDown := false) }

  function FinishLift(m: Shared): Shared {
    m.(lightAreaStable := false, queue := [Command(m.sequence, CMD_FINGER_UP)])
  }

  function Enqueue(m: Shared, command: int, sequence: nat): Shared {
    if sequence != m.sequence then m
    else if command == CMD_LIGHT_AREA_STABLE && !m.fingerDown then m
    else if command == CMD_LIGHT_AREA_CLOSE && m.fingerDown then m
    else m.(queue := m.queue + [Command(sequence, command)],
            stableQueued := m.stableQueued + if command == CMD_LIGHT_AREA_STABLE then 1 else 0)
  }

  function Send(m: Shared, c: Command): Shared {
    m.(sent := m.sent + [c], hbm := if c.command == CMD_FINGER_UP then m.hbm + [false] else m.hbm)
  }

  function Work(m: Shared): Shared
    requires m.queue != []
  {
    var c := m.queue[0];
    var m := m.(queue := m.queue[1..]);
    if c.sequence != m.sequence then m
    else if c.command == CMD_LIGHT_AREA_STABLE && !m.fingerDown then m
    else if c.command == CMD_LIGHT_AREA_CLOSE && m.fingerDown then m
    else Send(m, c)
  }

  function LoseSpot(m: Shared): Shared {
    m.(lightAreaStable := false, spotLost := m.spotLost + if m.fingerDown then 1 else 0)
  }

  // ----- the threads -----

  // How far the binder thread that holds mCommandMutex has come.
  datatype Section = Free | PressCounted | PressFlagged | LiftCounted | LiftFlagged

  // The next atomic operation of the spot watcher.
  datatype Watcher =
    | Polling
    | LoadDown | TakeFlag | LoadSequence | QueueStable(sequence: nat)
    | StoreLost | LoadUp | LoadCloseSequence | QueueClose(sequence: nat)

  // The next atomic operation of the waiter of one press.
  datatype Waiter = Waiting | CheckDown | CheckSequence | TakeStable | QueueOwn | Finished

  // Waiters are keyed by the sequence of their press.
  datatype State = State(mem: Shared, section: Section, watcher: Watcher, waiters: map<nat, Waiter>)

  const Initial := State(Shared(0, false, false, [], [], [], 0, 0, false, false), Free, Polling, map[])

  datatype Action =
    | BeginPress | MarkPress | EndPress
    | BeginLift | MarkLift | EndLift
    | WorkerPass
    | SpotPolled(ready: bool)
    | WatcherStep
    | WaiterStep(press: nat)

  predicate Enabled(s: State, a: Action) {
    match a
    case BeginPress => s.section.Free?
    case MarkPress => s.section.PressCounted?
    case EndPress => s.section.PressFlagged?
    case BeginLift => s.section.Free? && s.mem.fingerDown
    case MarkLift => s.section.LiftCounted?
    case EndLift => s.section.LiftFlagged?
    case WorkerPass => s.section.Free? && s.mem.queue != []
    case SpotPolled(_) => s.watcher.Polling?
    case WatcherStep =>
      !s.watcher.Polling? && (s.watcher.QueueStable? || s.watcher.QueueClose? ==> s.section.Free?)
    case WaiterStep(k) =>
      k in s.waiters && s.waiters[k] != Finished && (s.waiters[k].QueueOwn? ==> s.section.Free?)
  }

  // The watcher has won the flag and may still queue a 200002 of the current sequence.
  predicate Carries(s: State) { s.watcher.LoadSequence? || s.watcher == QueueStable(s.mem.sequence) }

  function Next(s: State, a: Action): State
    requires Enabled(s, a)
  {
    match a
    case BeginPress => s.(mem := CountPress(s.mem), section := PressCounted)
    case MarkPress => s.(mem := FlagPress(s.mem), section := PressFlagged)
    case EndPress =>
      s.(mem := FinishPress(s.mem, Carries(s)), section := Free, waiters := s.waiters[s.mem.sequence := Waiting])
    case BeginLift => s.(mem := CountLift(s.mem), section := LiftCounted)
    case MarkLift => s.(mem := FlagLift(s.mem), section := LiftFlagged)
    case EndLift => s.(mem := FinishLift(s.mem), section := Free)
    case WorkerPass => s.(mem := Work(s.mem))
    case SpotPolled(ready) => s.(watcher := if ready then LoadDown else StoreLost)
    case WatcherStep => WatcherNext(s)
    case WaiterStep(k) => WaiterNext(s, k)
  }

  function WatcherNext(s: State): State
    requires !s.watcher.Polling?
  {
    match s.watcher
    case LoadDown => s.(watcher := if s.mem.fingerDown then TakeFlag else Polling)
    case TakeFlag =>
      if s.mem.lightAreaStable then s.(watcher := Polling)
      else s.(mem := s.mem.(lightAreaStable := true, won := true), watcher := LoadSequence)
    case LoadSequence => s.(watcher := QueueStable(s.mem.sequence))
    case QueueStable(q) =>
      s.(mem := Enqueue(s.mem, CMD_LIGHT_AREA_STABLE, q), watcher := Polling)
    case StoreLost => s.(mem := LoseSpot(s.mem), watcher := LoadUp)
    case LoadUp => s.(watcher := if s.mem.fingerDown then Polling else LoadCloseSequence)
    case LoadCloseSequence => s.(watcher := QueueClose(s.mem.sequence))
    case QueueClose(q) => s.(mem := Enqueue(s.mem, CMD_LIGHT_AREA_CLOSE, q), watcher := Polling)
  }

  function WaiterNext(s: State, k: nat): State
    requires k in s.waiters && s.waiters[k] != Finished
  {
    match s.waiters[k]
    case Waiting => s.(waiters := s.waiters[k := CheckDown])
    case CheckDown => s.(waiters := s.waiters[k := if s.mem.fingerDown then CheckSequence else Finished])
    case CheckSequence =>
      s.(waiters := s.waiters[k := if s.mem.sequence == k then TakeStable else Finished])
    case TakeStable =>
      if s.mem.lightAreaStable then s.(waiters := s.waiters[k := Finished])
      else s.(mem := s.mem.(lightAreaStable := true, won := s.mem.won || k == s.mem.sequence,
                             stolen := s.mem.stolen || k != s.mem.sequence),
              waiters := s.waiters[k := QueueOwn])
    case QueueOwn =>
      s.(mem := Enqueue(s.mem, CMD_LIGHT_AREA_STABLE, k), waiters := s.waiters[k := Finished])
  }

  // A run is any schedule of the threads: each state leads to the next by one enabled action.
  ghost predicate IsRun(states: seq<State>, actions: seq<Action>) {
    && |states| == |actions| + 1
    && states[0] == Initial
    && forall i {:trigger actions[i]} :: 0 <= i < |actions| ==>
         Enabled(states[i], actions[i]) && states[i + 1] == Next(states[i], actions[i])
  }

  // One command at the end of the queue, or nothing.
  predicate Appends(m: Shared, m': Shared, command: int, sequence: nat, taken: bool) {
    m'.queue == m.queue + if taken then [Command(sequence, command)] else []
  }

  // ----- what the daemon may be told -----

  predicate IsEdge(c: Command) { c.command == CMD_FINGER_DOWN || c.command == CMD_FINGER_UP }

  predicate OfPress(c: Command) { c.command == CMD_FINGER_DOWN || c.command == CMD_LIGHT_AREA_STABLE }

  predicate OfLift(c: Command) { c.command == CMD_FINGER_UP || c.command == CMD_LIGHT_AREA_CLOSE }

  predicate Opens(c: Command) {
    if c.sequence == 0 then c.command == CMD_LIGHT_AREA_CLOSE else IsEdge(c)
  }

  predicate Follows(a: Command, b: Command) {
    if a.sequence == b.sequence
    then (OfPress(a) && b.command == CMD_LIGHT_AREA_STABLE) || (OfLift(a) && b.command == CMD_LIGHT_AREA_CLOSE)
    else a.sequence < b.sequence && IsEdge(b)
  }

  // The local form: each command may follow the one just before it.
  ghost predicate Chained(t: seq<Command>) {
    && (t != [] ==> Opens(t[0]))
    && forall i :: 0 < i < |t| ==> Follows(t[i - 1], t[i])
  }

  // The global form, read off the protocol: presses and lifts never interleave, a sequence has one
  // edge only, and a light-area command comes after the edge that it belongs to.
  ghost predicate Serialized(t: seq<Command>) {
    && (forall i :: 0 <= i < |t| ==> OfPress(t[i]) || OfLift(t[i]))
    && (forall i :: 0 <= i < |t| && IsEdge(t[i]) ==> t[i].sequence > 0)
    && (forall i, j :: 0 <= i <= j < |t| ==> t[i].sequence <= t[j].sequence)
    && (forall i, j :: 0 <= i < j < |t| && IsEdge(t[i]) && IsEdge(t[j]) ==> t[i].sequence != t[j].sequence)
    && (forall i :: 0 <= i < |t| && t[i].command == CMD_LIGHT_AREA_STABLE ==>
          Command(t[i].sequence, CMD_FINGER_DOWN) in t[..i])
    && (forall i :: 0 <= i < |t| && t[i].command == CMD_LIGHT_AREA_CLOSE && t[i].sequence > 0 ==>
          Command(t[i].sequence, CMD_FINGER_UP) in t[..i])
  }

  lemma {:induction false} ChainedOrdered(t: seq<Command>, i: nat, j: nat)
    requires Chained(t) && i <= j < |t|
    ensures t[i].sequence <= t[j].sequence
    ensures i < j && IsEdge(t[j]) ==> t[i].sequence < t[j].sequence
    decreases j
  {
    if i < j {
      ChainedOrdered(t, i, j - 1);
    }
  }

  lemma {:induction false} ChainedKind(t: seq<Command>, i: nat)
    requires Chained(t) && i < |t|
    ensures OfPress(t[i]) || OfLift(t[i])
    ensures t[i].sequence == 0 ==> t[i].command == CMD_LIGHT_AREA_CLOSE
    ensures t[i].command == CMD_LIGHT_AREA_STABLE ==> Command(t[i].sequence, CMD_FINGER_DOWN) in t[..i]
    ensures t[i].command == CMD_LIGHT_AREA_CLOSE && t[i].sequence > 0 ==>
              Command(t[i].sequence, CMD_FINGER_UP) in t[..i]
  {
    if i > 0 {
      ChainedKind(t, i - 1);
      assert t[..i] == t[..i - 1] + [t[i - 1]];
      assert Follows(t[i - 1], t[i]);
    }
  }

  // Outside sequence 0 every command stands at or after the one edge of its sequence.
  lemma EdgeOf(t: seq<Command>, i: nat) returns (k: nat)
    requires Serialized(t) && i < |t| && t[i].sequence > 0
    ensures k <= i && IsEdge(t[k]) && t[k].sequence == t[i].sequence
    ensures OfPress(t[k]) == OfPress(t[i]) && OfLift(t[k]) == OfLift(t[i])
    ensures k < i || IsEdge(t[i])
  {
    k := i;
    assert OfPress(t[i]) || OfLift(t[i]);
    if !IsEdge(t[i]) {
      var edge := if OfPress(t[i]) then CMD_FINGER_DOWN else CMD_FINGER_UP;
      k :| 0 <= k < i && t[k] == Command(t[i].sequence, edge);
    }
  }

  lemma SequenceZero(t: seq<Command>, i: nat)
    requires Serialized(t) && i < |t| && t[i].sequence == 0
    ensures t[i].command == CMD_LIGHT_AREA_CLOSE
  {
    assert OfPress(t[i]) || OfLift(t[i]);
  }

  lemma SerializedFollows(t: seq<Command>, i: nat)
    requires Serialized(t) && 0 < i < |t|
    ensures Follows(t[i - 1], t[i])
  {
    assert t[i - 1].sequence <= t[i].sequence;
    if t[i].sequence == 0 {
      SequenceZero(t, i - 1);
      SequenceZero(t, i);
    } else {
      var k := EdgeOf(t, i);
      if t[i - 1].sequence == t[i].sequence {
        var j := EdgeOf(t, i - 1);
        assert j == k || j < k || k < j;
      }
    }
  }

  /** The local and the global form describe the same traces. */
  lemma ChainedIsSerialized(t: seq<Command>)
    ensures Chained(t) <==> Serialized(t)
  {
    if Chained(t) {
      forall i | 0 <= i < |t|
        ensures OfPress(t[i]) || OfLift(t[i])
        ensures IsEdge(t[i]) ==> t[i].sequence > 0
        ensures t[i].command == CMD_LIGHT_AREA_STABLE ==> Command(t[i].sequence, CMD_FINGER_DOWN) in t[..i]
        ensures t[i].command == CMD_LIGHT_AREA_CLOSE && t[i].sequence > 0 ==>
                  Command(t[i].sequence, CMD_FINGER_UP) in t[..i]
      {
        ChainedKind(t, i);
      }
      forall i, j | 0 <= i <= j < |t|
        ensures t[i].sequence <= t[j].sequence
        ensures i < j && IsEdge(t[j]) ==> t[i].sequence < t[j].sequence
      {
        ChainedOrdered(t, i, j);
      }
    }
    if Serialized(t) {
      if t != [] {
        if t[0].sequence == 0 {
          SequenceZero(t, 0);
        } else {
          var _ := EdgeOf(t, 0);
        }
      }
      forall i | 0 < i < |t|
        ensures Follows(t[i - 1], t[i])
      {
        SerializedFollows(t, i);
      }
    }
  }

  // ----- the invariant -----

  // The sequence of the last finger-down or finger-up whose section is complete.
  function Settled(s: State): int {
    if s.section.Free? then s.mem.sequence else s.mem.sequence - 1
  }

  predicate HbmOn(m: Shared) { m.hbm != [] && m.hbm[|m.hbm| - 1] }

  predicate LiftQueued(m: Shared) { m.queue != [] && m.queue[0].command == CMD_FINGER_UP }

  // Everything sent or still to be sent is one chain that ends at the settled sequence.
  ghost predicate QueueInv(s: State) {
    var all := s.mem.sent + s.mem.queue;
    && Settled(s) >= 0
    && Chained(all)
    && (forall i :: 0 <= i < |s.mem.queue| ==> s.mem.queue[i].sequence == Settled(s))
    && (if all == [] then Settled(s) == 0 else all[|all| - 1].sequence == Settled(s))
    && (s.section.Free? ==> s.mem.fingerDown == (all != [] && OfPress(all[|all| - 1])))
    && (s.section.PressFlagged? || s.section.LiftCounted? ==> s.mem.fingerDown)
    && (s.section.LiftFlagged? ==> !s.mem.fingerDown)
  }

  ghost predicate HbmInv(s: State) {
    && (s.section.Free? ==> HbmOn(s.mem) == (s.mem.fingerDown || LiftQueued(s.mem)))
    && (s.section.LiftCounted? || s.section.LiftFlagged? ==> HbmOn(s.mem))
  }

  // Won exchanges that may still become a 200002 of the current press.
  function Pending(s: State): nat {
    (if s.watcher.LoadSequence? || s.watcher.QueueStable? then 1 else 0) +
    (if s.mem.sequence in s.waiters && s.waiters[s.mem.sequence].QueueOwn? then 1 else 0)
  }

  ghost predicate BudgetInv(s: State) {
    && (forall k :: k in s.waiters ==> k <= Settled(s))
    && s.mem.stableQueued <= 2 + s.mem.spotLost
    && (s.mem.fingerDown && !s.section.PressCounted? && !s.section.PressFlagged? ==>
          s.mem.stableQueued + Pending(s) + (if s.mem.lightAreaStable then 0 else 1) <= 2 + s.mem.spotLost)
  }

  // While a press lasts, it has been won exactly if it has its 200002 or one is on its way; and its
  // flag is set, or its waiter gone, only if it has been won or stolen.
  ghost predicate ServedInv(s: State) {
    s.section.Free? && s.mem.fingerDown ==>
      && s.mem.sequence in s.waiters
      && var own := s.waiters[s.mem.sequence];
         && (s.mem.won <==> s.mem.stableQueued > 0 || Carries(s) || own.QueueOwn?)
         && (s.mem.lightAreaStable || own.Finished? ==> s.mem.won || s.mem.stolen)
  }

  ghost predicate Inv(s: State) { QueueInv(s) && HbmInv(s) && BudgetInv(s) && ServedInv(s) }

  lemma ChainedAppend(t: seq<Command>, c: Command)
    requires Chained(t)
    requires if t == [] then Opens(c) else Follows(t[|t| - 1], c)
    ensures Chained(t + [c])
  {
    forall i | 0 < i < |t + [c]|
      ensures Follows((t + [c])[i - 1], (t + [c])[i])
    {
      if i < |t| { assert Follows(t[i - 1], t[i]); }
    }
  }

  lemma ChainedPrefix(t: seq<Command>, u: seq<Command>)
    requires Chained(t + u)
    ensures Chained(t)
  {
    forall i | 0 < i < |t|
      ensures Follows(t[i - 1], t[i])
    {
      assert (t + u)[i - 1] == t[i - 1] && (t + u)[i] == t[i];
    }
    if t != [] { assert (t + u)[0] == t[0]; }
  }

  // A finger-down or finger-up throws the queue away and starts a new sequence.
  lemma RestartKeepsChain(s: State, c: Command)
    requires QueueInv(s) && !s.section.Free? && c.sequence == s.mem.sequence && IsEdge(c)
    ensures Chained(s.mem.sent + [c])
  {
    var all := s.mem.sent + s.mem.queue;
    ChainedPrefix(s.mem.sent, s.mem.queue);
    if s.mem.sent != [] {
      var last := |s.mem.sent| - 1;
      assert all[last] == s.mem.sent[last];
      ChainedOrdered(all, last, |all| - 1);
    }
    ChainedAppend(s.mem.sent, c);
  }

  // An enqueued light-area command extends the chain.
  lemma EnqueueKeepsQueue(s: State, command: int, q: nat, s': State)
    requires QueueInv(s) && s.section.Free? && s'.section.Free?
    requires command == CMD_LIGHT_AREA_STABLE || command == CMD_LIGHT_AREA_CLOSE
    requires s'.mem == Enqueue(s.mem, command, q)
    ensures QueueInv(s')
  {
    if s'.mem.queue != s.mem.queue {
      var all := s.mem.sent + s.mem.queue;
      var c := Command(q, command);
      assert s'.mem.sent + s'.mem.queue == all + [c];
      if all != [] { ChainedKind(all, |all| - 1); }
      ChainedAppend(all, c);
    }
  }

  // Within one sequence a chain stays on the press side or on the lift side.
  lemma {:induction false} SameSequenceSameSide(t: seq<Command>, i: nat, j: nat)
    requires Chained(t) && i <= j < |t| && t[i].sequence == t[j].sequence
    ensures OfPress(t[i]) == OfPress(t[j])
    decreases j
  {
    if i < j {
      ChainedOrdered(t, i, j - 1);
      assert Follows(t[j - 1], t[j]);
      SameSequenceSameSide(t, i, j - 1);
    }
  }

  // The commands of the last sequence of a chain: one side, the edge first.
  lemma LastSequence(t: seq<Command>, n: nat)
    requires Chained(t) && n < |t| && t[n].sequence == t[|t| - 1].sequence
    ensures OfPress(t[n]) == OfPress(t[|t| - 1]) && OfLift(t[n]) == !OfPress(t[|t| - 1])
    ensures IsEdge(t[n]) && n > 0 ==> t[n - 1].sequence < t[n].sequence
  {
    ChainedKind(t, n);
    SameSequenceSameSide(t, n, |t| - 1);
    if n > 0 { ChainedOrdered(t, n - 1, n); }
  }

  lemma QueuedCommand(s: State, i: nat)
    requires QueueInv(s) && s.section.Free? && i < |s.mem.queue|
    ensures OfPress(s.mem.queue[i]) == s.mem.fingerDown
    ensures OfLift(s.mem.queue[i]) == !s.mem.fingerDown
    ensures IsEdge(s.mem.queue[i]) ==> i == 0
  {
    var all := s.mem.sent + s.mem.queue;
    var n := |s.mem.sent| + i;
    assert all[n] == s.mem.queue[i];
    assert i > 0 ==> all[n - 1] == s.mem.queue[i - 1];
    LastSequence(all, n);
  }

  /** The queue is `[200001]? 200002*` while the finger is down and `[200003]? 200000*` while it is
      up, all of the current sequence. */
  lemma QueueShape(s: State)
    requires QueueInv(s) && s.section.Free?
    ensures forall i :: 0 <= i < |s.mem.queue| ==>
              && s.mem.queue[i].sequence == s.mem.sequence
              && s.mem.queue[i].command ==
                 if s.mem.fingerDown
                 then if i == 0 && IsEdge(s.mem.queue[i]) then CMD_FINGER_DOWN else CMD_LIGHT_AREA_STABLE
                 else if i == 0 && IsEdge(s.mem.queue[i]) then CMD_FINGER_UP else CMD_LIGHT_AREA_CLOSE
  {
    forall i | 0 <= i < |s.mem.queue|
      ensures OfPress(s.mem.queue[i]) == s.mem.fingerDown && OfLift(s.mem.queue[i]) == !s.mem.fingerDown
      ensures IsEdge(s.mem.queue[i]) ==> i == 0
    {
      QueuedCommand(s, i);
    }
  }

  /** In a reachable state the worker drops and skips nothing: it sends the head of the queue. */
  lemma WorkerIsFifo(s: State)
    requires QueueInv(s) && s.section.Free? && s.mem.queue != []
    ensures Work(s.mem) == Send(s.mem.(queue := s.mem.queue[1..]), s.mem.queue[0])
  {
    QueuedCommand(s, 0);
  }

  lemma WorkerKeepsInv(s: State)
    requires Inv(s) && Enabled(s, WorkerPass)
    ensures Inv(Next(s, WorkerPass))
  {
    WorkerIsFifo(s);
    QueuedCommand(s, 0);
    if |s.mem.queue| > 1 { QueuedCommand(s, 1); }
    var s' := Next(s, WorkerPass);
    assert s'.mem.sent + s'.mem.queue == s.mem.sent + s.mem.queue;
    assert BudgetInv(s') && ServedInv(s');
  }

  lemma PressAndLiftKeepInv(s: State, a: Action)
    requires Inv(s) && Enabled(s, a)
    requires a.BeginPress? || a.MarkPress? || a.EndPress? || a.BeginLift? || a.MarkLift? || a.EndLift?
    ensures Inv(Next(s, a))
  {
    var s' := Next(s, a);
    match a
    case EndPress =>
      var c := Command(s.mem.sequence, CMD_FINGER_DOWN);
      RestartKeepsChain(s, c);
      assert (s'.mem.sent + s'.mem.queue)[|s'.mem.sent|] == c;
    case EndLift =>
      var c := Command(s.mem.sequence, CMD_FINGER_UP);
      RestartKeepsChain(s, c);
      assert (s'.mem.sent + s'.mem.queue)[|s'.mem.sent|] == c;
    case _ =>
  }

  // A step that leaves the queue, the histories, the counter and the finger alone.
  lemma QuietKeepsQueue(s: State, s': State)
    requires QueueInv(s) && HbmInv(s) && s'.section == s.section
    requires s'.mem.sent == s.mem.sent && s'.mem.queue == s.mem.queue && s'.mem.hbm == s.mem.hbm
    requires s'.mem.sequence == s.mem.sequence && s'.mem.fingerDown == s.mem.fingerDown
    ensures QueueInv(s') && HbmInv(s')
  {
  }

  lemma WatcherKeepsBudget(s: State)
    requires BudgetInv(s) && Enabled(s, WatcherStep)
    ensures BudgetInv(Next(s, WatcherStep))
  {
  }

  lemma WatcherKeepsServed(s: State)
    requires ServedInv(s) && Enabled(s, WatcherStep)
    ensures ServedInv(Next(s, WatcherStep))
  {
  }

  lemma WatcherKeepsQueue(s: State)
    requires QueueInv(s) && HbmInv(s) && Enabled(s, WatcherStep)
    ensures QueueInv(Next(s, WatcherStep)) && HbmInv(Next(s, WatcherStep))
  {
    var s' := Next(s, WatcherStep);
    if s.watcher.QueueStable? {
      EnqueueKeepsQueue(s, CMD_LIGHT_AREA_STABLE, s.watcher.sequence, s');
    } else if s.watcher.QueueClose? {
      EnqueueKeepsQueue(s, CMD_LIGHT_AREA_CLOSE, s.watcher.sequence, s');
    } else {
      QuietKeepsQueue(s, s');
    }
  }

  lemma WatcherKeepsInv(s: State)
    requires Inv(s) && Enabled(s, WatcherStep)
    ensures Inv(Next(s, WatcherStep))
  {
    WatcherKeepsBudget(s);
    WatcherKeepsServed(s);
    WatcherKeepsQueue(s);
  }

  lemma WaiterKeepsBudget(s: State, k: nat)
    requires BudgetInv(s) && ServedInv(s) && Enabled(s, WaiterStep(k))
    ensures BudgetInv(Next(s, WaiterStep(k))) && ServedInv(Next(s, WaiterStep(k)))
  {
  }

  lemma WaiterKeepsInv(s: State, k: nat)
    requires Inv(s) && Enabled(s, WaiterStep(k))
    ensures Inv(Next(s, WaiterStep(k)))
  {
    var s' := Next(s, WaiterStep(k));
    WaiterKeepsBudget(s, k);
    if s.waiters[k].QueueOwn? {
      EnqueueKeepsQueue(s, CMD_LIGHT_AREA_STABLE, k, s');
    } else {
      QuietKeepsQueue(s, s');
    }
  }

  lemma NextKeepsInv(s: State, a: Action)
    requires Inv(s) && Enabled(s, a)
    ensures Inv(Next(s, a))
  {
    match a
    case WorkerPass => WorkerKeepsInv(s);
    case SpotPolled(_) =>
    case WatcherStep => WatcherKeepsInv(s);
    case WaiterStep(k) => WaiterKeepsInv(s, k);
    case _ => PressAndLiftKeepInv(s, a);
  }

  lemma {:induction false} RunKeepsInv(states: seq<State>, actions: seq<Action>, i: nat)
    requires IsRun(states, actions) && i < |states|
    ensures Inv(states[i])
  {
    if i > 0 {
      RunKeepsInv(states, actions, i - 1);
      NextKeepsInv(states[i - 1], actions[i - 1]);
    }
  }
}
