/** An output stream over a device port: its two frame counters, the requests of the audio framework,
    and the positions it reports. Wherever the source gives up the stream's mutex, other threads may run
    the stream's other operations and the port's callbacks. */
module OutputStream {
  import opened Arithmetic
  import opened AudioSession
  import opened Options
  import opened AudioParams
  import opened PortProtocol
  import opened DevicePort

  const EIO := -5
  const EBUSY := -16
  const EINVAL := -22

  const MINIMUM_DELAY_MS := 50
  const MAXIMUM_DELAY_MS := 1000
  const EXTRA_AUDIO_SYNC_MS := 200
  const WORD := 0x1_0000_0000

  const SUP_SAMPLING_RATES := "sup_sampling_rates"
  const SUP_CHANNELS := "sup_channels"
  const SUP_FORMATS := "sup_formats"
  const CLOSING := "closing"
  const EXITING := "exiting"
  const A2DP_SUSPENDED := "A2dpSuspended"

  // What the port's GetPresentationPosition returns.
  datatype Report = Report(ok: bool, delayNs: nat, bytes: nat)

  datatype Counters = Counters(rendered: nat, presented: nat)

  function Minus(a: nat, b: nat): nat { if a > b then a - b else 0 }

  // A reported delay counts only strictly between 50 and 1000 ms.
  function DelayMs(framesCount: nat, sampleRate: nat, report: Report): nat
    requires sampleRate > 0
  {
    var ms := report.delayNs / 1_000_000;
    if report.ok && MINIMUM_DELAY_MS < ms < MAXIMUM_DELAY_MS then ms
    else framesCount * 1000 / sampleRate + EXTRA_AUDIO_SYNC_MS
  }

  /** In nanoseconds: a report counts from 51 ms up to, not including, 1000 ms. Without one the delay is
      that of the stream's buffer and 200 ms more. */
  lemma DelayWindow(framesCount: nat, sampleRate: nat, report: Report)
    requires sampleRate > 0
    ensures DelayMs(framesCount, sampleRate, report) ==
            if report.ok && 51_000_000 <= report.delayNs < 1_000_000_000 then report.delayNs / 1_000_000
            else framesCount * 1000 / sampleRate + 200
  {}

  // ----- what a write counts -----

  // Every frame of the buffer, as soon as one byte of it was taken.
  function FramesCounted(bytes: nat, total: nat, frameSize: nat): nat
    requires frameSize > 0
  {
    if total > 0 then bytes / frameSize else 0
  }

  /** Never fewer frames are counted than were taken, and the count is right exactly when nothing was
      taken or what was left out belongs to an incomplete last frame. For a buffer of whole frames: exactly when
      nothing or all was taken. */
  lemma CountIsRight(bytes: nat, total: nat, frameSize: nat)
    requires total <= bytes && frameSize > 0
    ensures FramesCounted(bytes, total, frameSize) >= total / frameSize
    ensures FramesCounted(bytes, total, frameSize) == total / frameSize <==>
            total == 0 || total + bytes % frameSize >= bytes
    ensures bytes % frameSize == 0 ==>
      (FramesCounted(bytes, total, frameSize) == total / frameSize <==> total == 0 || total == bytes)
  {
    var q, r := bytes / frameSize, bytes % frameSize;
    var p, t := total / frameSize, total % frameSize;
    assert bytes == q * frameSize + r && total == p * frameSize + t;
    DivideMonotone(total, bytes, frameSize);
    if p < q { MultiplyMonotone(frameSize, p + 1, q); }
  }

  // A write of two frames of four bytes of which one was taken counts both.
  lemma CountsTooMany()
    ensures FramesCounted(8, 4, 4) == 2 && 4 / 4 == 1
  {}

  // ----- parameters -----

  predicate Reloads(m: map<string, string>) {
    SUP_SAMPLING_RATES in m || SUP_CHANNELS in m || SUP_FORMATS in m
  }

  predicate Suspends(m: map<string, string>) { A2DP_SUSPENDED in m && m[A2DP_SUSPENDED] == "true" }

  predicate Unsuspends(m: map<string, string>) { A2DP_SUSPENDED in m && m[A2DP_SUSPENDED] != "true" }

  predicate Closes(m: map<string, string>) { CLOSING in m && m[CLOSING] == "true" }

  predicate Exits(m: map<string, string>) { EXITING in m && m[EXITING] == "1" }

  /** The settings that count, as they are spelt. */
  lemma Spelling(m: map<string, string>)
    ensures Suspends(m) <==> "A2dpSuspended" in m && m["A2dpSuspended"] == "true"
    ensures Unsuspends(m) <==> "A2dpSuspended" in m && m["A2dpSuspended"] != "true"
    ensures Closes(m) <==> "closing" in m && m["closing"] == "true"
    ensures Exits(m) <==> "exiting" in m && m["exiting"] == "1"
    ensures Reloads(m) <==> "sup_sampling_rates" in m || "sup_channels" in m || "sup_formats" in m
  {}

  // The port's state and the counters after the part of a parameter string that suspends A2DP.
  function AfterSuspension(s: StreamState, c: Counters, m: map<string, string>, a2dp: bool): (StreamState, Counters) {
    if a2dp && Suspends(m) then (DISABLED, c.(rendered := 0))
    else if a2dp && Unsuspends(m) && s == DISABLED then (STANDBY, c)
    else (s, c)
  }

  // And after the parts that close and exit the stream.
  function AfterStop(s: StreamState, c: Counters, m: map<string, string>): (StreamState, Counters) {
    if (Closes(m) || Exits(m)) && s != DISABLED then (DISABLED, Counters(0, 0)) else (s, c)
  }

  function Parameterised(s: StreamState, c: Counters, m: map<string, string>, a2dp: bool): (StreamState, Counters) {
    var (s, c) := AfterSuspension(s, c, m, a2dp);
    AfterStop(s, c, m)
  }

  /** A parameter string leaves the port disabled exactly when it closes or exits the stream, suspends
      an A2DP port, or finds the port disabled and does not un-suspend A2DP. The rendered frames are
      reset by each of these that finds the port enabled, and by every suspension; the presented frames
      only by closing and exiting, and not by a string that suspends first. */
  lemma DisabledByParameters(s: StreamState, c: Counters, m: map<string, string>, a2dp: bool)
    ensures Parameterised(s, c, m, a2dp).0 == DISABLED <==>
            || Closes(m) || Exits(m) || (a2dp && Suspends(m))
            || (s == DISABLED && !(a2dp && Unsuspends(m)))
    ensures s == DISABLED && !a2dp ==> Parameterised(s, c, m, a2dp) == (s, c)
    ensures Parameterised(s, c, m, a2dp).1.rendered ==
            if (a2dp && Suspends(m)) || ((Closes(m) || Exits(m)) && (s != DISABLED || (a2dp && Unsuspends(m)))) then 0
            else c.rendered
    ensures Parameterised(s, c, m, a2dp).1.presented ==
            if (Closes(m) || Exits(m)) && !(a2dp && Suspends(m)) && (s != DISABLED || (a2dp && Unsuspends(m))) then 0
            else c.presented
  {}

  /** Of two settings in one string the later one counts: behind any other string, an un-suspension
      brings a disabled A2DP port back to standby unless that string closes or exits the stream. */
  lemma LastSettingCounts(first: string, value: string, c: Counters)
    requires Clean(value) && value != "true"
    ensures var m := Parse(first + ";" + (A2DP_SUSPENDED + "=" + value));
            Parameterised(DISABLED, c, m, true).0 == STANDBY <==> !Closes(Parse(first)) && !Exits(Parse(first))
  {
    ParseConcatenated(first, A2DP_SUSPENDED + "=" + value);
    CleanKey();
    ParseOnePair(A2DP_SUSPENDED, value);
    SettingOverrides(Parse(first), value, c);
  }

  lemma CleanKey()
    ensures A2DP_SUSPENDED != "" && Clean(A2DP_SUSPENDED)
  {}

  lemma SettingOverrides(m: map<string, string>, value: string, c: Counters)
    requires value != "true"
    ensures Parameterised(DISABLED, c, m + map[A2DP_SUSPENDED := value], true).0 == STANDBY <==> !Closes(m) && !Exits(m)
  {
    assert |CLOSING| == 7 && |EXITING| == 7 && |A2DP_SUSPENDED| == 13;
  }

  class BluetoothStreamOut {
    const port: BluetoothAudioPortAidl
    var sampleRate: nat
    var framesCount: nat
    var framesRendered: nat     // written since the last standby
    var framesPresented: nat    // written since the stream was opened or closed by a parameter

    ghost predicate Valid()
      reads this, port
    {
      port.InUse() && sampleRate > 0 && framesRendered <= framesPresented
    }

    ghost function View(): Counters
      reads this
    {
      Counters(framesRendered, framesPresented)
    }

    // A disabled port that A2dpSuspended does not concern.
    ghost predicate Stuck()
      reads this, port
    {
      port.state == DISABLED && !port.IsA2dp()
    }

    constructor (port: BluetoothAudioPortAidl, sampleRate: nat, intervalUs: nat)
      requires port.InUse() && sampleRate > 0
      ensures Valid() && this.port == port && View() == Counters(0, 0)
      ensures this.sampleRate == sampleRate && framesCount == intervalUs * sampleRate / 1_000_000
    {
      this.port, this.sampleRate := port, sampleRate;
      framesCount := intervalUs * sampleRate / 1_000_000;
      framesRendered, framesPresented := 0, 0;
    }

    // ----- positions -----

    /** The stack's counter is believed only if it lies within the latency below the stream's own; the
        latency is then taken off. So the reported position lags what was written by one to two
        latencies. */
    method CalculateFeedingDelay(report: Report, frameSize: nat) returns (latencyMs: nat, frames: nat)
      requires Valid() && frameSize > 0
      ensures latencyMs == DelayMs(framesCount, sampleRate, report) % WORD
      ensures var latency := DelayMs(framesCount, sampleRate, report) * sampleRate / 1000;
              var counted := report.bytes / frameSize;
              && frames == Minus(if framesPresented - latency <= counted <= framesPresented then counted
                                 else framesPresented, latency)
              && Minus(framesPresented, 2 * latency) <= frames <= Minus(framesPresented, latency)
    {
      var delayReportMs := 0;
      var fetched := false;
      if report.ok {
        delayReportMs := report.delayNs / 1_000_000;
        if delayReportMs > MINIMUM_DELAY_MS && delayReportMs < MAXIMUM_DELAY_MS {
          fetched := true;
        }
      }
      if !fetched {
        delayReportMs := framesCount * 1000 / sampleRate + EXTRA_AUDIO_SYNC_MS;
      }
      latencyMs := delayReportMs % WORD;
      var latencyFrames := delayReportMs * sampleRate / 1000;
      frames := report.bytes / frameSize;
      if framesPresented < frames {
        frames := framesPresented;
      } else if framesPresented - frames > latencyFrames {
        frames := framesPresented;
      }
      if frames > latencyFrames {
        frames := frames - latencyFrames;
      } else {
        frames := 0;
      }
    }

    method GetRenderPosition(report: Report, frameSize: nat) returns (dspFrames: nat)
      requires Valid() && frameSize > 0
      ensures dspFrames <= framesRendered <= framesPresented
      ensures dspFrames ==
              Minus(framesRendered, DelayMs(framesCount, sampleRate, report) % WORD * sampleRate / 1000) % WORD
    {
      var latencyMs, _ := CalculateFeedingDelay(report, frameSize);
      var latencyFrames := latencyMs * sampleRate / 1000;
      if framesRendered >= latencyFrames {
        dspFrames := (framesRendered - latencyFrames) % WORD;
      } else {
        dspFrames := 0;
      }
    }

    // ----- requests -----

    method Standby(accepted: bool) returns (retval: int)
      requires Valid()
      modifies this`framesRendered, port`state, port`callbacks
      ensures Valid() && framesPresented == old(framesPresented)
      ensures old(port.state) == STARTED ==>
        framesRendered == 0 && (retval == 0 || retval == EIO) && (retval == 0 ==> port.state == STANDBY)
      ensures old(port.state) != STARTED ==>
        && View() == old(View()) && port.state == old(port.state)
        && retval == if old(port.state) == STARTING || old(port.state) == SUSPENDING then EBUSY else 0
    {
      retval := 0;
      if port.state == STARTED {
        framesRendered := 0;
        var ok := port.Suspend(accepted);
        retval := if ok then 0 else EIO;
      } else if port.state == STARTING || port.state == SUSPENDING {
        retval := EBUSY;
      }
    }

    // out_pause repeats out_standby.
    method Pause(accepted: bool) returns (retval: int)
      requires Valid()
      modifies this`framesRendered, port`state, port`callbacks
      ensures Valid() && framesPresented == old(framesPresented)
      ensures old(port.state) == STARTED ==>
        framesRendered == 0 && (retval == 0 || retval == EIO) && (retval == 0 ==> port.state == STANDBY)
      ensures old(port.state) != STARTED ==>
        && View() == old(View()) && port.state == old(port.state)
        && retval == if old(port.state) == STARTING || old(port.state) == SUSPENDING then EBUSY else 0
    {
      retval := Standby(accepted);
    }

    method Resume(accepted: bool) returns (retval: int)
      requires Valid()
      modifies port`state, port`callbacks
      ensures Valid()
      ensures retval == 0 ==> port.state == STARTED
      ensures old(port.state) == STANDBY ==> retval == 0 || retval == EIO
      ensures old(port.state) != STANDBY ==>
        && port.state == old(port.state)
        && retval == if port.state == STARTED then 0 else if port.state == DISABLED then EINVAL else EBUSY
    {
      retval := 0;
      if port.state == STANDBY {
        var ok := port.Start(accepted);
        retval := if ok then 0 else EIO;
      } else if port.state == STARTING || port.state == SUSPENDING {
        retval := EBUSY;
      } else if port.state == DISABLED {
        retval := EINVAL;
      }
    }

    /** `loaded` is the sample rate that LoadAudioConfig would give. */
    method SetParameters(kvpairs: string, loaded: Option<nat>, accepted: bool)
      requires Valid() && (loaded.Some? ==> loaded.value > 0)
      modifies this`sampleRate, this`framesRendered, this`framesPresented, port`state, port`callbacks
      ensures Valid()
      ensures (port.state, View()) == Parameterised(old(port.state), old(View()), Parse(kvpairs), port.IsA2dp())
      ensures sampleRate == if Reloads(Parse(kvpairs)) && loaded.Some? then loaded.value else old(sampleRate)
    {
      var params := ParseAudioParams(kvpairs);
      if |params| == 0 { return; }
      Reload(params, loaded);
      SetSuspension(params, accepted);
      SetStop(params);
    }

    method Reload(params: map<string, string>, loaded: Option<nat>)
      requires Valid() && (loaded.Some? ==> loaded.value > 0)
      modifies this`sampleRate
      ensures Valid() && sampleRate == if Reloads(params) && loaded.Some? then loaded.value else old(sampleRate)
    {
      if (SUP_SAMPLING_RATES in params || SUP_CHANNELS in params || SUP_FORMATS in params) && loaded.Some? {
        sampleRate := loaded.value;
      }
    }

    method SetSuspension(params: map<string, string>, accepted: bool)
      requires Valid()
      modifies this`framesRendered, port`state, port`callbacks
      ensures Valid()
      ensures (port.state, View()) == AfterSuspension(old(port.state), old(View()), params, port.IsA2dp())
    {
      if A2DP_SUSPENDED in params && port.IsA2dp() {
        SuspendA2dp(params[A2DP_SUSPENDED] == "true", accepted);
      }
    }

    method SetStop(params: map<string, string>)
      requires Valid()
      modifies this`framesRendered, this`framesPresented, port`state
      ensures Valid()
      ensures (port.state, View()) == AfterStop(old(port.state), old(View()), params)
    {
      if CLOSING in params && params[CLOSING] == "true" { StopCounting(); }
      if EXITING in params && params[EXITING] == "1" { StopCounting(); }
    }

    method SuspendA2dp(suspend: bool, accepted: bool)
      requires Valid()
      modifies this`framesRendered, port`state, port`callbacks
      ensures Valid()
      ensures (port.state, View()) ==
              if suspend then (DISABLED, old(View()).(rendered := 0))
              else if old(port.state) == DISABLED then (STANDBY, old(View()))
              else (old(port.state), old(View()))
    {
      if suspend {
        framesRendered := 0;
        if port.state == STARTED {
          var _ := port.Suspend(accepted);
          port.SetState(DISABLED);
        } else if port.state != DISABLED {
          port.Stop();
        }
      } else {
        if port.state == DISABLED { port.SetState(STANDBY); }
      }
    }

    method StopCounting()
      requires Valid()
      modifies this`framesRendered, this`framesPresented, port`state
      ensures Valid() && port.state == DISABLED
      ensures View() == if old(port.state) == DISABLED then old(View()) else Counters(0, 0)
    {
      if port.state != DISABLED {
        framesRendered := 0;
        framesPresented := 0;
        port.Stop();
      }
    }

    // ----- writing, with the mutex given up on the way -----

    // The end of a write that handed over `total` of its bytes.
    method CountFrames(bytes: nat, total: nat, frameSize: nat)
      requires Valid() && frameSize > 0 && total <= bytes
      modifies this`framesRendered, this`framesPresented
      ensures Valid()
      ensures var frames := FramesCounted(bytes, total, frameSize);
              View() == Counters(old(framesRendered) + frames, old(framesPresented) + frames)
    {
      if total != 0 {
        var frames := bytes / frameSize;
        framesRendered := framesRendered + frames;
        framesPresented := framesPresented + frames;
      }
    }

    // What happens to a disabled port that A2dpSuspended does not concern: it stays that, and its counters
    // move only by what writes already under way still count.
    twostate predicate Kept(writers: bool)
      reads this, port
    {
      old(Stuck()) ==>
        && Stuck() && framesRendered >= old(framesRendered)
        && framesPresented - old(framesPresented) == framesRendered - old(framesRendered)
        && (!writers ==> View() == old(View()))
    }

    method OtherCallback()
      requires Valid()
      modifies port`state, port`callbacks
      ensures Valid() && Kept(false)
    {
      var addressee: nat := *;
      var c: Callback := *;
      assert port.callbacks[|port.callbacks|..] == [];
      port.CallBack(addressee, c, port.state, port.callbacks);
    }

    method OtherSetting()
      requires Valid()
      modifies this`sampleRate, this`framesRendered, this`framesPresented, port`state, port`callbacks
      ensures Valid() && Kept(false)
    {
      var kvpairs: string := *;
      var accepted: bool := *;
      var rate: nat :| rate > 0;
      ghost var m, c := Parse(kvpairs), View();
      SetParameters(kvpairs, Some(rate), accepted);
      DisabledByParameters(old(port.state), c, m, port.IsA2dp());
    }

    method OtherRequest()
      requires Valid()
      modifies this`framesRendered, port`state, port`callbacks
      ensures Valid() && Kept(false)
    {
      var accepted: bool := *;
      if {
        case true => var _ := Standby(accepted);
        case true => var _ := Pause(accepted);
        case true => var _ := Resume(accepted);
      }
    }

    // One thing that another thread does while the stream's mutex is free: `writers` says whether other
    // writes may be under way.
    method Other(writers: bool)
      requires Valid()
      modifies this`sampleRate, this`framesRendered, this`framesPresented, port`state, port`callbacks
      ensures Valid() && Kept(writers)
    {
      if {
        case true => OtherCallback();
        case true => OtherSetting();
        case true => OtherRequest();
        case writers =>
          var bytes: nat, total: nat, frameSize: nat :| total <= bytes && frameSize > 0;
          CountFrames(bytes, total, frameSize);
      }
    }

    // Any number of such things.
    method Others(writers: bool)
      requires Valid()
      modifies this`sampleRate, this`framesRendered, this`framesPresented, port`state, port`callbacks
      ensures Valid() && Kept(writers)
    {
      var n: nat :| true;
      for i := 0 to n
        invariant Valid() && Kept(writers)
      {
        Other(writers);
      }
    }

    /** `counted` is what the counters were when the data had been handed over, if it came to that; both
        then grow by the frames counted. A stuck port swallows all that it is given: this write counts
        nothing, and unless others are under way the counters are as they were. */
    method Write(bytes: nat, frameSize: nat, accepted: bool, writers: bool)
        returns (total: nat, ghost counted: Option<Counters>)
      requires Valid() && frameSize > 0
      modifies this`sampleRate, this`framesRendered, this`framesPresented, port`state, port`callbacks
      ensures Valid() && total <= bytes
      ensures counted.Some? ==>
        var frames := FramesCounted(bytes, total, frameSize);
        View() == Counters(counted.value.rendered + frames, counted.value.presented + frames)
      ensures counted.None? ==> total == 0 || total == bytes
      ensures Kept(writers) && (old(Stuck()) ==> total == bytes && counted.None?)
    {
      total, counted := 0, None;
      if port.state != STARTED {
        Others(writers);
        var retval := Resume(accepted);
        if retval != 0 {
          Others(writers);
          if port.state == DISABLED { total := bytes; }
          return;
        }
      }
      Others(writers);
      total :| total <= bytes;
      Others(writers);
      counted := Some(View());
      CountFrames(bytes, total, frameSize);
    }

    /** Closing resets both counters, as stopping by a parameter does, and gives the cookie back. */
    method Close(session: BluetoothAudioSession)
      requires Valid() && session.sessionType == port.sessionType
      modifies this`framesRendered, this`framesPresented, port`state, port`cookie, session`observers
      ensures port.state == DISABLED && !port.InUse() && framesRendered <= framesPresented
      ensures View() == if old(port.state) == DISABLED then old(View()) else Counters(0, 0)
      ensures session.observers == old(session.observers) - {old(port.cookie)}
    {
      StopCounting();
      port.TearDown(session);
    }
  }
}
