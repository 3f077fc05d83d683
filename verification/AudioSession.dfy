/** One AIDL Bluetooth audio session: the Bluetooth stack starts and ends it, audio ports observe it.
    The functions on `Session` say what each call does; the class runs the calls on its own fields. */
module AudioSession {
  import opened Options

  datatype SessionType =
    | UNKNOWN
    | A2DP_SOFTWARE_ENCODING_DATAPATH
    | A2DP_HARDWARE_OFFLOAD_ENCODING_DATAPATH
    | HEARING_AID_SOFTWARE_ENCODING_DATAPATH
    | LE_AUDIO_SOFTWARE_ENCODING_DATAPATH
    | LE_AUDIO_SOFTWARE_DECODING_DATAPATH
    | LE_AUDIO_HARDWARE_OFFLOAD_ENCODING_DATAPATH
    | LE_AUDIO_HARDWARE_OFFLOAD_DECODING_DATAPATH
    | LE_AUDIO_BROADCAST_SOFTWARE_ENCODING_DATAPATH
    | LE_AUDIO_BROADCAST_HARDWARE_OFFLOAD_ENCODING_DATAPATH
    | A2DP_SOFTWARE_DECODING_DATAPATH
    | A2DP_HARDWARE_OFFLOAD_DECODING_DATAPATH
    | HFP_SOFTWARE_ENCODING_DATAPATH
    | HFP_SOFTWARE_DECODING_DATAPATH
    | HFP_HARDWARE_OFFLOAD_DATAPATH

  datatype Tag = pcmConfig | a2dpConfig | a2dp | hfpConfig | leAudioConfig | leAudioBroadcastConfig

  datatype AudioConfiguration = AudioConfiguration(tag: Tag, value: int)  // 0: default values

  // A data queue descriptor as the stack passes it: null, or one that opens a queue or does not.
  datatype MqDesc = NoQueue | InvalidQueue | ValidQueue(id: nat)

  // An observer, and whether it has set its audio_configuration_changed_cb_; session_changed_cb_ is
  // always set.
  datatype Callbacks = Callbacks(observer: nat, wantsConfiguration: bool)

  // ----- cookies -----

  const OBSERVERS_COOKIE_SIZE := 16

  // The values of the AIDL enumeration.
  function FromNumber(n: nat): Option<SessionType> {
    if n == 0 then Some(UNKNOWN)
    else if n == 1 then Some(A2DP_SOFTWARE_ENCODING_DATAPATH)
    else if n == 2 then Some(A2DP_HARDWARE_OFFLOAD_ENCODING_DATAPATH)
    else if n == 3 then Some(HEARING_AID_SOFTWARE_ENCODING_DATAPATH)
    else if n == 4 then Some(LE_AUDIO_SOFTWARE_ENCODING_DATAPATH)
    else if n == 5 then Some(LE_AUDIO_SOFTWARE_DECODING_DATAPATH)
    else if n == 6 then Some(LE_AUDIO_HARDWARE_OFFLOAD_ENCODING_DATAPATH)
    else if n == 7 then Some(LE_AUDIO_HARDWARE_OFFLOAD_DECODING_DATAPATH)
    else if n == 8 then Some(LE_AUDIO_BROADCAST_SOFTWARE_ENCODING_DATAPATH)
    else if n == 9 then Some(LE_AUDIO_BROADCAST_HARDWARE_OFFLOAD_ENCODING_DATAPATH)
    else if n == 10 then Some(A2DP_SOFTWARE_DECODING_DATAPATH)
    else if n == 11 then Some(A2DP_HARDWARE_OFFLOAD_DECODING_DATAPATH)
    else if n == 12 then Some(HFP_SOFTWARE_ENCODING_DATAPATH)
    else if n == 13 then Some(HFP_SOFTWARE_DECODING_DATAPATH)
    else if n == 14 then Some(HFP_HARDWARE_OFFLOAD_DATAPATH)
    else None
  }

  function Number(t: SessionType): (n: nat)
    ensures n < 15 && FromNumber(n) == Some(t) && (n == 0 <==> t == UNKNOWN)
  {
    match t
    case UNKNOWN => 0
    case A2DP_SOFTWARE_ENCODING_DATAPATH => 1
    case A2DP_HARDWARE_OFFLOAD_ENCODING_DATAPATH => 2
    case HEARING_AID_SOFTWARE_ENCODING_DATAPATH => 3
    case LE_AUDIO_SOFTWARE_ENCODING_DATAPATH => 4
    case LE_AUDIO_SOFTWARE_DECODING_DATAPATH => 5
    case LE_AUDIO_HARDWARE_OFFLOAD_ENCODING_DATAPATH => 6
    case LE_AUDIO_HARDWARE_OFFLOAD_DECODING_DATAPATH => 7
    case LE_AUDIO_BROADCAST_SOFTWARE_ENCODING_DATAPATH => 8
    case LE_AUDIO_BROADCAST_HARDWARE_OFFLOAD_ENCODING_DATAPATH => 9
    case A2DP_SOFTWARE_DECODING_DATAPATH => 10
    case A2DP_HARDWARE_OFFLOAD_DECODING_DATAPATH => 11
    case HFP_SOFTWARE_ENCODING_DATAPATH => 12
    case HFP_SOFTWARE_DECODING_DATAPATH => 13
    case HFP_HARDWARE_OFFLOAD_DATAPATH => 14
  }

  // The type number, shifted by a byte within 16 bits.
  function InitValue(t: SessionType): nat { Shifted(Number(t)) }

  function Shifted(n: nat): nat { n * 0x100 % 0x1_0000 }

  function UpperBound(t: SessionType): nat { InitValue(t) + OBSERVERS_COOKIE_SIZE }

  const UNDEFINED := InitValue(UNKNOWN)

  function CookieType(cookie: nat): Option<SessionType> { FromNumber(cookie / 0x100 % 0x100) }

  predicate InRange(t: SessionType, cookie: nat) { InitValue(t) <= cookie < UpperBound(t) }

  // What RegisterStatusCback returns.
  function Allotted(t: SessionType, observers: map<nat, Callbacks>): nat {
    var c := FirstFree(InitValue(t), UpperBound(t), observers);
    if c < UpperBound(t) then c else UNDEFINED
  }

  function FirstFree(cookie: nat, upper: nat, observers: map<nat, Callbacks>): (c: nat)
    requires cookie <= upper
    ensures cookie <= c <= upper
    ensures c < upper ==> c !in observers
    ensures forall k :: cookie <= k < c ==> k in observers
    decreases upper - cookie
  {
    if cookie == upper || cookie !in observers then cookie else FirstFree(cookie + 1, upper, observers)
  }

  lemma {:induction false} RangeSize(lo: nat, hi: nat) returns (range: set<nat>)
    requires lo <= hi
    ensures |range| == hi - lo && forall k: nat :: k in range <==> lo <= k < hi
    decreases hi - lo
  {
    if lo == hi {
      range := {};
    } else {
      var rest := RangeSize(lo + 1, hi);
      range := rest + {lo};
    }
  }

  lemma SubsetSize(a: set<nat>, b: set<nat>)
    requires a <= b
    ensures |a| <= |b| && (|a| == |b| ==> a == b)
  {
    assert |b - a| == |b| - |a|;
    if |a| == |b| { assert b - a == {}; }
  }

  lemma ShiftBack(n: nat, cookie: nat)
    requires n < 15 && Shifted(n) <= cookie < Shifted(n) + OBSERVERS_COOKIE_SIZE
    ensures cookie / 0x100 % 0x100 == n && (cookie == 0 ==> n == 0)
  {}

  /** A cookie decodes to the session type that handed it out, so no two sessions share one; only the
      unknown type's range holds "undefined". */
  lemma CookieDecodes(t: SessionType, cookie: nat, u: SessionType)
    requires InRange(t, cookie)
    ensures CookieType(cookie) == Some(t)
    ensures InRange(u, cookie) ==> u == t
    ensures cookie == UNDEFINED ==> t == UNKNOWN
  {
    ShiftBack(Number(t), cookie);
    if InRange(u, cookie) { ShiftBack(Number(u), cookie); }
  }

  /** At most 16 observers; a new one gets the least free cookie of the session, and "undefined" comes
      back exactly when all 16 are taken. */
  lemma CookiesRunOut(s: Session)
    requires Inv(s) && s.kind != UNKNOWN
    ensures |s.observers| <= OBSERVERS_COOKIE_SIZE
    ensures var c := Allotted(s.kind, s.observers);
            && (c == UNDEFINED <==> |s.observers| == OBSERVERS_COOKIE_SIZE)
            && (c == UNDEFINED <==> forall k :: InRange(s.kind, k) ==> k in s.observers)
            && (c != UNDEFINED ==>
                  && InRange(s.kind, c) && c !in s.observers
                  && forall k :: InRange(s.kind, k) && k !in s.observers ==> c <= k)
  {
    var range := RangeSize(InitValue(s.kind), UpperBound(s.kind));
    assert forall k :: k in s.observers.Keys ==> InRange(s.kind, k);
    SubsetSize(s.observers.Keys, range);
    var c := FirstFree(InitValue(s.kind), UpperBound(s.kind), s.observers);
    if c == UpperBound(s.kind) {
      assert range == s.observers.Keys;
    } else {
      CookieDecodes(s.kind, c, UNKNOWN);
      assert InRange(s.kind, c) && c in range;
    }
  }

  // ----- the session -----

  datatype Session = Session(
    kind: SessionType,
    stackIface: Option<nat>,
    dataMq: Option<nat>,
    audioConfig: Option<AudioConfiguration>,
    observers: map<nat, Callbacks>)

  // What UpdateAudioConfig lets in.
  predicate Legal(t: SessionType, tag: Tag) {
    match t
    case UNKNOWN => false
    case A2DP_HARDWARE_OFFLOAD_ENCODING_DATAPATH => tag == a2dp || tag == a2dpConfig
    case A2DP_HARDWARE_OFFLOAD_DECODING_DATAPATH => tag == a2dp || tag == a2dpConfig
    case HFP_HARDWARE_OFFLOAD_DATAPATH => tag == hfpConfig
    case LE_AUDIO_HARDWARE_OFFLOAD_ENCODING_DATAPATH => tag == leAudioConfig
    case LE_AUDIO_HARDWARE_OFFLOAD_DECODING_DATAPATH => tag == leAudioConfig
    case LE_AUDIO_BROADCAST_HARDWARE_OFFLOAD_ENCODING_DATAPATH => tag == leAudioBroadcastConfig
    case _ => tag == pcmConfig
  }

  predicate Hardware(t: SessionType) {
    || t.A2DP_HARDWARE_OFFLOAD_ENCODING_DATAPATH? || t.A2DP_HARDWARE_OFFLOAD_DECODING_DATAPATH?
    || t.HFP_HARDWARE_OFFLOAD_DATAPATH? || LeUnicastHardware(t)
    || t.LE_AUDIO_BROADCAST_HARDWARE_OFFLOAD_ENCODING_DATAPATH?
  }

  predicate LeUnicastHardware(t: SessionType) {
    t.LE_AUDIO_HARDWARE_OFFLOAD_ENCODING_DATAPATH? || t.LE_AUDIO_HARDWARE_OFFLOAD_DECODING_DATAPATH?
  }

  predicate Ready(s: Session) {
    s.stackIface.Some? && (Hardware(s.kind) || s.dataMq.Some?) && s.audioConfig.Some?
  }

  function GetAudioConfig(s: Session): AudioConfiguration {
    if Ready(s) then s.audioConfig.value
    else
      AudioConfiguration(
        match s.kind
        case A2DP_HARDWARE_OFFLOAD_ENCODING_DATAPATH => a2dpConfig
        case A2DP_HARDWARE_OFFLOAD_DECODING_DATAPATH => a2dpConfig
        case HFP_HARDWARE_OFFLOAD_DATAPATH => hfpConfig
        case LE_AUDIO_HARDWARE_OFFLOAD_ENCODING_DATAPATH => leAudioConfig
        case LE_AUDIO_HARDWARE_OFFLOAD_DECODING_DATAPATH => leAudioConfig
        case LE_AUDIO_BROADCAST_HARDWARE_OFFLOAD_ENCODING_DATAPATH => leAudioBroadcastConfig
        case _ => pcmConfig, 0)
  }

  datatype Call =
    | OnSessionStarted(iface: Option<nat>, mq: MqDesc, config: AudioConfiguration)
    | OnSessionEnded
    | ReportAudioConfigChanged(changed: AudioConfiguration)
    | RegisterStatusCback(callbacks: Callbacks)
    | UnregisterStatusCback(cookie: nat)

  // A start that passes all three checks.
  predicate Passes(s: Session, c: Call) {
    c.OnSessionStarted? && c.iface.Some? && Legal(s.kind, c.config.tag) && !c.mq.InvalidQueue?
  }

  // A start that is refused for its queue, after the configuration was taken.
  predicate LosesQueue(s: Session, c: Call) {
    c.OnSessionStarted? && c.iface.Some? && Legal(s.kind, c.config.tag) && c.mq.InvalidQueue?
  }

  predicate Reconfigures(s: Session, c: Call) {
    c.ReportAudioConfigChanged? && LeUnicastHardware(s.kind) && c.changed.tag == leAudioConfig
  }

  function Opened(mq: MqDesc): Option<nat> {
    if mq.ValidQueue? then Some(mq.id) else None
  }

  function Apply(s: Session, c: Call): Session {
    match c
    case OnSessionStarted(iface, mq, config) =>
      if Passes(s, c) then s.(stackIface := iface, dataMq := Opened(mq), audioConfig := Some(config))
      else if LosesQueue(s, c) then s.(dataMq := None, audioConfig := None)
      else s
    case OnSessionEnded => s.(stackIface := None, dataMq := None, audioConfig := None)
    case ReportAudioConfigChanged(config) =>
      if Reconfigures(s, c) then s.(audioConfig := Some(config)) else s
    case RegisterStatusCback(callbacks) =>
      var cookie := FirstFree(InitValue(s.kind), UpperBound(s.kind), s.observers);
      if cookie < UpperBound(s.kind) then s.(observers := s.observers[cookie := callbacks]) else s
    case UnregisterStatusCback(cookie) => s.(observers := s.observers - {cookie})
  }

  // The calls after which every observer's session_changed_cb_ is invoked.
  predicate Announces(s: Session, c: Call) {
    Passes(s, c) || (c.OnSessionEnded? && Ready(s))
  }

  // The observers whose audio_configuration_changed_cb_ is invoked instead when a configuration report
  // is taken.
  function Listeners(s: Session): set<nat> {
    set k | k in s.observers && s.observers[k].wantsConfiguration
  }

  // ----- every run -----

  function New(kind: SessionType): Session { Session(kind, None, None, None, map[]) }

  predicate Inv(s: Session) {
    && (s.audioConfig.Some? ==> Legal(s.kind, s.audioConfig.value.tag))
    && forall k :: k in s.observers ==> InRange(s.kind, k)
  }

  predicate IsRun(states: seq<Session>, calls: seq<Call>) {
    && |states| == |calls| + 1 && states[0] == New(states[0].kind)
    && forall i :: 0 <= i < |calls| ==> states[i + 1] == Apply(states[i], calls[i])
  }

  lemma ApplyKeepsInv(s: Session, c: Call)
    requires Inv(s)
    ensures Inv(Apply(s, c)) && Apply(s, c).kind == s.kind
  {}

  lemma {:induction false} RunKeepsInv(states: seq<Session>, calls: seq<Call>, i: nat)
    requires IsRun(states, calls) && i < |states|
    ensures Inv(states[i]) && states[i].kind == states[0].kind
  {
    if i > 0 {
      RunKeepsInv(states, calls, i - 1);
      ApplyKeepsInv(states[i - 1], calls[i - 1]);
    }
  }

  /** Whatever the stack and the ports call, a stored configuration and the one that GetAudioConfig
      returns have a tag that the session type allows. */
  lemma ConfigurationIsLegal(states: seq<Session>, calls: seq<Call>, i: nat)
    requires IsRun(states, calls) && i < |states| && states[0].kind != UNKNOWN
    ensures states[i].audioConfig.Some? ==> Legal(states[0].kind, states[i].audioConfig.value.tag)
    ensures Legal(states[0].kind, GetAudioConfig(states[i]).tag)
  {
    RunKeepsInv(states, calls, i);
  }

  /** A stack interface is there exactly because of the last start that passed all three checks, and
      no end came after it; so an ended session is not ready before another such start. */
  lemma {:induction false} ReadySinceStart(states: seq<Session>, calls: seq<Call>, j: nat)
    requires IsRun(states, calls) && j < |states|
    ensures Ready(states[j]) ==> states[j].stackIface.Some?
    ensures states[j].stackIface.Some? <==> exists k: nat :: StartedBy(states, calls, k, j)
    ensures forall k: nat :: StartedBy(states, calls, k, j) ==> states[j].stackIface == calls[k].iface
  {
    if j > 0 {
      ReadySinceStart(states, calls, j - 1);
      var c := calls[j - 1];
      assert Passes(states[j - 1], c) <==> StartedBy(states, calls, j - 1, j);
      assert forall k: nat :: StartedBy(states, calls, k, j) && k < j - 1 ==> StartedBy(states, calls, k, j - 1);
      if states[j].stackIface.Some? && !Passes(states[j - 1], c) {
        var k: nat :| StartedBy(states, calls, k, j - 1);
        assert StartedBy(states, calls, k, j);
      }
    }
  }

  // The start at k passed, and between it and state j the session was neither ended nor started anew.
  ghost predicate StartedBy(states: seq<Session>, calls: seq<Call>, k: nat, j: nat)
    requires |states| == |calls| + 1 && j < |states|
  {
    && k < j && Passes(states[k], calls[k])
    && forall i :: k < i < j ==> !calls[i].OnSessionEnded? && !Passes(states[i], calls[i])
  }

  // The call replaces or drops the configuration.
  predicate Resets(s: Session, c: Call) {
    c.OnSessionEnded? || Passes(s, c) || LosesQueue(s, c) || Reconfigures(s, c)
  }

  // The call at k, a passing start or a report taken, brought this configuration, and none since has
  // replaced or dropped it.
  ghost predicate ConfiguredBy(states: seq<Session>, calls: seq<Call>, k: nat, j: nat, v: AudioConfiguration)
    requires |states| == |calls| + 1 && j < |states|
  {
    && k < j
    && ((Passes(states[k], calls[k]) && calls[k].config == v) ||
        (Reconfigures(states[k], calls[k]) && calls[k].changed == v))
    && forall i :: k < i < j ==> !Resets(states[i], calls[i])
  }

  lemma ConfigurationMoves(s: Session, c: Call)
    ensures Apply(s, c).audioConfig ==
            if Passes(s, c) then Some(c.config)
            else if Reconfigures(s, c) then Some(c.changed)
            else if Resets(s, c) then None
            else s.audioConfig
  {}

  lemma {:induction false} ConfigurationHistory(states: seq<Session>, calls: seq<Call>, j: nat) returns (k: nat)
    requires IsRun(states, calls) && j < |states| && states[j].audioConfig.Some?
    ensures ConfiguredBy(states, calls, k, j, states[j].audioConfig.value)
  {
    k := j - 1;
    ConfigurationMoves(states[k], calls[k]);
    if !Passes(states[k], calls[k]) && !Reconfigures(states[k], calls[k]) {
      k := ConfigurationHistory(states, calls, j - 1);
    }
  }

  // The default of each type, in full.
  function DefaultTag(t: SessionType): (tag: Tag)
    ensures tag == a2dpConfig <==> Number(t) == 2 || Number(t) == 11
    ensures tag == hfpConfig <==> Number(t) == 14
    ensures tag == leAudioConfig <==> Number(t) == 6 || Number(t) == 7
    ensures tag == leAudioBroadcastConfig <==> Number(t) == 9
    ensures tag != a2dp
  {
    if t == A2DP_HARDWARE_OFFLOAD_ENCODING_DATAPATH || t == A2DP_HARDWARE_OFFLOAD_DECODING_DATAPATH then a2dpConfig
    else if t == HFP_HARDWARE_OFFLOAD_DATAPATH then hfpConfig
    else if t == LE_AUDIO_HARDWARE_OFFLOAD_ENCODING_DATAPATH || t == LE_AUDIO_HARDWARE_OFFLOAD_DECODING_DATAPATH
    then leAudioConfig
    else if t == LE_AUDIO_BROADCAST_HARDWARE_OFFLOAD_ENCODING_DATAPATH then leAudioBroadcastConfig
    else pcmConfig
  }

  /** A ready session hands out the configuration of its last passing start or of a report taken since; a
      session that is not ready, the default values of its type. */
  lemma ConfigurationIsTheLast(states: seq<Session>, calls: seq<Call>, j: nat)
    requires IsRun(states, calls) && j < |states|
    ensures Ready(states[j]) ==> exists k: nat :: ConfiguredBy(states, calls, k, j, GetAudioConfig(states[j]))
    ensures !Ready(states[j]) ==> GetAudioConfig(states[j]) == AudioConfiguration(DefaultTag(states[j].kind), 0)
  {
    if Ready(states[j]) {
      var k := ConfigurationHistory(states, calls, j);
      assert ConfiguredBy(states, calls, k, j, GetAudioConfig(states[j]));
    }
  }

  /** A legal tag is the default one of the type, or the other A2DP one for A2DP offload. */
  lemma LegalTags(t: SessionType, tag: Tag)
    requires t != UNKNOWN
    ensures Legal(t, tag) <==> tag == DefaultTag(t) || (tag == a2dp && DefaultTag(t) == a2dpConfig)
    ensures !Legal(UNKNOWN, tag)
  {}

  /** The types that need no queue are those whose default is not PCM. */
  lemma ReadyIff(s: Session)
    ensures Ready(s) <==>
            && s.stackIface.Some? && s.audioConfig.Some?
            && (s.dataMq.Some? || DefaultTag(s.kind) != pcmConfig)
  {}

  /** The four outcomes of a start; in all but the last nobody is told. */
  lemma StartOutcomes(s: Session, iface: Option<nat>, mq: MqDesc, config: AudioConfiguration)
    ensures var c := OnSessionStarted(iface, mq, config);
            var t := Apply(s, c);
            && t.kind == s.kind && t.observers == s.observers
            && (iface.None? || !Legal(s.kind, config.tag) ==> t == s && !Announces(s, c))
            && (iface.Some? && Legal(s.kind, config.tag) && mq == InvalidQueue ==>
                  t.stackIface == s.stackIface && t.dataMq == None && t.audioConfig == None && !Announces(s, c))
            && (iface.Some? && Legal(s.kind, config.tag) && mq != InvalidQueue ==>
                  && t.stackIface == iface && t.audioConfig == Some(config) && Announces(s, c)
                  && (mq == NoQueue ==> t.dataMq == None) && (mq.ValidQueue? ==> t.dataMq == Some(mq.id)))
    ensures iface.Some? && Legal(s.kind, config.tag) && mq != InvalidQueue ==>
              (Ready(Apply(s, OnSessionStarted(iface, mq, config))) <==>
               mq.ValidQueue? || DefaultTag(s.kind) != pcmConfig)
  {}

  /** An end leaves nothing behind, and is told exactly if it changed readiness; a report is told of to
      nobody's session_changed_cb_, and is taken by LE Audio unicast offload sessions only. */
  lemma OtherOutcomes(s: Session, config: AudioConfiguration)
    ensures var t := Apply(s, OnSessionEnded);
            && t == Session(s.kind, None, None, None, s.observers) && !Ready(t)
            && (Announces(s, OnSessionEnded) <==> Ready(s))
    ensures var c := ReportAudioConfigChanged(config);
            var taken := DefaultTag(s.kind) == leAudioConfig && config.tag == leAudioConfig;
            Apply(s, c) == (if taken then s.(audioConfig := Some(config)) else s) && !Announces(s, c)
  {}

  lemma NotReadyAfterEnd(states: seq<Session>, calls: seq<Call>, i: nat, j: nat)
    requires IsRun(states, calls) && i < j < |states| && calls[i].OnSessionEnded?
    requires forall k :: i < k < j ==> !Passes(states[k], calls[k])
    ensures !Ready(states[j])
  {
    ReadySinceStart(states, calls, j);
  }

  /** Readiness changes without any session_changed_cb_ in two cases and no others: a ready session is
      restarted with a queue that does not open, of which nobody is told, or a session left so gets a
      configuration report, of which only the listeners for configurations are told. */
  lemma SilentChanges(s: Session, c: Call)
    ensures Ready(s) != Ready(Apply(s, c)) && !Announces(s, c) <==>
            (LosesQueue(s, c) && Ready(s)) ||
            (Reconfigures(s, c) && s.stackIface.Some? && s.audioConfig.None?)
  {}

  // The second case only follows the first: a restart that lost its queue, with no end since.
  lemma {:induction false} ConfigLostBy(states: seq<Session>, calls: seq<Call>, j: nat) returns (k: nat)
    requires IsRun(states, calls) && j < |states|
    requires states[j].stackIface.Some? && states[j].audioConfig.None?
    ensures k < j && LosesQueue(states[k], calls[k]) && states[k].stackIface.Some?
    ensures forall i :: k < i < j ==> !calls[i].OnSessionEnded? && !Passes(states[i], calls[i])
  {
    k := j - 1;
    if !LosesQueue(states[k], calls[k]) {
      k := ConfigLostBy(states, calls, j - 1);
    }
  }

  // Both cases in one run of an LE Audio offload session: ready, not ready, ready again, and
  // session_changed_cb_ is invoked for the first of them only.
  lemma SilentlyLostAndRegained() returns (states: seq<Session>, calls: seq<Call>)
    ensures IsRun(states, calls) && |calls| == 3
    ensures Ready(states[1]) && !Ready(states[2]) && Ready(states[3])
    ensures Announces(states[0], calls[0])
    ensures !Announces(states[1], calls[1]) && !Announces(states[2], calls[2])
  {
    var config := AudioConfiguration(leAudioConfig, 1);
    calls := [OnSessionStarted(Some(1), NoQueue, config), OnSessionStarted(Some(1), InvalidQueue, config),
              ReportAudioConfigChanged(config)];
    var s0 := New(LE_AUDIO_HARDWARE_OFFLOAD_ENCODING_DATAPATH);
    var s1 := Apply(s0, calls[0]);
    var s2 := Apply(s1, calls[1]);
    states := [s0, s1, s2, Apply(s2, calls[2])];
  }

  // ----- the object -----

  class BluetoothAudioSession {
    const sessionType: SessionType
    var stackIface: Option<nat>
    var dataMq: Option<nat>
    var audioConfig: Option<AudioConfiguration>
    var observers: map<nat, Callbacks>
    ghost var told: multiset<nat>         // the cookies whose session_changed_cb_ was invoked
    ghost var toldConfig: multiset<nat>   // those whose audio_configuration_changed_cb_ was

    ghost function View(): Session
      reads this
    {
      Session(sessionType, stackIface, dataMq, audioConfig, observers)
    }

    constructor (sessionType: SessionType)
      ensures View() == New(sessionType) && told == multiset{} && toldConfig == multiset{}
    {
      this.sessionType := sessionType;
      stackIface, dataMq, audioConfig, observers := None, None, None, map[];
      told, toldConfig := multiset{}, multiset{};
    }

    method IsSessionReady() returns (ready: bool)
      ensures ready == Ready(View())
    {
      var isMqValid :=
        || sessionType == A2DP_HARDWARE_OFFLOAD_ENCODING_DATAPATH
        || sessionType == LE_AUDIO_HARDWARE_OFFLOAD_ENCODING_DATAPATH
        || sessionType == LE_AUDIO_HARDWARE_OFFLOAD_DECODING_DATAPATH
        || sessionType == LE_AUDIO_BROADCAST_HARDWARE_OFFLOAD_ENCODING_DATAPATH
        || sessionType == A2DP_HARDWARE_OFFLOAD_DECODING_DATAPATH
        || sessionType == HFP_HARDWARE_OFFLOAD_DATAPATH
        || dataMq.Some?;
      ready := stackIface.Some? && isMqValid && audioConfig.Some?;
    }

    method UpdateAudioConfig(config: AudioConfiguration) returns (ok: bool)
      modifies this`audioConfig
      ensures ok == Legal(sessionType, config.tag)
      ensures audioConfig == if ok then Some(config) else old(audioConfig)
    {
      var t := sessionType;
      var isSoftware :=
        || t == A2DP_SOFTWARE_ENCODING_DATAPATH || t == HEARING_AID_SOFTWARE_ENCODING_DATAPATH
        || t == HFP_SOFTWARE_ENCODING_DATAPATH || t == HFP_SOFTWARE_DECODING_DATAPATH
        || t == LE_AUDIO_SOFTWARE_DECODING_DATAPATH || t == LE_AUDIO_SOFTWARE_ENCODING_DATAPATH
        || t == LE_AUDIO_BROADCAST_SOFTWARE_ENCODING_DATAPATH || t == A2DP_SOFTWARE_DECODING_DATAPATH;
      var isA2dp :=
        t == A2DP_HARDWARE_OFFLOAD_ENCODING_DATAPATH || t == A2DP_HARDWARE_OFFLOAD_DECODING_DATAPATH;
      var isLeUnicast :=
        t == LE_AUDIO_HARDWARE_OFFLOAD_ENCODING_DATAPATH || t == LE_AUDIO_HARDWARE_OFFLOAD_DECODING_DATAPATH;
      ok :=
        || (isSoftware && config.tag == pcmConfig)
        || (isA2dp && (config.tag == a2dp || config.tag == a2dpConfig))
        || (t == HFP_HARDWARE_OFFLOAD_DATAPATH && config.tag == hfpConfig)
        || (isLeUnicast && config.tag == leAudioConfig)
        || (t == LE_AUDIO_BROADCAST_HARDWARE_OFFLOAD_ENCODING_DATAPATH && config.tag == leAudioBroadcastConfig);
      if ok { audioConfig := Some(config); }
    }

    method UpdateDataPath(mq: MqDesc) returns (ok: bool)
      modifies this`dataMq
      ensures ok == !mq.InvalidQueue? && dataMq == Opened(mq)
    {
      match mq
      case NoQueue => dataMq := None; ok := true;
      case InvalidQueue => dataMq := None; ok := false;
      case ValidQueue(id) => dataMq := Some(id); ok := true;
    }

    // Observers are told in any order, each of them once.
    method ReportSessionStatus()
      modifies this`told
      ensures told == old(told) + multiset(observers.Keys)
    {
      var left := observers.Keys;
      while left != {}
        invariant left <= observers.Keys
        invariant told == old(told) + multiset(observers.Keys - left)
        decreases |left|
      {
        var cookie :| cookie in left;
        told := told + multiset{cookie};
        assert observers.Keys - (left - {cookie}) == observers.Keys - left + {cookie};
        left := left - {cookie};
      }
      assert observers.Keys - left == observers.Keys;
    }

    method OnSessionStarted(iface: Option<nat>, mq: MqDesc, config: AudioConfiguration)
      modifies this
      ensures var c := Call.OnSessionStarted(iface, mq, config);
              && View() == Apply(old(View()), c)
              && told == old(told) + (if Announces(old(View()), c) then multiset(observers.Keys) else multiset{})
              && toldConfig == old(toldConfig)
    {
      if iface.None? { return; }
      var legal := UpdateAudioConfig(config);
      if !legal { return; }
      var valid := UpdateDataPath(mq);
      if !valid {
        audioConfig := None;
      } else {
        stackIface := iface;
        ReportSessionStatus();
      }
    }

    method OnSessionEnded()
      modifies this
      ensures var c := Call.OnSessionEnded;
              && View() == Apply(old(View()), c)
              && told == old(told) + (if Announces(old(View()), c) then multiset(observers.Keys) else multiset{})
              && toldConfig == old(toldConfig)
    {
      var toggled := IsSessionReady();
      audioConfig := None;
      stackIface := None;
      var _ := UpdateDataPath(NoQueue);
      if toggled { ReportSessionStatus(); }
    }

    method ReportAudioConfigChanged(config: AudioConfiguration)
      modifies this`audioConfig, this`toldConfig
      ensures var c := Call.ReportAudioConfigChanged(config);
              && View() == Apply(old(View()), c)
              && toldConfig == old(toldConfig) +
                   if Reconfigures(old(View()), c) then multiset(Listeners(View())) else multiset{}
    {
      if sessionType != LE_AUDIO_HARDWARE_OFFLOAD_ENCODING_DATAPATH
         && sessionType != LE_AUDIO_HARDWARE_OFFLOAD_DECODING_DATAPATH { return; }
      if config.tag != leAudioConfig { return; }
      audioConfig := Some(config);
      TellListeners();
    }

    method TellListeners()
      modifies this`toldConfig
      ensures toldConfig == old(toldConfig) + multiset(Listeners(View()))
    {
      var left := observers.Keys;
      ghost var all := Listeners(View());
      while left != {}
        invariant left <= observers.Keys
        invariant toldConfig == old(toldConfig) + multiset(all - left)
        decreases |left|
      {
        var cookie :| cookie in left;
        if observers[cookie].wantsConfiguration {
          toldConfig := toldConfig + multiset{cookie};
          assert all - (left - {cookie}) == all - left + {cookie};
        } else {
          assert all - (left - {cookie}) == all - left;
        }
        left := left - {cookie};
      }
      assert all - left == all;
    }

    // The stack's answer is a delay and a byte count. The return value is never set to true, so a caller
    // is always told that there is no position, whatever has been filled in.
    method GetPresentationPosition(answer: Option<(nat, nat)>) returns (retval: bool, position: (nat, nat))
      ensures !retval
      ensures position == if Ready(View()) && answer.Some? then answer.value else (0, 0)
    {
      position := (0, 0);
      var ready := IsSessionReady();
      if !ready { return false, position; }
      retval := false;
      if answer.None? { return false, position; }
      position := answer.value;
    }

    method RegisterStatusCback(callbacks: Callbacks) returns (cookie: nat)
      modifies this`observers
      ensures cookie == Allotted(sessionType, old(observers))
      ensures View() == Apply(old(View()), Call.RegisterStatusCback(callbacks))
    {
      cookie := InitValue(sessionType);
      var upper := UpperBound(sessionType);
      while cookie < upper
        invariant InitValue(sessionType) <= cookie <= upper
        invariant FirstFree(InitValue(sessionType), upper, observers) == FirstFree(cookie, upper, observers)
      {
        if cookie !in observers { break; }
        cookie := cookie + 1;
      }
      if cookie >= upper { return UNDEFINED; }
      observers := observers[cookie := callbacks];
    }

    method UnregisterStatusCback(cookie: nat)
      modifies this`observers
      ensures View() == Apply(old(View()), Call.UnregisterStatusCback(cookie))
    {
      observers := observers - {cookie};
    }
  }
}
