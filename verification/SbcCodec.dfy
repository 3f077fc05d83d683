/** The SBC offload codec: its own capabilities, the parser of a configuration, and the builder that
    answers a remote capability element. */
module SbcCodec {
  import opened Options
  import opened BitSequences
  import opened A2dpBitField
  import opened A2dpTypes
  import opened A2dpSelection
  import opened SbcFormat

  const BITDEPTH := 16
  const DEFAULT_MINIMUM_BITPOOL := 2
  const DEFAULT_MAXIMUM_BITPOOL := 250

  datatype AllocationMethod = SNR | LOUDNESS

  datatype SbcParameters = SbcParameters(
    codec: CodecParameters,
    allocationMethod: AllocationMethod,
    blockLength: int,
    subbands: int,
    minBitpool: int,
    maxBitpool: int)

  // 44100 and 48000 Hz, and every other selection bit.
  function Selections(): set<int> { {2, 3, 4, 5, 6, 7, 8, 9, 10, 11, 12, 13, 14, 15} }

  function LocalCapabilities(): (l: Row)
    ensures forall i :: 0 <= i < 16 ==> l[i] == (i >= 2)
  {
    WithBitpools(Marked(16, Selections()), DEFAULT_MINIMUM_BITPOOL, DEFAULT_MAXIMUM_BITPOOL)
  }

  function MinimumBitpool(c: Row): nat { Value(c[MINIMUM_BITPOOL..MAXIMUM_BITPOOL]) }

  function MaximumBitpool(c: Row): nat { Value(c[MAXIMUM_BITPOOL..ROW]) }

  function WithBitpools(head: seq<bool>, low: int, high: int): Row
    requires |head| == 16
  {
    head + BitsOf(low, 8) + BitsOf(high, 8)
  }

  lemma ByteField(v: nat)
    requires v < 256
    ensures Value(BitsOf(v, 8)) == v
  {
    assert Pow2(8) == 256;
    Fits(v, 8);
  }

  lemma ReadBitpools(head: seq<bool>, low: nat, high: nat)
    requires |head| == 16 && low < 256 && high < 256
    ensures var c := WithBitpools(head, low, high);
            c[..16] == head && MinimumBitpool(c) == low && MaximumBitpool(c) == high
  {
    ByteField(low);
    ByteField(high);
    Slices(head, BitsOf(low, 8), BitsOf(high, 8));
  }

  lemma Slices(head: seq<bool>, low: seq<bool>, high: seq<bool>)
    requires |head| == 16 && |low| == 8 && |high| == 8
    ensures var c := head + low + high;
            c[..16] == head && c[MINIMUM_BITPOOL..MAXIMUM_BITPOOL] == low && c[MAXIMUM_BITPOOL..ROW] == high
  {}

  // ----- parsing -----

  datatype Choice = Choice(
    samplingFrequency: int, channelMode: int, blockLength: int, subbands: int, allocationMethod: int)
  {
    predicate Complete() {
      samplingFrequency >= 0 && channelMode >= 0 && blockLength >= 0 && subbands >= 0 && allocationMethod >= 0
    }

    function Head(): (head: seq<bool>)
      ensures |head| == 16
    {
      Marked(16, {samplingFrequency, channelMode, blockLength, subbands, allocationMethod})
    }
  }

  // The choice that the active bits of a row spell out.
  function ActiveChoice(c: Row): Choice {
    Choice(ActiveBit(c, SAMPLING_FREQUENCY, 4), ActiveBit(c, CHANNEL_MODE, 4), ActiveBit(c, BLOCK_LENGTH, 4),
           ActiveBit(c, SUBBANDS, 2), ActiveBit(c, ALLOCATION_METHOD, 2))
  }

  // The parameters that a choice and a bitpool range stand for.
  function Described(choice: Choice, c: Row, low: nat, high: nat): SbcParameters
    requires Framed(c)
  {
    SbcParameters(
      CodecParameters(ChannelModeEnum(choice.channelMode), SamplingFrequencyValue(choice.samplingFrequency), BITDEPTH,
                      GetBitrate(c, low), GetBitrate(c, high)),
      if choice.allocationMethod == ALLOCATION_METHOD_SNR then SNR else LOUDNESS,
      BlockLengthValue(choice.blockLength), SubbandsValue(choice.subbands), low, high)
  }

  // One active bit per selection field, which the local capabilities l have as well; the block length
  // is not compared with them.
  function CheckSelections(l: Row, c: Row): (status: A2dpStatus)
    ensures status == OK ==> InFields(ActiveChoice(c)) && Framed(c) && OneMode(c)
  {
    var active := ActiveChoice(c);
    if active.samplingFrequency < 0 then INVALID_SAMPLING_FREQUENCY
    else if !l[active.samplingFrequency] then NOT_SUPPORTED_SAMPLING_FREQUENCY
    else if active.channelMode < 0 then INVALID_CHANNEL_MODE
    else if !l[active.channelMode] then NOT_SUPPORTED_CHANNEL_MODE
    else if active.blockLength < 0 then INVALID_BLOCK_LENGTH
    else if active.subbands < 0 then INVALID_SUBBANDS
    else if !l[active.subbands] then NOT_SUPPORTED_SUBBANDS
    else if active.allocationMethod < 0 then INVALID_ALLOCATION_METHOD
    else if !l[active.allocationMethod] then NOT_SUPPORTED_ALLOCATION_METHOD
    else OK
  }

  // Either bitpool is checked on its own; the order of the two is not.
  function CheckBitpools(l: Row, c: Row): A2dpStatus {
    var low, high := MinimumBitpool(c), MaximumBitpool(c);
    if low < 2 || low > 250 then INVALID_MINIMUM_BITPOOL_VALUE
    else if low < MinimumBitpool(l) then NOT_SUPPORTED_MINIMUM_BITPOOL_VALUE
    else if high < 2 || high > 250 then INVALID_MAXIMUM_BITPOOL_VALUE
    else if high > MaximumBitpool(l) then NOT_SUPPORTED_MAXIMUM_BITPOOL_VALUE
    else OK
  }

  function ParseConfiguration(config: seq<bool>): Parsed<SbcParameters> {
    if |config| != ROW then Rejected(BAD_LENGTH) else ParseRow(LocalCapabilities(), config)
  }

  function ParseRow(l: Row, c: Row): Parsed<SbcParameters> {
    var selections := CheckSelections(l, c);
    var bitpools := CheckBitpools(l, c);
    if selections != OK then Rejected(selections)
    else if bitpools != OK then Rejected(bitpools)
    else Accepted(Described(ActiveChoice(c), c, MinimumBitpool(c), MaximumBitpool(c)))
  }

  // ----- building -----

  function ChooseFrequency(l: Row, r: Row, hinted: int): int {
    Prefer(l, r, hinted, Prefer(l, r, SAMPLING_FREQUENCY_44100, Prefer(l, r, SAMPLING_FREQUENCY_48000, -1)))
  }

  function ChooseMode(l: Row, r: Row, hinted: int): int {
    Prefer(l, r, hinted, Prefer(l, r, CHANNEL_MODE_JOINT_STEREO, Prefer(l, r, CHANNEL_MODE_STEREO,
      Prefer(l, r, CHANNEL_MODE_DUAL_CHANNEL, Prefer(l, r, CHANNEL_MODE_MONO, -1)))))
  }

  function ChooseBlockLength(l: Row, r: Row): int {
    Prefer(l, r, BLOCK_LENGTH_16, Prefer(l, r, BLOCK_LENGTH_12,
      Prefer(l, r, BLOCK_LENGTH_8, Prefer(l, r, BLOCK_LENGTH_4, -1))))
  }

  function ChooseSubbands(l: Row, r: Row): int {
    Prefer(l, r, SUBBANDS_8, Prefer(l, r, SUBBANDS_4, -1))
  }

  function ChooseAllocation(l: Row, r: Row): int {
    Prefer(l, r, ALLOCATION_METHOD_LOUDNESS, Prefer(l, r, ALLOCATION_METHOD_SNR, -1))
  }

  function HintedFrequency(hint: Option<CodecParameters>): int {
    if hint.Some? then SamplingFrequencyBit(hint.value.samplingFrequencyHz) else -1
  }

  function HintedMode(hint: Option<CodecParameters>): int {
    if hint.Some? then ChannelModeBit(hint.value.channelMode) else -1
  }

  function Choose(rcaps: Row, hint: Option<CodecParameters>): Choice {
    var l := LocalCapabilities();
    Choice(ChooseFrequency(l, rcaps, HintedFrequency(hint)), ChooseMode(l, rcaps, HintedMode(hint)),
           ChooseBlockLength(l, rcaps), ChooseSubbands(l, rcaps), ChooseAllocation(l, rcaps))
  }

  // Each choice lies in its own field.
  predicate InFields(choice: Choice) {
    && 0 <= choice.samplingFrequency < 4
    && 4 <= choice.channelMode < 8
    && 8 <= choice.blockLength < 12
    && 12 <= choice.subbands < 14
    && 14 <= choice.allocationMethod < 16
  }

  // Both sides support every choice.
  ghost predicate AllShared(choice: Choice, rcaps: Row) {
    var l := LocalCapabilities();
    && Shared(l, rcaps, choice.samplingFrequency)
    && Shared(l, rcaps, choice.channelMode)
    && Shared(l, rcaps, choice.blockLength)
    && Shared(l, rcaps, choice.subbands)
    && Shared(l, rcaps, choice.allocationMethod)
  }

  // A choice within one field.
  ghost predicate FieldChoice(l: Row, r: Row, first: nat, len: nat, bit: int) {
    if SharesField(l, r, first, len) then first <= bit < first + len && Shared(l, r, bit) else bit == -1
  }

  lemma FrequencyChoice(l: Row, r: Row, hinted: int)
    requires -1 <= hinted < CHANNEL_MODE && !l[0] && !l[1]
    ensures FieldChoice(l, r, SAMPLING_FREQUENCY, 4, ChooseFrequency(l, r, hinted))
  {}

  lemma ModeChoice(l: Row, r: Row, hinted: int)
    requires hinted == -1 || CHANNEL_MODE <= hinted < BLOCK_LENGTH
    ensures FieldChoice(l, r, CHANNEL_MODE, 4, ChooseMode(l, r, hinted))
  {}

  lemma OtherChoices(l: Row, r: Row)
    ensures FieldChoice(l, r, BLOCK_LENGTH, 4, ChooseBlockLength(l, r))
    ensures FieldChoice(l, r, SUBBANDS, 2, ChooseSubbands(l, r))
    ensures FieldChoice(l, r, ALLOCATION_METHOD, 2, ChooseAllocation(l, r))
  {}

  // Each choice succeeds exactly when its field is shared, and then is a shared bit of it.
  lemma ChoiceIsShared(rcaps: Row, hint: Option<CodecParameters>)
    ensures var choice := Choose(rcaps, hint);
            && (choice.Complete() <==> AllFieldsShared(rcaps))
            && (choice.Complete() ==> InFields(choice) && AllShared(choice, rcaps))
  {
    var l := LocalCapabilities();
    FrequencyChoice(l, rcaps, HintedFrequency(hint));
    ModeChoice(l, rcaps, HintedMode(hint));
    OtherChoices(l, rcaps);
  }

  ghost predicate AllFieldsShared(rcaps: Row) {
    var l := LocalCapabilities();
    && SharesField(l, rcaps, SAMPLING_FREQUENCY, 4)
    && SharesField(l, rcaps, CHANNEL_MODE, 4)
    && SharesField(l, rcaps, BLOCK_LENGTH, 4)
    && SharesField(l, rcaps, SUBBANDS, 2)
    && SharesField(l, rcaps, ALLOCATION_METHOD, 2)
  }

  // A head with one bit per field.
  lemma ChoiceIsActive(choice: Choice, c: Row)
    requires InFields(choice) && c[..16] == choice.Head()
    ensures ActiveBit(c, SAMPLING_FREQUENCY, 4) == choice.samplingFrequency
    ensures ActiveBit(c, CHANNEL_MODE, 4) == choice.channelMode
    ensures ActiveBit(c, BLOCK_LENGTH, 4) == choice.blockLength
    ensures ActiveBit(c, SUBBANDS, 2) == choice.subbands
    ensures ActiveBit(c, ALLOCATION_METHOD, 2) == choice.allocationMethod
    ensures Framed(c)
  {
    var chosen := {choice.samplingFrequency, choice.channelMode, choice.blockLength, choice.subbands,
                   choice.allocationMethod};
    MarkedActive(c, 16, chosen, SAMPLING_FREQUENCY, 4, choice.samplingFrequency);
    MarkedActive(c, 16, chosen, CHANNEL_MODE, 4, choice.channelMode);
    MarkedActive(c, 16, chosen, BLOCK_LENGTH, 4, choice.blockLength);
    MarkedActive(c, 16, chosen, SUBBANDS, 2, choice.subbands);
    MarkedActive(c, 16, chosen, ALLOCATION_METHOD, 2, choice.allocationMethod);
  }

  lemma UnsetIsFramed(choice: Choice)
    requires InFields(choice)
    ensures Framed(WithBitpools(choice.Head(), 0, 0)) && OneMode(WithBitpools(choice.Head(), 0, 0))
  {
    ReadBitpools(choice.Head(), 0, 0);
    ChoiceIsActive(choice, WithBitpools(choice.Head(), 0, 0));
  }

  // Setting the five chosen bits in a clear row gives the head, with both bitpools still zero.
  lemma HeadFromZero(zero: Row, choice: Choice)
    requires InFields(choice) && forall i :: 0 <= i < ROW ==> !zero[i]
    ensures zero[choice.samplingFrequency := true][choice.channelMode := true][choice.blockLength := true]
                [choice.subbands := true][choice.allocationMethod := true] == WithBitpools(choice.Head(), 0, 0)
  {
    ClearBits(8);
  }

  // The remote bitpool range, replaced as a whole when it makes no sense.
  function SanitizedRange(rcaps: Row): (nat, nat) {
    var low, high := MinimumBitpool(rcaps), MaximumBitpool(rcaps);
    if low < 2 || low > 250 || high < 2 || high > 250 || low > high then (2, 250) else (low, high)
  }

  // A hint caps the rate only with a maximum that is set and not below its minimum.
  predicate Capped(hint: Option<CodecParameters>) {
    hint.Some? && hint.value.maxBitrate != 0 && hint.value.maxBitrate >= hint.value.minBitrate
  }

  function Max(a: nat, b: nat): nat { if a < b then b else a }

  function Min(a: nat, b: nat): nat { if b < a then b else a }

  // The bitpool range for a configuration whose first 16 bits are chosen. Both ends take the larger
  // of the remote and the local value, as the code does.
  function BitpoolRange(c: Row, rcaps: Row, hint: Option<CodecParameters>): (nat, nat)
    requires Framed(c)
  {
    var (low, high) := SanitizedRange(rcaps);
    var low := Max(low, DEFAULT_MINIMUM_BITPOOL);
    var high := Max(high, DEFAULT_MAXIMUM_BITPOOL);
    (if hint.Some? then Max(low, Bitpool(c, hint.value.minBitrate)) else low,
     if Capped(hint) then Min(high, Bitpool(c, hint.value.maxBitrate)) else high)
  }

  function BuildConfiguration(remote: seq<bool>, hint: Option<CodecParameters>): Option<Row> {
    if |remote| != ROW then None
    else
      var choice := Choose(remote, hint);
      if !choice.Complete() then None
      else
        ChoiceIsShared(remote, hint);
        var unset := WithBitpools(choice.Head(), 0, 0);
        UnsetIsFramed(choice);
        var (low, high) := BitpoolRange(unset, remote, hint);
        Some(WithBitpools(choice.Head(), low, high))
  }

  /** A configuration is built exactly when the length matches and each selection field has a bit that
      both sides support. */
  lemma BuildsIff(remote: seq<bool>, hint: Option<CodecParameters>)
    ensures BuildConfiguration(remote, hint).Some? <==> |remote| == ROW && AllFieldsShared(remote)
  {
    if |remote| == ROW { ChoiceIsShared(remote, hint); }
  }

  // What a successful build consists of.
  ghost predicate BuiltAs(c: Row, remote: Row, hint: Option<CodecParameters>, choice: Choice, low: nat, high: nat) {
    && choice == Choose(remote, hint) && InFields(choice) && AllShared(choice, remote)
    && c == WithBitpools(choice.Head(), low, high) && c[..16] == choice.Head()
    && Framed(c) && (low, high) == BitpoolRange(c, remote, hint)
    && MinimumBitpool(c) == low && MaximumBitpool(c) == high
    && 2 <= low <= 250 && 2 <= high <= 250
  }

  lemma BuiltFrom(remote: Row, hint: Option<CodecParameters>) returns (choice: Choice, low: nat, high: nat)
    requires BuildConfiguration(remote, hint).Some?
    ensures BuiltAs(BuildConfiguration(remote, hint).value, remote, hint, choice, low, high)
  {
    choice := Choose(remote, hint);
    ChoiceIsShared(remote, hint);
    UnsetIsFramed(choice);
    low, high := RangeWhileUnset(choice.Head(), remote, hint);
    assert BuildConfiguration(remote, hint).value == WithBitpools(choice.Head(), low, high);
  }

  // The range computed before the bitpools are written is the one of the finished row.
  lemma RangeWhileUnset(head: seq<bool>, remote: Row, hint: Option<CodecParameters>) returns (low: nat, high: nat)
    requires |head| == 16 && Framed(WithBitpools(head, 0, 0))
    ensures (low, high) == BitpoolRange(WithBitpools(head, 0, 0), remote, hint)
    ensures var c := WithBitpools(head, low, high);
            && Framed(c) && (low, high) == BitpoolRange(c, remote, hint) && c[..16] == head
            && MinimumBitpool(c) == low && MaximumBitpool(c) == high
            && 2 <= low <= 250 && 2 <= high <= 250
  {
    var unset := WithBitpools(head, 0, 0);
    low, high := RangeBounds(unset, remote, hint);
    ReadBitpools(head, 0, 0);
    ReadBitpools(head, low, high);
    SameRange(unset, WithBitpools(head, low, high), remote, hint);
  }

  lemma RangeBounds(c: Row, remote: Row, hint: Option<CodecParameters>) returns (low: nat, high: nat)
    requires Framed(c)
    ensures (low, high) == BitpoolRange(c, remote, hint) && 2 <= low <= 250 && 2 <= high <= 250
  {
    var range := BitpoolRange(c, remote, hint);
    low, high := range.0, range.1;
  }

  lemma SameRange(c: Row, d: Row, remote: Row, hint: Option<CodecParameters>)
    requires Framed(c) && c[..16] == d[..16]
    ensures Framed(d) && BitpoolRange(c, remote, hint) == BitpoolRange(d, remote, hint)
  {
    RatesIgnoreBitpools(c, d);
    if hint.Some? {
      SameGreatest(c, d, hint.value.minBitrate, 255);
      SameGreatest(c, d, hint.value.maxBitrate, 255);
    }
  }

  /** Every selection field of a built configuration has exactly one bit set, and both sides support
      it. */
  lemma BuiltFieldsAreShared(remote: Row, hint: Option<CodecParameters>)
    requires BuildConfiguration(remote, hint).Some?
    ensures var c := BuildConfiguration(remote, hint).value;
            var l := LocalCapabilities();
            && Shared(l, remote, ActiveBit(c, SAMPLING_FREQUENCY, 4))
            && Shared(l, remote, ActiveBit(c, CHANNEL_MODE, 4))
            && Shared(l, remote, ActiveBit(c, BLOCK_LENGTH, 4))
            && Shared(l, remote, ActiveBit(c, SUBBANDS, 2))
            && Shared(l, remote, ActiveBit(c, ALLOCATION_METHOD, 2))
  {
    var choice, low, high := BuiltFrom(remote, hint);
    ChoiceIsActive(choice, BuildConfiguration(remote, hint).value);
  }

  lemma BestMode(l: Row, r: Row, hinted: int)
    requires ChooseMode(l, r, hinted) >= 0 && (hinted == -1 || CHANNEL_MODE <= hinted < BLOCK_LENGTH)
    ensures if Shared(l, r, hinted) then ChooseMode(l, r, hinted) == hinted
            else Highest(l, r, CHANNEL_MODE, 4, ChooseMode(l, r, hinted))
  {}

  lemma BestFrequency(l: Row, r: Row, hinted: int)
    requires ChooseFrequency(l, r, hinted) >= 0 && !l[0] && !l[1]
    ensures if Shared(l, r, hinted) then ChooseFrequency(l, r, hinted) == hinted
            else Lowest(l, r, SAMPLING_FREQUENCY, 4, ChooseFrequency(l, r, hinted))
  {}

  lemma BestOthers(l: Row, r: Row)
    ensures ChooseBlockLength(l, r) >= 0 ==> Highest(l, r, BLOCK_LENGTH, 4, ChooseBlockLength(l, r))
    ensures ChooseSubbands(l, r) >= 0 ==> Lowest(l, r, SUBBANDS, 2, ChooseSubbands(l, r))
    ensures ChooseAllocation(l, r) >= 0 ==> Highest(l, r, ALLOCATION_METHOD, 2, ChooseAllocation(l, r))
  {}

  function HintedChannelMode(hint: Option<CodecParameters>): ChannelMode {
    if hint.Some? then hint.value.channelMode else UNKNOWN
  }

  // h has exactly the bits of a choice.
  ghost predicate HeadOf(h: seq<bool>, c: Choice) {
    && |h| == 16
    && (forall i :: 0 <= i < 4 ==> h[i] == (i == c.samplingFrequency))
    && (forall i :: 4 <= i < 8 ==> h[i] == (i == c.channelMode))
    && (forall i :: 8 <= i < 12 ==> h[i] == (i == c.blockLength))
    && h[12] == (c.subbands == 12) && h[13] == (c.subbands == 13)
    && h[14] == (c.allocationMethod == 14) && h[15] == (c.allocationMethod == 15)
  }

  lemma HeadIsHeadOf(c: Choice)
    requires InFields(c)
    ensures HeadOf(c.Head(), c)
  {}

  lemma BitsOfChoice(l: Row, r: Row, hint: Option<CodecParameters>, c: Choice, h: seq<bool>)
    requires forall i :: 0 <= i < 16 ==> l[i] == (i >= 2)
    requires c == Choice(ChooseFrequency(l, r, HintedFrequency(hint)), ChooseMode(l, r, HintedMode(hint)),
                         ChooseBlockLength(l, r), ChooseSubbands(l, r), ChooseAllocation(l, r))
    requires InFields(c) && HeadOf(h, c)
    ensures !h[0] && !h[1]
    ensures h[2] <==> r[2] && !(hint.Some? && hint.value.samplingFrequencyHz == 48000 && r[3])
    ensures h[3] <==> r[3] && !h[2]
    ensures var m := HintedChannelMode(hint);
            var mono, dual := m == MONO && r[4], m == DUALMONO && r[5];
            && (h[7] <==> r[7] && !mono && !dual)
            && (h[6] <==> r[6] && !r[7] && !mono && !dual)
            && (h[5] <==> r[5] && !mono && (dual || !(r[6] || r[7])))
            && (h[4] <==> r[4] && (mono || !(r[5] || r[6] || r[7])))
    ensures h[11] == r[11] && h[10] == (r[10] && !r[11]) && h[9] == (r[9] && !r[10] && !r[11])
    ensures h[8] == (r[8] && !r[9] && !r[10] && !r[11])
    ensures h[12] == r[12] && h[13] == (r[13] && !r[12])
    ensures h[15] == r[15] && h[14] == (r[14] && !r[15])
  {
    ModeBits(l, r, hint, c.channelMode);
    OtherBits(l, r, hint, c);
  }

  lemma OtherBits(l: Row, r: Row, hint: Option<CodecParameters>, c: Choice)
    requires forall i :: 0 <= i < 16 ==> l[i] == (i >= 2)
    requires c.samplingFrequency == ChooseFrequency(l, r, HintedFrequency(hint)) >= 0
    requires c.blockLength == ChooseBlockLength(l, r) >= 0
    requires c.subbands == ChooseSubbands(l, r) >= 0 && c.allocationMethod == ChooseAllocation(l, r) >= 0
    ensures c.samplingFrequency == 2 || c.samplingFrequency == 3
    ensures c.samplingFrequency == 2 <==> r[2] && !(hint.Some? && hint.value.samplingFrequencyHz == 48000 && r[3])
    ensures c.samplingFrequency == 3 ==> r[3]
    ensures (c.blockLength == 11) == r[11] && (c.blockLength == 10) == (r[10] && !r[11])
    ensures (c.blockLength == 9) == (r[9] && !r[10] && !r[11])
    ensures (c.blockLength == 8) == (r[8] && !r[9] && !r[10] && !r[11])
    ensures (c.subbands == 12) == r[12] && (c.subbands == 13) == (r[13] && !r[12])
    ensures (c.allocationMethod == 15) == r[15] && (c.allocationMethod == 14) == (r[14] && !r[15])
  {}

  lemma ModeBits(l: Row, r: Row, hint: Option<CodecParameters>, bit: int)
    requires forall i :: 0 <= i < 16 ==> l[i] == (i >= 2)
    requires bit == ChooseMode(l, r, HintedMode(hint)) && bit >= 0
    ensures var m := HintedChannelMode(hint);
            var mono, dual := m == MONO && r[4], m == DUALMONO && r[5];
            && (bit == 7 <==> r[7] && !mono && !dual)
            && (bit == 6 <==> r[6] && !r[7] && !mono && !dual)
            && (bit == 5 <==> r[5] && !mono && (dual || !(r[6] || r[7])))
            && (bit == 4 <==> r[4] && (mono || !(r[5] || r[6] || r[7])))
  {}

  /** The first two bytes of a built configuration, bit by bit: 44100 Hz unless 48000 is hinted and
      offered; the hinted mono or dual channel if offered, else joint stereo, stereo, dual channel, mono;
      the longest block, eight subbands, and loudness where they are offered. */
  lemma BuiltBits(remote: Row, hint: Option<CodecParameters>)
    requires BuildConfiguration(remote, hint).Some?
    ensures var h := BuildConfiguration(remote, hint).value[..16];
            var r, m := remote, HintedChannelMode(hint);
            var mono, dual := m == MONO && r[4], m == DUALMONO && r[5];
            && !h[0] && !h[1]
            && (h[2] <==> r[2] && !(hint.Some? && hint.value.samplingFrequencyHz == 48000 && r[3]))
            && (h[3] <==> r[3] && !h[2])
            && (h[7] <==> r[7] && !mono && !dual)
            && (h[6] <==> r[6] && !r[7] && !mono && !dual)
            && (h[5] <==> r[5] && !mono && (dual || !(r[6] || r[7])))
            && (h[4] <==> r[4] && (mono || !(r[5] || r[6] || r[7])))
            && h[11] == r[11] && h[10] == (r[10] && !r[11]) && h[9] == (r[9] && !r[10] && !r[11])
            && h[8] == (r[8] && !r[9] && !r[10] && !r[11])
            && h[12] == r[12] && h[13] == (r[13] && !r[12])
            && h[15] == r[15] && h[14] == (r[14] && !r[15])
  {
    var choice, low, high := BuiltFrom(remote, hint);
    HeadIsHeadOf(choice);
    BitsOfChoice(LocalCapabilities(), remote, hint, choice, choice.Head());
  }

  // What the codec prefers: the lowest frequency, joint stereo before stereo before dual channel before
  // mono, the most blocks and subbands, the loudness method.
  ghost predicate Best(l: Row, r: Row, hint: Option<CodecParameters>, c: Choice) {
    && (if Shared(l, r, HintedFrequency(hint)) then c.samplingFrequency == HintedFrequency(hint)
        else Lowest(l, r, SAMPLING_FREQUENCY, 4, c.samplingFrequency))
    && (if Shared(l, r, HintedMode(hint)) then c.channelMode == HintedMode(hint)
        else Highest(l, r, CHANNEL_MODE, 4, c.channelMode))
    && Highest(l, r, BLOCK_LENGTH, 4, c.blockLength)
    && Lowest(l, r, SUBBANDS, 2, c.subbands)
    && Highest(l, r, ALLOCATION_METHOD, 2, c.allocationMethod)
  }

  lemma ChoiceIsBest(r: Row, hint: Option<CodecParameters>)
    requires Choose(r, hint).Complete()
    ensures Best(LocalCapabilities(), r, hint, Choose(r, hint))
  {
    var l := LocalCapabilities();
    BestFrequency(l, r, HintedFrequency(hint));
    BestMode(l, r, HintedMode(hint));
    BestOthers(l, r);
  }

  /** Every field of a built configuration is the hinted one where both sides support that, and
      otherwise the best of what both support. */
  lemma BestIsChosen(remote: Row, hint: Option<CodecParameters>)
    requires BuildConfiguration(remote, hint).Some?
    ensures Best(LocalCapabilities(), remote, hint, ActiveChoice(BuildConfiguration(remote, hint).value))
  {
    var choice, low, high := BuiltFrom(remote, hint);
    ChoiceIsActive(choice, BuildConfiguration(remote, hint).value);
    ChoiceIsBest(remote, hint);
  }

  lemma LocalBitpools()
    ensures MinimumBitpool(LocalCapabilities()) == DEFAULT_MINIMUM_BITPOOL
    ensures MaximumBitpool(LocalCapabilities()) == DEFAULT_MAXIMUM_BITPOOL
  {
    ReadBitpools(Marked(16, Selections()), DEFAULT_MINIMUM_BITPOOL, DEFAULT_MAXIMUM_BITPOOL);
  }

  /** Every choice of one local bit per field, with bitpools of 2 to 250 in either order, is parsed
      back as it was written. */
  lemma ParsesAsWritten(choice: Choice, low: nat, high: nat)
    requires InFields(choice) && choice.samplingFrequency >= 2 && 2 <= low <= 250 && 2 <= high <= 250
    ensures var c := WithBitpools(choice.Head(), low, high);
            Framed(c) && ParseConfiguration(c) == Accepted(Described(choice, c, low, high))
  {
    var c := WithBitpools(choice.Head(), low, high);
    ReadBitpools(choice.Head(), low, high);
    ChoiceIsActive(choice, c);
    LocalBitpools();
    ParsesRow(LocalCapabilities(), choice, c);
  }

  lemma ParsesRow(l: Row, choice: Choice, c: Row)
    requires forall i :: 2 <= i < 16 ==> l[i]
    requires MinimumBitpool(l) == 2 && MaximumBitpool(l) == 250
    requires InFields(choice) && choice.samplingFrequency >= 2 && ActiveChoice(c) == choice
    requires 2 <= MinimumBitpool(c) <= 250 && 2 <= MaximumBitpool(c) <= 250
    ensures Framed(c)
    ensures ParseRow(l, c) == Accepted(Described(choice, c, MinimumBitpool(c), MaximumBitpool(c)))
  {
    assert CheckSelections(l, c) == OK;
    assert CheckBitpools(l, c) == OK;
  }

  lemma AcceptedBits(c: Row)
    requires ParseConfiguration(c).Accepted?
    ensures InFields(ActiveChoice(c)) && ActiveChoice(c).samplingFrequency >= 2
    ensures var p := ParseConfiguration(c).parameters;
            && p.minBitpool == MinimumBitpool(c) && p.maxBitpool == MaximumBitpool(c)
            && 2 <= p.minBitpool <= 250 && 2 <= p.maxBitpool <= 250
  {}

  /** Nothing else is accepted: an accepted configuration is the one written for its own active bits
      and bitpools. */
  lemma AcceptedIsWritten(c: Row)
    requires ParseConfiguration(c).Accepted?
    ensures var p := ParseConfiguration(c).parameters;
            && InFields(ActiveChoice(c)) && ActiveChoice(c).samplingFrequency >= 2
            && 2 <= p.minBitpool <= 250 && 2 <= p.maxBitpool <= 250
            && c == WithBitpools(ActiveChoice(c).Head(), p.minBitpool, p.maxBitpool)
  {
    AcceptedBits(c);
    RewriteRow(c);
  }

  // What the parser says of a row of the right length, the codec's own capabilities worked in.
  ghost function Verdict(c: Row): A2dpStatus {
    if !OneActive(c, 0, 4) then INVALID_SAMPLING_FREQUENCY
    else if c[0] || c[1] then NOT_SUPPORTED_SAMPLING_FREQUENCY
    else if !OneActive(c, 4, 4) then INVALID_CHANNEL_MODE
    else if !OneActive(c, 8, 4) then INVALID_BLOCK_LENGTH
    else if !OneActive(c, 12, 2) then INVALID_SUBBANDS
    else if !OneActive(c, 14, 2) then INVALID_ALLOCATION_METHOD
    else if !(2 <= Value(c[16..24]) <= 250) then INVALID_MINIMUM_BITPOOL_VALUE
    else if !(2 <= Value(c[24..32]) <= 250) then INVALID_MAXIMUM_BITPOOL_VALUE
    else OK
  }

  lemma VerdictOnSelections(l: Row, c: Row)
    requires forall i :: 0 <= i < 16 ==> l[i] == (i >= 2)
    requires MinimumBitpool(l) == 2 && MaximumBitpool(l) == 250
    ensures Verdict(c) == if CheckSelections(l, c) != OK then CheckSelections(l, c) else CheckBitpools(l, c)
  {
    ActiveIff(c, SAMPLING_FREQUENCY, 4);
    ActiveIff(c, CHANNEL_MODE, 4);
    ActiveIff(c, BLOCK_LENGTH, 4);
    ActiveIff(c, SUBBANDS, 2);
    ActiveIff(c, ALLOCATION_METHOD, 2);
  }

  /** The parser accepts exactly what it finds no fault with, and otherwise names the first one: fields
      in order, each for not having one bit set; only the frequency can also be unsupported. */
  lemma FirstFaultIsNamed(config: seq<bool>)
    ensures |config| != ROW ==> ParseConfiguration(config) == Rejected(BAD_LENGTH)
    ensures |config| == ROW ==>
              var p := ParseConfiguration(config);
              if Verdict(config) == OK then p.Accepted? else p == Rejected(Verdict(config))
  {
    LocalBitpools();
    if |config| == ROW { VerdictOnSelections(LocalCapabilities(), config); }
  }

  lemma FieldsOfChoice(l: Row, c: Row)
    requires !l[0] && !l[1] && CheckSelections(l, c) == OK
    ensures var p := Described(ActiveChoice(c), c, MinimumBitpool(c), MaximumBitpool(c));
            && (p.codec.samplingFrequencyHz == 44100 || p.codec.samplingFrequencyHz == 48000)
            && (p.codec.samplingFrequencyHz == 44100 <==> c[2]) && (p.codec.samplingFrequencyHz == 48000 <==> c[3])
            && (p.codec.channelMode == MONO <==> c[4]) && (p.codec.channelMode == DUALMONO <==> c[5])
            && (p.codec.channelMode == STEREO <==> c[6] || c[7])
            && (forall k :: 1 <= k <= 4 ==> (p.blockLength == 4 * k <==> c[7 + k]))
            && (p.subbands == 8 <==> c[12]) && (p.subbands == 4 <==> c[13])
            && (p.allocationMethod == SNR <==> c[14]) && (p.allocationMethod == LOUDNESS <==> c[15])
  {}

  /** The parameters of an accepted configuration are the fields of section 4.3 of A2DP, and its rates
      those of its own two bitpools. */
  lemma ParametersAreFields(c: Row)
    requires ParseConfiguration(c).Accepted?
    ensures var p := ParseConfiguration(c).parameters;
            && (p.codec.samplingFrequencyHz == 44100 || p.codec.samplingFrequencyHz == 48000)
            && (p.codec.samplingFrequencyHz == 44100 <==> c[2]) && (p.codec.samplingFrequencyHz == 48000 <==> c[3])
            && (p.codec.channelMode == MONO <==> c[4]) && (p.codec.channelMode == DUALMONO <==> c[5])
            && (p.codec.channelMode == STEREO <==> c[6] || c[7])
            && (forall k :: 1 <= k <= 4 ==> (p.blockLength == 4 * k <==> c[7 + k]))
            && (p.subbands == 8 <==> c[12]) && (p.subbands == 4 <==> c[13])
            && (p.allocationMethod == SNR <==> c[14]) && (p.allocationMethod == LOUDNESS <==> c[15])
            && p.minBitpool == Value(c[16..24]) && p.maxBitpool == Value(c[24..32])
            && Framed(c) && p.codec.bitdepth == 16
            && p.codec.minBitrate == GetBitrate(c, p.minBitpool) && p.codec.maxBitrate == GetBitrate(c, p.maxBitpool)
  {
    FieldsOfChoice(LocalCapabilities(), c);
  }

  /** And both rates are, in these parameters, the bit rate of section 12.9 of A2DP, rounded down. */
  lemma RatesAreStandard(c: Row)
    requires ParseConfiguration(c).Accepted?
    ensures var p := ParseConfiguration(c).parameters;
            var mode := if c[4] then Mono else if c[5] then DualChannel else if c[6] then Stereo else JointStereo;
            && p.subbands > 0 && p.blockLength > 0 && p.minBitpool >= 0 && p.maxBitpool >= 0
            && p.codec.minBitrate ==
               8 * StandardFrameLength(mode, p.subbands, p.blockLength, p.minBitpool) * p.codec.samplingFrequencyHz
               / (p.blockLength * p.subbands)
            && p.codec.maxBitrate ==
               8 * StandardFrameLength(mode, p.subbands, p.blockLength, p.maxBitpool) * p.codec.samplingFrequencyHz
               / (p.blockLength * p.subbands)
  {
    AcceptedBits(c);
    FrameSizeIsStandard(c, MinimumBitpool(c));
    FrameSizeIsStandard(c, MaximumBitpool(c));
    ModeOfBits(c);
  }

  lemma ModeOfBits(c: Row)
    requires OneMode(c)
    ensures ModeOf(ActiveBit(c, CHANNEL_MODE, 4)) ==
            if c[4] then Mono else if c[5] then DualChannel else if c[6] then Stereo else JointStereo
  {}

  lemma RewriteRow(c: Row)
    requires InFields(ActiveChoice(c))
    ensures c == WithBitpools(ActiveChoice(c).Head(), MinimumBitpool(c), MaximumBitpool(c))
  {
    BitsOfValue(c[MINIMUM_BITPOOL..MAXIMUM_BITPOOL]);
    BitsOfValue(c[MAXIMUM_BITPOOL..ROW]);
    HeadIsActive(c, ActiveChoice(c));
    ThreeParts(c);
  }

  lemma ThreeParts(c: Row)
    ensures c == c[..16] + c[MINIMUM_BITPOOL..MAXIMUM_BITPOOL] + c[MAXIMUM_BITPOOL..ROW]
  {}

  lemma HeadIsActive(c: Row, choice: Choice)
    requires InFields(choice)
    requires OnlyActive(c, SAMPLING_FREQUENCY, 4, choice.samplingFrequency)
    requires OnlyActive(c, CHANNEL_MODE, 4, choice.channelMode)
    requires OnlyActive(c, BLOCK_LENGTH, 4, choice.blockLength)
    requires OnlyActive(c, SUBBANDS, 2, choice.subbands)
    requires OnlyActive(c, ALLOCATION_METHOD, 2, choice.allocationMethod)
    ensures c[..16] == choice.Head()
  {}

  /** The factory's assertion: what the codec builds, it parses, and with the parameters chosen. */
  lemma BuiltParses(remote: Row, hint: Option<CodecParameters>) returns (choice: Choice, low: nat, high: nat)
    requires BuildConfiguration(remote, hint).Some?
    ensures var c := BuildConfiguration(remote, hint).value;
            && BuiltAs(c, remote, hint, choice, low, high)
            && ParseConfiguration(c) == Accepted(Described(choice, c, low, high))
  {
    choice, low, high := BuiltFrom(remote, hint);
    ParsesAsWritten(choice, low, high);
  }

  ghost predicate SharesMode(l: Row, remote: Row, mode: ChannelMode) {
    exists i :: CHANNEL_MODE <= i < BLOCK_LENGTH && Shared(l, remote, i) && ChannelModeEnum(i) == mode
  }

  lemma ModeIsHonoured(l: Row, r: Row, mode: ChannelMode)
    requires ChooseMode(l, r, ChannelModeBit(mode)) >= 0
    ensures ChannelModeEnum(ChooseMode(l, r, ChannelModeBit(mode))) == mode <==> SharesMode(l, r, mode)
  {
    var bit := ChooseMode(l, r, ChannelModeBit(mode));
    ModeChoice(l, r, ChannelModeBit(mode));
    assert CHANNEL_MODE <= bit < BLOCK_LENGTH && Shared(l, r, bit);
  }

  lemma FrequencyIsHonoured(l: Row, r: Row, hz: int)
    requires !l[0] && !l[1] && ChooseFrequency(l, r, SamplingFrequencyBit(hz)) >= 0
    ensures SamplingFrequencyValue(ChooseFrequency(l, r, SamplingFrequencyBit(hz))) == hz <==>
            Shared(l, r, SamplingFrequencyBit(hz))
  {}

  /** A hinted frequency or channel mode is the one parsed back exactly when both sides have a bit for
      it. */
  lemma HintIsHonoured(remote: Row, hint: CodecParameters)
    requires BuildConfiguration(remote, Some(hint)).Some?
    ensures var p := ParseConfiguration(BuildConfiguration(remote, Some(hint)).value);
            && p.Accepted?
            && (p.parameters.codec.samplingFrequencyHz == hint.samplingFrequencyHz <==>
                Shared(LocalCapabilities(), remote, SamplingFrequencyBit(hint.samplingFrequencyHz)))
            && (p.parameters.codec.channelMode == hint.channelMode <==>
                SharesMode(LocalCapabilities(), remote, hint.channelMode))
  {
    var choice, low, high := BuiltParses(remote, Some(hint));
    var l := LocalCapabilities();
    FrequencyIsHonoured(l, remote, hint.samplingFrequencyHz);
    ModeIsHonoured(l, remote, hint.channelMode);
    assert choice.samplingFrequency == ChooseFrequency(l, remote, SamplingFrequencyBit(hint.samplingFrequencyHz));
    assert choice.channelMode == ChooseMode(l, remote, ChannelModeBit(hint.channelMode));
  }

  // The row that the rates are computed on: the chosen fields, before any bitpool is written.
  function Selected(remote: Row, hint: Option<CodecParameters>): (c: Row)
    requires Choose(remote, hint).Complete()
    ensures Framed(c) && OneMode(c)
  {
    ChoiceIsShared(remote, hint);
    UnsetIsFramed(Choose(remote, hint));
    WithBitpools(Choose(remote, hint).Head(), 0, 0)
  }

  // What a build computes, in terms of the row of its choice.
  lemma BuiltOnSelected(remote: Row, hint: Option<CodecParameters>) returns (low: nat, high: nat)
    requires BuildConfiguration(remote, hint).Some?
    ensures Choose(remote, hint).Complete()
    ensures (low, high) == BitpoolRange(Selected(remote, hint), remote, hint)
    ensures var c := BuildConfiguration(remote, hint).value;
            && Framed(c) && MinimumBitpool(c) == low && MaximumBitpool(c) == high
            && forall b: nat :: GetBitrate(c, b) == GetBitrate(Selected(remote, hint), b)
  {
    var choice;
    choice, low, high := BuiltFrom(remote, hint);
    ChoiceIsShared(remote, hint);
    var c, s := BuildConfiguration(remote, hint).value, Selected(remote, hint);
    ReadBitpools(choice.Head(), 0, 0);
    SameRange(s, c, remote, hint);
    RatesIgnoreBitpools(s, c);
  }

  /** The emitted range is in order except when the hint caps the rate at or below what the remote's own
      minimum bitpool costs, that minimum being above 2. */
  lemma RangeInOrder(remote: Row, hint: Option<CodecParameters>)
    requires BuildConfiguration(remote, hint).Some?
    ensures Choose(remote, hint).Complete()
    ensures var c := BuildConfiguration(remote, hint).value;
            var least := SanitizedRange(remote).0;
            MinimumBitpool(c) <= MaximumBitpool(c) <==>
            !Capped(hint) || least == 2 || GetBitrate(Selected(remote, hint), least) < hint.value.maxBitrate
  {
    var low, high := BuiltOnSelected(remote, hint);
    OrderOfRange(Selected(remote, hint), remote, hint);
  }

  lemma OrderOfRange(c: Row, remote: Row, hint: Option<CodecParameters>)
    requires Framed(c)
    ensures var (low, high) := BitpoolRange(c, remote, hint);
            var least := SanitizedRange(remote).0;
            low <= high <==> !Capped(hint) || least == 2 || GetBitrate(c, least) < hint.value.maxBitrate
  {
    if Capped(hint) {
      BitpoolMonotone(c, hint.value.minBitrate, hint.value.maxBitrate);
      BitpoolAtLeast(c, hint.value.maxBitrate, SanitizedRange(remote).0);
    }
  }

  /** Under a cap the rate parsed back is below it exactly when the chosen fields cost less with bitpool
      2 already. */
  lemma RateBelowCap(remote: Row, hint: Option<CodecParameters>)
    requires BuildConfiguration(remote, hint).Some? && Capped(hint)
    ensures Choose(remote, hint).Complete()
    ensures var p := ParseConfiguration(BuildConfiguration(remote, hint).value);
            && p.Accepted?
            && (p.parameters.codec.maxBitrate < hint.value.maxBitrate <==>
                GetBitrate(Selected(remote, hint), 2) < hint.value.maxBitrate)
  {
    var low, high := BuiltOnSelected(remote, hint);
    ParsedRate(remote, hint);
    BitpoolCost(BuildConfiguration(remote, hint).value, hint.value.maxBitrate);
  }

  lemma ParsedRate(remote: Row, hint: Option<CodecParameters>)
    requires BuildConfiguration(remote, hint).Some? && Capped(hint)
    ensures var c := BuildConfiguration(remote, hint).value;
            var p := ParseConfiguration(c);
            && p.Accepted? && Framed(c)
            && p.parameters.codec.maxBitrate == GetBitrate(c, Bitpool(c, hint.value.maxBitrate))
  {
    var choice, low, high := BuiltParses(remote, hint);
  }

  /** The remote's maximum bitpool is never honoured on its own account: without a cap the
      configuration always asks for 250. It stays within the remote's range exactly when that range
      ends at 250, or the next bitpool would reach the cap. */
  lemma RemoteMaximumIsIgnored(remote: Row, hint: Option<CodecParameters>)
    requires BuildConfiguration(remote, hint).Some?
    ensures Choose(remote, hint).Complete()
    ensures var c := BuildConfiguration(remote, hint).value;
            var most := SanitizedRange(remote).1;
            && (!Capped(hint) ==> MaximumBitpool(c) == 250)
            && (MaximumBitpool(c) <= most <==>
                most == 250 ||
                (Capped(hint) && GetBitrate(Selected(remote, hint), most + 1) >= hint.value.maxBitrate))
  {
    var low, high := BuiltOnSelected(remote, hint);
    EndOfRange(Selected(remote, hint), remote, hint);
  }

  lemma EndOfRange(c: Row, remote: Row, hint: Option<CodecParameters>)
    requires Framed(c)
    ensures var high := BitpoolRange(c, remote, hint).1;
            var most := SanitizedRange(remote).1;
            && (!Capped(hint) ==> high == 250)
            && (high <= most <==>
                most == 250 || (Capped(hint) && GetBitrate(c, most + 1) >= hint.value.maxBitrate))
  {
    if Capped(hint) && SanitizedRange(remote).1 < 250 {
      BitpoolAtMost(c, hint.value.maxBitrate, SanitizedRange(remote).1);
    }
  }

  // The remote's range counts if it is one within 2 to 250; otherwise it stands for all of that.
  lemma SanitizedIs(remote: Row)
    ensures var low, high := Value(remote[16..24]), Value(remote[24..32]);
            SanitizedRange(remote) == if 2 <= low <= high <= 250 then (low, high) else (2, 250)
  {}

  /** Both emitted bitpools, pinned from below: a bitpool is within the emitted minimum exactly if it is
      within the remote's or costs less than the hinted minimum rate, and within the emitted maximum
      exactly if the hint sets no effective cap or it costs less than that. */
  lemma EmittedRange(remote: Row, hint: Option<CodecParameters>, x: nat)
    requires BuildConfiguration(remote, hint).Some? && 2 <= x <= 250
    ensures Choose(remote, hint).Complete()
    ensures var c, s := BuildConfiguration(remote, hint).value, Selected(remote, hint);
            var low, high := Value(remote[16..24]), Value(remote[24..32]);
            && (x <= Value(c[16..24]) <==>
                || x == 2 || (2 <= low <= high <= 250 && x <= low)
                || (hint.Some? && GetBitrate(s, x) < hint.value.minBitrate))
            && (x <= Value(c[24..32]) <==>
                || x == 2 || hint.None? || hint.value.maxBitrate == 0 || hint.value.maxBitrate < hint.value.minBitrate
                || GetBitrate(s, x) < hint.value.maxBitrate)
  {
    var low, high := BuiltOnSelected(remote, hint);
    SanitizedIs(remote);
    RangeFromBelow(Selected(remote, hint), remote, hint, x);
  }

  lemma RangeFromBelow(c: Row, remote: Row, hint: Option<CodecParameters>, x: nat)
    requires Framed(c) && 2 <= x <= 250
    ensures var (low, high) := BitpoolRange(c, remote, hint);
            && (x <= low <==>
                x <= SanitizedRange(remote).0 || x == 2 || (hint.Some? && GetBitrate(c, x) < hint.value.minBitrate))
            && (x <= high <==>
                || x == 2 || hint.None? || hint.value.maxBitrate == 0 || hint.value.maxBitrate < hint.value.minBitrate
                || GetBitrate(c, x) < hint.value.maxBitrate)
  {
    if hint.Some? {
      BitpoolAtLeast(c, hint.value.minBitrate, x);
      BitpoolAtLeast(c, hint.value.maxBitrate, x);
    }
  }

  /** The parsed minimum rate lies below the hinted one exactly if the remote's own minimum bitpool costs
      less than that; it is then the last rate that does, unless bitpool 250 still does. */
  lemma MinimumRate(remote: Row, hint: CodecParameters)
    requires BuildConfiguration(remote, Some(hint)).Some?
    ensures Choose(remote, Some(hint)).Complete()
    ensures var s := Selected(remote, Some(hint));
            var p := ParseConfiguration(BuildConfiguration(remote, Some(hint)).value);
            && p.Accepted?
            && p.parameters.codec.minBitrate == GetBitrate(s, p.parameters.minBitpool)
            && (p.parameters.codec.minBitrate < hint.minBitrate <==>
                GetBitrate(s, SanitizedRange(remote).0) < hint.minBitrate)
            && (p.parameters.minBitpool < 250 ==> GetBitrate(s, p.parameters.minBitpool + 1) >= hint.minBitrate)
  {
    var low, high := BuiltOnSelected(remote, Some(hint));
    ParsedMinimum(remote, Some(hint));
    MinimumOfRange(Selected(remote, Some(hint)), remote, hint);
  }

  lemma ParsedMinimum(remote: Row, hint: Option<CodecParameters>)
    requires BuildConfiguration(remote, hint).Some?
    ensures var c := BuildConfiguration(remote, hint).value;
            var p := ParseConfiguration(c);
            && p.Accepted? && Framed(c) && p.parameters.minBitpool == MinimumBitpool(c)
            && p.parameters.codec.minBitrate == GetBitrate(c, MinimumBitpool(c))
  {
    var choice, low, high := BuiltParses(remote, hint);
  }

  lemma MinimumOfRange(c: Row, remote: Row, hint: CodecParameters)
    requires Framed(c)
    ensures var low := BitpoolRange(c, remote, Some(hint)).0;
            && (GetBitrate(c, low) < hint.minBitrate <==> GetBitrate(c, SanitizedRange(remote).0) < hint.minBitrate)
            && (low < 250 ==> GetBitrate(c, low + 1) >= hint.minBitrate)
  {
    var low, high := RangeBounds(c, remote, Some(hint));
    var least := SanitizedRange(remote).0;
    BitrateMonotone(c, least, low);
    BitpoolCost(c, hint.minBitrate);
    BitrateMonotone(c, 2, least);
    if low < 250 { BitpoolAtLeast(c, hint.minBitrate, low + 1); }
  }

  // The hint of 300 kb/s and no cap: bitpool 47 is the last one below it.
  lemma MinimumRaised()
    ensures var hint := Some(CodecParameters(STEREO, 44100, BITDEPTH, 300000, 0));
            var built := BuildConfiguration(Everything(2, 53), hint);
            built.Some? && Value(built.value[16..24]) == 47
  {
    var remote, hint := Everything(2, 53), Some(CodecParameters(STEREO, 44100, BITDEPTH, 300000, 0));
    EverythingBuilds(2, 53, hint);
    EverythingSelects(2, 53, hint);
    var low, high := BuiltOnSelected(remote, hint);
    var s := Selected(remote, hint);
    JointStereoRates(s);
    RangeFromBelow(s, remote, hint, 47);
    RangeFromBelow(s, remote, hint, 48);
  }

  lemma EverythingSelects(low: nat, high: nat, hint: Option<CodecParameters>)
    requires 2 <= low <= high <= 250 && HintedFrequency(hint) == 2 && HintedMode(hint) == 7
    ensures Choose(Everything(low, high), hint) == Choice(2, 7, 11, 12, 15)
    ensures Selected(Everything(low, high), hint) == WithBitpools(Choice(2, 7, 11, 12, 15).Head(), 0, 0)
  {
    var remote := Everything(low, high);
    ReadBitpools(Marked(16, Selections()), low, high);
    assert forall i :: 0 <= i < 16 ==> remote[i] == remote[..16][i];
  }

  lemma JointStereoRates(c: Row)
    requires c == WithBitpools(Choice(2, 7, 11, 12, 15).Head(), 0, 0)
    ensures Framed(c) && GetBitrate(c, 47) == 294918 && GetBitrate(c, 48) == 300431
  {
    var choice := Choice(2, 7, 11, 12, 15);
    ReadBitpools(choice.Head(), 0, 0);
    ChoiceIsActive(choice, c);
    assert forall i :: 0 <= i < 16 ==> c[i] == c[..16][i];
  }

  /** Every rate of an accepted configuration was computed without overflow. */
  lemma AcceptedRatesFit(c: Row)
    requires ParseConfiguration(c).Accepted?
    ensures Framed(c) && OneMode(c)
    ensures 8 * GetFrameSize(c, MinimumBitpool(c)) * Frequency(c) <= 396288000
    ensures 8 * GetFrameSize(c, MaximumBitpool(c)) * Frequency(c) <= 396288000
  {
    AcceptedBits(c);
    BitrateFits(c, MinimumBitpool(c));
    BitrateFits(c, MaximumBitpool(c));
  }

  /** And so is every rate that a build may ask for. */
  lemma BuildRatesFit(remote: Row, hint: Option<CodecParameters>, bitpool: nat)
    requires Choose(remote, hint).Complete() && bitpool <= 255
    ensures var c := Selected(remote, hint); 8 * GetFrameSize(c, bitpool) * Frequency(c) <= 396288000
  {
    BitrateFits(Selected(remote, hint), bitpool);
  }

  // A remote that supports everything the codec does, with the given bitpools.
  function Everything(low: nat, high: nat): Row { WithBitpools(Marked(16, Selections()), low, high) }

  lemma EverythingBuilds(low: nat, high: nat, hint: Option<CodecParameters>)
    requires 2 <= low <= high <= 250
    ensures SanitizedRange(Everything(low, high)) == (low, high)
    ensures BuildConfiguration(Everything(low, high), hint).Some?
  {
    var remote := Everything(low, high);
    ReadBitpools(Marked(16, Selections()), low, high);
    assert forall i :: 0 <= i < 16 ==> remote[i] == remote[..16][i];
    var l := LocalCapabilities();
    assert Shared(l, remote, 2) && Shared(l, remote, 4) && Shared(l, remote, 8) && Shared(l, remote, 12)
        && Shared(l, remote, 14);
    BuildsIff(remote, hint);
  }

  // A remote that stops at bitpool 53 is asked for 250.
  lemma RemoteMaximumExceeded()
    ensures SanitizedRange(Everything(2, 53)).1 == 53
    ensures BuildConfiguration(Everything(2, 53), None).Some?
    ensures MaximumBitpool(BuildConfiguration(Everything(2, 53), None).value) == 250
  {
    EverythingBuilds(2, 53, None);
    RemoteMaximumIsIgnored(Everything(2, 53), None);
  }

  // A cap of one bit per second, below a remote minimum of 50: the range comes out upside down, and the
  // rate above the cap.
  lemma CapMissed()
    ensures var hint := Some(CodecParameters(STEREO, 44100, BITDEPTH, 0, 1));
            var built := BuildConfiguration(Everything(50, 53), hint);
            && built.Some?
            && MinimumBitpool(built.value) > MaximumBitpool(built.value)
            && ParseConfiguration(built.value).Accepted?
            && ParseConfiguration(built.value).parameters.codec.maxBitrate >= 1
  {
    var remote, hint := Everything(50, 53), Some(CodecParameters(STEREO, 44100, BITDEPTH, 0, 1));
    EverythingBuilds(50, 53, hint);
    RangeInOrder(remote, hint);
    RateBelowCap(remote, hint);
    SelectedFrequency(remote, hint);
    RatePositive(Selected(remote, hint), 50);
    RatePositive(Selected(remote, hint), 2);
  }

  lemma SelectedFrequency(remote: Row, hint: Option<CodecParameters>)
    requires Choose(remote, hint).Complete()
    ensures Frequency(Selected(remote, hint)) >= 16000
  {
    ChoiceIsShared(remote, hint);
    ChoiceFrequency(Choose(remote, hint));
  }

  lemma ChoiceFrequency(choice: Choice)
    requires InFields(choice)
    ensures Frequency(WithBitpools(choice.Head(), 0, 0)) >= 16000
  {
    ReadBitpools(choice.Head(), 0, 0);
    ChoiceIsActive(choice, WithBitpools(choice.Head(), 0, 0));
  }
}
