/** The AAC offload codec: the elements of A2DP section 4.5 as rows of 48 bits, the codec's own
    capabilities, the parser of a configuration and the builder that answers a remote element. */
module AacCodec {
  import opened Options
  import opened BitSequences
  import opened A2dpBitField
  import opened A2dpTypes
  import opened A2dpSelection

  const OBJECT_TYPE := 0         // 0-6: MPEG-2 AAC LC, MPEG-4 AAC LC, then types never enabled here
  const DRC_ENABLE := 7
  const SAMPLING_FREQUENCY := 8  // 8-19: 8000 to 96000
  const CHANNELS := 20           // 20-23: 1, 2, 5.1, 7.1
  const VBR_SUPPORTED := 24
  const BITRATE := 25            // 25-47
  const BITRATE_LEN := 23
  const CAPABILITIES_SIZE := 6   // bytes
  const ROW := 48

  const OBJECT_TYPE_MPEG2_AAC_LC := 0
  const OBJECT_TYPE_MPEG4_AAC_LC := 1
  const SAMPLING_FREQUENCY_44100 := 15
  const SAMPLING_FREQUENCY_48000 := 16
  const SAMPLING_FREQUENCY_88200 := 18
  const SAMPLING_FREQUENCY_96000 := 19
  const CHANNELS_1 := 20
  const CHANNELS_2 := 21

  const BITDEPTH := 24

  type Row = b: seq<bool> | |b| == ROW witness seq(ROW, i => false)

  datatype ObjectType = MPEG2_AAC_LC | MPEG4_AAC_LC

  datatype AacParameters = AacParameters(codec: CodecParameters, objectType: ObjectType)

  function SamplingFrequencyBit(hz: int): int {
    if hz == 8000 then 8 else if hz == 11025 then 9 else if hz == 12000 then 10 else if hz == 16000 then 11
    else if hz == 22050 then 12 else if hz == 24000 then 13 else if hz == 32000 then 14 else if hz == 44100 then 15
    else if hz == 48000 then 16 else if hz == 64000 then 17 else if hz == 88200 then 18 else if hz == 96000 then 19
    else -1
  }

  function SamplingFrequencyValue(bit: int): int {
    if bit == 8 then 8000 else if bit == 9 then 11025 else if bit == 10 then 12000 else if bit == 11 then 16000
    else if bit == 12 then 22050 else if bit == 13 then 24000 else if bit == 14 then 32000 else if bit == 15 then 44100
    else if bit == 16 then 48000 else if bit == 17 then 64000 else if bit == 18 then 88200 else if bit == 19 then 96000
    else 0
  }

  function ChannelsBit(mode: ChannelMode): int {
    match mode
    case MONO => CHANNELS_1
    case STEREO => CHANNELS_2
    case _ => -1
  }

  function ChannelModeEnum(bit: int): ChannelMode {
    if bit == CHANNELS_1 then MONO else if bit == CHANNELS_2 then STEREO else UNKNOWN
  }

  function ObjectTypeEnum(bit: int): ObjectType {
    if bit == OBJECT_TYPE_MPEG2_AAC_LC then MPEG2_AAC_LC else MPEG4_AAC_LC
  }

  function Enabled(): set<int> { {0, 1, 15, 16, 20, 21} }

  function WithRate(head: seq<bool>, vbr: bool, bitrate: int): Row
    requires |head| == VBR_SUPPORTED
  {
    head + [vbr] + BitsOf(bitrate, BITRATE_LEN)
  }

  function LocalCapabilities(): (l: Row)
    ensures forall i :: 0 <= i < VBR_SUPPORTED ==> l[i] == (i in Enabled())
  {
    WithRate(Marked(VBR_SUPPORTED, Enabled()), true, 0)
  }

  function Bitrate(c: Row): nat { Value(c[BITRATE..ROW]) }

  lemma RateLimit()
    ensures Pow2(BITRATE_LEN) == 0x80_0000
  {
    assert Pow2(8) == 256;
    assert Pow2(16) == 256 * 256;
  }

  lemma ReadRate(head: seq<bool>, vbr: bool, bitrate: int)
    requires |head| == VBR_SUPPORTED
    ensures var c := WithRate(head, vbr, bitrate);
            c[..VBR_SUPPORTED] == head && c[VBR_SUPPORTED] == vbr && Bitrate(c) == bitrate % 0x80_0000
  {
    ValueOfBitsOf(bitrate, BITRATE_LEN);
    RateLimit();
    RateSlices(head, vbr, BitsOf(bitrate, BITRATE_LEN));
  }

  lemma RateSlices(head: seq<bool>, vbr: bool, rate: seq<bool>)
    requires |head| == VBR_SUPPORTED && |rate| == BITRATE_LEN
    ensures var c := head + [vbr] + rate;
            c[..VBR_SUPPORTED] == head && c[VBR_SUPPORTED] == vbr && c[BITRATE..ROW] == rate
  {}

  // ----- parsing -----

  datatype Choice = Choice(objectType: int, samplingFrequency: int, channels: int) {
    predicate Complete() { objectType >= 0 && samplingFrequency >= 0 && channels >= 0 }

    function Head(): (head: seq<bool>)
      ensures |head| == VBR_SUPPORTED
    {
      Marked(VBR_SUPPORTED, {objectType, samplingFrequency, channels})
    }
  }

  predicate InFields(choice: Choice) {
    0 <= choice.objectType < 7 && 8 <= choice.samplingFrequency < 20 && 20 <= choice.channels < 24
  }

  function ActiveChoice(c: Row): Choice {
    Choice(ActiveBit(c, OBJECT_TYPE, 7), ActiveBit(c, SAMPLING_FREQUENCY, 12), ActiveBit(c, CHANNELS, 4))
  }

  function Described(choice: Choice, vbr: bool, bitrate: nat): AacParameters {
    AacParameters(
      CodecParameters(ChannelModeEnum(choice.channels), SamplingFrequencyValue(choice.samplingFrequency), BITDEPTH,
                      if vbr then 0 else bitrate, bitrate),
      ObjectTypeEnum(choice.objectType))
  }

  function CheckSelections(l: Row, c: Row): (status: A2dpStatus)
    ensures status == OK ==> InFields(ActiveChoice(c))
  {
    var active := ActiveChoice(c);
    if active.objectType < 0 then INVALID_OBJECT_TYPE
    else if !l[active.objectType] then NOT_SUPPORTED_OBJECT_TYPE
    else if active.samplingFrequency < 0 then INVALID_SAMPLING_FREQUENCY
    else if !l[active.samplingFrequency] then NOT_SUPPORTED_SAMPLING_FREQUENCY
    else if active.channels < 0 then INVALID_CHANNELS
    else if !l[active.channels] then NOT_SUPPORTED_CHANNELS
    else OK
  }

  function CheckRate(l: Row, c: Row): A2dpStatus {
    if c[VBR_SUPPORTED] && !l[VBR_SUPPORTED] then NOT_SUPPORTED_VBR
    else if c[VBR_SUPPORTED] && Bitrate(l) != 0 && Bitrate(c) > Bitrate(l) then NOT_SUPPORTED_BIT_RATE
    else OK
  }

  function ParseRow(l: Row, c: Row): Parsed<AacParameters> {
    var selections := CheckSelections(l, c);
    var rate := CheckRate(l, c);
    if selections != OK then Rejected(selections)
    else if rate != OK then Rejected(rate)
    else Accepted(Described(ActiveChoice(c), c[VBR_SUPPORTED], Bitrate(c)))
  }

  function ParseConfiguration(config: seq<bool>): Parsed<AacParameters> {
    if |config| != ROW then Rejected(BAD_LENGTH) else ParseRow(LocalCapabilities(), config)
  }

  // ----- building -----

  function ChooseObjectType(l: Row, r: Row): int {
    Prefer(l, r, OBJECT_TYPE_MPEG2_AAC_LC, Prefer(l, r, OBJECT_TYPE_MPEG4_AAC_LC, -1))
  }

  function ChooseFrequency(l: Row, r: Row, hinted: int): int {
    Prefer(l, r, hinted, Prefer(l, r, SAMPLING_FREQUENCY_96000, Prefer(l, r, SAMPLING_FREQUENCY_88200,
      Prefer(l, r, SAMPLING_FREQUENCY_48000, Prefer(l, r, SAMPLING_FREQUENCY_44100, -1)))))
  }

  function ChooseChannels(l: Row, r: Row, hinted: int): int {
    Prefer(l, r, hinted, Prefer(l, r, CHANNELS_2, Prefer(l, r, CHANNELS_1, -1)))
  }

  function HintedFrequency(hint: Option<CodecParameters>): int {
    if hint.Some? then SamplingFrequencyBit(hint.value.samplingFrequencyHz) else -1
  }

  function HintedChannels(hint: Option<CodecParameters>): int {
    if hint.Some? then ChannelsBit(hint.value.channelMode) else -1
  }

  function Choose(r: Row, hint: Option<CodecParameters>): Choice {
    var l := LocalCapabilities();
    Choice(ChooseObjectType(l, r), ChooseFrequency(l, r, HintedFrequency(hint)),
           ChooseChannels(l, r, HintedChannels(hint)))
  }

  // Variable bit rate is offered unless the hint asks for a minimum.
  function ChooseVbr(l: Row, r: Row, hint: Option<CodecParameters>): bool {
    (hint.None? || hint.value.minBitrate == 0) && l[VBR_SUPPORTED] && r[VBR_SUPPORTED]
  }

  function ChooseBitrate(l: Row, hint: Option<CodecParameters>): int {
    var bitrate := Bitrate(l);
    if hint.Some? && hint.value.maxBitrate > 0 && bitrate != 0 then
      if bitrate < hint.value.maxBitrate then bitrate else hint.value.maxBitrate
    else if hint.Some? && hint.value.maxBitrate > 0 then hint.value.maxBitrate
    else bitrate
  }

  function BuildConfiguration(remote: seq<bool>, hint: Option<CodecParameters>): Option<Row> {
    if |remote| != ROW then None
    else
      var l := LocalCapabilities();
      var choice := Choose(remote, hint);
      if !choice.Complete() then None
      else Some(WithRate(choice.Head(), ChooseVbr(l, remote, hint), ChooseBitrate(l, hint)))
  }

  // ----- properties -----

  lemma ChoiceIsActive(choice: Choice, c: Row)
    requires InFields(choice) && c[..VBR_SUPPORTED] == choice.Head()
    ensures ActiveChoice(c) == choice
  {
    var chosen := {choice.objectType, choice.samplingFrequency, choice.channels};
    MarkedActive(c, VBR_SUPPORTED, chosen, OBJECT_TYPE, 7, choice.objectType);
    MarkedActive(c, VBR_SUPPORTED, chosen, SAMPLING_FREQUENCY, 12, choice.samplingFrequency);
    MarkedActive(c, VBR_SUPPORTED, chosen, CHANNELS, 4, choice.channels);
  }

  ghost predicate AllShared(choice: Choice, r: Row) {
    var l := LocalCapabilities();
    && Shared(l, r, choice.objectType) && Shared(l, r, choice.samplingFrequency) && Shared(l, r, choice.channels)
  }

  ghost predicate AllFieldsShared(r: Row) {
    var l := LocalCapabilities();
    && SharesField(l, r, OBJECT_TYPE, 7) && SharesField(l, r, SAMPLING_FREQUENCY, 12) && SharesField(l, r, CHANNELS, 4)
  }

  ghost predicate FieldChoice(l: Row, r: Row, first: nat, len: nat, bit: int) {
    if SharesField(l, r, first, len) then first <= bit < first + len && Shared(l, r, bit) else bit == -1
  }

  lemma Choices(l: Row, r: Row, hint: Option<CodecParameters>)
    requires forall i :: 0 <= i < VBR_SUPPORTED ==> l[i] == (i in Enabled())
    ensures FieldChoice(l, r, OBJECT_TYPE, 7, ChooseObjectType(l, r))
    ensures FieldChoice(l, r, SAMPLING_FREQUENCY, 12, ChooseFrequency(l, r, HintedFrequency(hint)))
    ensures FieldChoice(l, r, CHANNELS, 4, ChooseChannels(l, r, HintedChannels(hint)))
  {}

  lemma ChoiceIsShared(r: Row, hint: Option<CodecParameters>)
    ensures var choice := Choose(r, hint);
            && (choice.Complete() <==> AllFieldsShared(r))
            && (choice.Complete() ==> InFields(choice) && AllShared(choice, r))
  {
    Choices(LocalCapabilities(), r, hint);
  }

  /** A configuration is built exactly when the length matches and each selection field has a bit that
      both sides support. */
  lemma BuildsIff(remote: seq<bool>, hint: Option<CodecParameters>)
    ensures BuildConfiguration(remote, hint).Some? <==> |remote| == ROW && AllFieldsShared(remote)
  {
    if |remote| == ROW { ChoiceIsShared(remote, hint); }
  }

  /** Every selection field of a built configuration has exactly one bit set, and both sides support
      it. */
  lemma BuiltFieldsAreShared(remote: Row, hint: Option<CodecParameters>)
    requires BuildConfiguration(remote, hint).Some?
    ensures ActiveChoice(BuildConfiguration(remote, hint).value) == Choose(remote, hint)
    ensures AllShared(ActiveChoice(BuildConfiguration(remote, hint).value), remote)
  {
    var l := LocalCapabilities();
    var choice := Choose(remote, hint);
    ChoiceIsShared(remote, hint);
    ReadRate(choice.Head(), ChooseVbr(l, remote, hint), ChooseBitrate(l, hint));
    ChoiceIsActive(choice, BuildConfiguration(remote, hint).value);
  }

  // What the codec prefers: MPEG-2 before MPEG-4, the highest frequency, two channels before one.
  ghost predicate Best(l: Row, r: Row, hint: Option<CodecParameters>, c: Choice) {
    && Lowest(l, r, OBJECT_TYPE, 7, c.objectType)
    && (if Shared(l, r, HintedFrequency(hint)) then c.samplingFrequency == HintedFrequency(hint)
        else Highest(l, r, SAMPLING_FREQUENCY, 12, c.samplingFrequency))
    && (if Shared(l, r, HintedChannels(hint)) then c.channels == HintedChannels(hint)
        else Highest(l, r, CHANNELS, 4, c.channels))
  }

  lemma ChoiceIsBest(l: Row, r: Row, hint: Option<CodecParameters>)
    requires forall i :: 0 <= i < VBR_SUPPORTED ==> l[i] == (i in Enabled())
    ensures ChooseObjectType(l, r) >= 0 ==> Lowest(l, r, OBJECT_TYPE, 7, ChooseObjectType(l, r))
    ensures var bit := ChooseFrequency(l, r, HintedFrequency(hint));
            bit >= 0 ==> if Shared(l, r, HintedFrequency(hint)) then bit == HintedFrequency(hint)
                         else Highest(l, r, SAMPLING_FREQUENCY, 12, bit)
    ensures var bit := ChooseChannels(l, r, HintedChannels(hint));
            bit >= 0 ==> if Shared(l, r, HintedChannels(hint)) then bit == HintedChannels(hint)
                         else Highest(l, r, CHANNELS, 4, bit)
  {}

  /** Every field of a built configuration is the hinted one where both sides support that, and
      otherwise the best of what both support. */
  lemma BestIsChosen(remote: Row, hint: Option<CodecParameters>)
    requires BuildConfiguration(remote, hint).Some?
    ensures Best(LocalCapabilities(), remote, hint, ActiveChoice(BuildConfiguration(remote, hint).value))
  {
    BuiltFieldsAreShared(remote, hint);
    ChoiceIsBest(LocalCapabilities(), remote, hint);
  }

  lemma BitsOfChoice(l: Row, r: Row, hint: Option<CodecParameters>, c: Choice, h: seq<bool>)
    requires forall i :: 0 <= i < VBR_SUPPORTED ==> l[i] == (i in Enabled())
    requires c == Choice(ChooseObjectType(l, r), ChooseFrequency(l, r, HintedFrequency(hint)),
                         ChooseChannels(l, r, HintedChannels(hint)))
    requires InFields(c) && h == c.Head()
    ensures h[0] == r[0] && h[1] == (r[1] && !r[0])
    ensures h[16] <==> r[16] && !(hint.Some? && hint.value.samplingFrequencyHz == 44100 && r[15])
    ensures h[15] <==> r[15] && !h[16]
    ensures h[21] <==> r[21] && !(hint.Some? && hint.value.channelMode == MONO && r[20])
    ensures h[20] <==> r[20] && !h[21]
    ensures forall i :: 0 <= i < VBR_SUPPORTED && h[i] ==> i in {0, 1, 15, 16, 20, 21}
  {}

  /** The first three bytes of a built configuration, bit by bit: MPEG-2 before MPEG-4; 48000 Hz unless
      44100 is hinted and offered; two channels unless one is; and nothing else. */
  lemma BuiltBits(remote: Row, hint: Option<CodecParameters>)
    requires BuildConfiguration(remote, hint).Some?
    ensures var h, r := BuildConfiguration(remote, hint).value[..VBR_SUPPORTED], remote;
            && h[0] == r[0] && h[1] == (r[1] && !r[0])
            && (h[16] <==> r[16] && !(hint.Some? && hint.value.samplingFrequencyHz == 44100 && r[15]))
            && (h[15] <==> r[15] && !h[16])
            && (h[21] <==> r[21] && !(hint.Some? && hint.value.channelMode == MONO && r[20]))
            && (h[20] <==> r[20] && !h[21])
            && forall i :: 0 <= i < VBR_SUPPORTED && h[i] ==> i in {0, 1, 15, 16, 20, 21}
  {
    var l := LocalCapabilities();
    var choice := Choose(remote, hint);
    ChoiceIsShared(remote, hint);
    ReadRate(choice.Head(), ChooseVbr(l, remote, hint), ChooseBitrate(l, hint));
    BitsOfChoice(l, remote, hint, choice, choice.Head());
  }

  /** And the last three: variable rate if the remote has it and no minimum rate is hinted, and the
      hinted maximum, cut to 23 bits, or 0. */
  lemma BuiltRate(remote: Row, hint: Option<CodecParameters>)
    requires BuildConfiguration(remote, hint).Some?
    ensures var c := BuildConfiguration(remote, hint).value;
            && (c[24] <==> remote[24] && (hint.None? || hint.value.minBitrate == 0))
            && Value(c[25..48]) ==
               if hint.Some? && hint.value.maxBitrate > 0 then hint.value.maxBitrate % 0x80_0000 else 0
  {
    var l := LocalCapabilities();
    LocalRate();
    RateOfHint(l, remote, hint);
    ReadRate(Choose(remote, hint).Head(), ChooseVbr(l, remote, hint), ChooseBitrate(l, hint));
  }

  lemma RateOfHint(l: Row, r: Row, hint: Option<CodecParameters>)
    requires l[VBR_SUPPORTED] && Bitrate(l) == 0
    ensures ChooseVbr(l, r, hint) <==> r[24] && (hint.None? || hint.value.minBitrate == 0)
    ensures ChooseBitrate(l, hint) == if hint.Some? && hint.value.maxBitrate > 0 then hint.value.maxBitrate else 0
  {}

  // What the parser says of a row of the right length, the codec's own capabilities worked in.
  ghost function Verdict(c: Row): A2dpStatus {
    if !OneActive(c, 0, 7) then INVALID_OBJECT_TYPE
    else if !(c[0] || c[1]) then NOT_SUPPORTED_OBJECT_TYPE
    else if !OneActive(c, 8, 12) then INVALID_SAMPLING_FREQUENCY
    else if !(c[15] || c[16]) then NOT_SUPPORTED_SAMPLING_FREQUENCY
    else if !OneActive(c, 20, 4) then INVALID_CHANNELS
    else if !(c[20] || c[21]) then NOT_SUPPORTED_CHANNELS
    else OK
  }

  lemma VerdictOnSelections(l: Row, c: Row)
    requires forall i :: 0 <= i < VBR_SUPPORTED ==> l[i] == (i in Enabled())
    ensures Verdict(c) == CheckSelections(l, c)
  {
    ActiveIff(c, OBJECT_TYPE, 7);
    ActiveIff(c, SAMPLING_FREQUENCY, 12);
    ActiveIff(c, CHANNELS, 4);
  }

  /** The parser accepts exactly what it finds no fault with, and otherwise names the first one, fields in
      order; neither the variable rate nor the rate is ever refused. */
  lemma FirstFaultIsNamed(config: seq<bool>)
    ensures |config| != ROW ==> ParseConfiguration(config) == Rejected(BAD_LENGTH)
    ensures |config| == ROW ==>
              var p := ParseConfiguration(config);
              if Verdict(config) == OK then p.Accepted? else p == Rejected(Verdict(config))
  {
    LocalRate();
    if |config| == ROW { VerdictOnSelections(LocalCapabilities(), config); }
  }

  lemma LocalRate()
    ensures LocalCapabilities()[VBR_SUPPORTED] && Bitrate(LocalCapabilities()) == 0
  {
    ReadRate(Marked(VBR_SUPPORTED, Enabled()), true, 0);
  }

  /** Every choice of one enabled bit per field is parsed back as written, the rate modulo 2^23. */
  lemma ParsesAsWritten(choice: Choice, vbr: bool, bitrate: int)
    requires InFields(choice)
    requires choice.objectType in Enabled() && choice.samplingFrequency in Enabled() && choice.channels in Enabled()
    ensures ParseConfiguration(WithRate(choice.Head(), vbr, bitrate)) ==
            Accepted(Described(choice, vbr, bitrate % 0x80_0000))
  {
    var c := WithRate(choice.Head(), vbr, bitrate);
    ReadRate(choice.Head(), vbr, bitrate);
    ChoiceIsActive(choice, c);
    LocalRate();
  }

  /** Nothing else is accepted, but for the DRC bit, which the parser does not read. */
  lemma AcceptedIsWritten(c: Row)
    requires ParseConfiguration(c).Accepted?
    ensures var choice := ActiveChoice(c);
            && InFields(choice)
            && choice.objectType in Enabled() && choice.samplingFrequency in Enabled() && choice.channels in Enabled()
            && c[DRC_ENABLE := false] == WithRate(choice.Head(), c[VBR_SUPPORTED], Bitrate(c))
            && ParseConfiguration(c[DRC_ENABLE := false]) == ParseConfiguration(c)
  {
    var choice := ActiveChoice(c);
    RewriteRow(c, choice);
    ParsesAsWritten(choice, c[VBR_SUPPORTED], Bitrate(c));
  }

  /** The parameters of an accepted configuration are the fields of section 4.5 of A2DP. */
  lemma ParametersAreFields(c: Row)
    requires ParseConfiguration(c).Accepted?
    ensures var p := ParseConfiguration(c).parameters;
            && (p.objectType == MPEG2_AAC_LC <==> c[0]) && (p.objectType == MPEG4_AAC_LC <==> c[1])
            && (p.codec.samplingFrequencyHz == 44100 || p.codec.samplingFrequencyHz == 48000)
            && (p.codec.samplingFrequencyHz == 44100 <==> c[15]) && (p.codec.samplingFrequencyHz == 48000 <==> c[16])
            && (p.codec.channelMode == MONO <==> c[20]) && (p.codec.channelMode == STEREO <==> c[21])
            && p.codec.bitdepth == 24
            && p.codec.maxBitrate == Value(c[25..48])
            && p.codec.minBitrate == if c[24] then 0 else p.codec.maxBitrate
  {
    FieldsOfChoice(LocalCapabilities(), c);
  }

  lemma FieldsOfChoice(l: Row, c: Row)
    requires forall i :: 0 <= i < VBR_SUPPORTED ==> l[i] == (i in Enabled())
    requires CheckSelections(l, c) == OK
    ensures var a := ActiveChoice(c);
            var hz := SamplingFrequencyValue(a.samplingFrequency);
            && (ObjectTypeEnum(a.objectType) == MPEG2_AAC_LC <==> c[0])
            && (ObjectTypeEnum(a.objectType) == MPEG4_AAC_LC <==> c[1])
            && (hz == 44100 || hz == 48000) && (hz == 44100 <==> c[15]) && (hz == 48000 <==> c[16])
            && (ChannelModeEnum(a.channels) == MONO <==> c[20]) && (ChannelModeEnum(a.channels) == STEREO <==> c[21])
  {}

  lemma RewriteRow(c: Row, choice: Choice)
    requires choice == ActiveChoice(c) && InFields(choice)
    ensures c[DRC_ENABLE := false] == WithRate(choice.Head(), c[VBR_SUPPORTED], Bitrate(c))
    ensures Bitrate(c) % 0x80_0000 == Bitrate(c)
  {
    HeadIsActive(c, choice);
    BitsOfValue(c[BITRATE..ROW]);
    ValueBound(c[BITRATE..ROW]);
    RateLimit();
    var d := c[DRC_ENABLE := false];
    assert d == d[..VBR_SUPPORTED] + [c[VBR_SUPPORTED]] + c[BITRATE..ROW];
  }

  lemma HeadIsActive(c: Row, choice: Choice)
    requires InFields(choice)
    requires OnlyActive(c, OBJECT_TYPE, 7, choice.objectType)
    requires OnlyActive(c, SAMPLING_FREQUENCY, 12, choice.samplingFrequency)
    requires OnlyActive(c, CHANNELS, 4, choice.channels)
    ensures c[DRC_ENABLE := false][..VBR_SUPPORTED] == choice.Head()
  {}

  /** The factory's assertion: what the codec builds, it parses, with the parameters chosen. */
  lemma BuiltParses(remote: Row, hint: Option<CodecParameters>)
    requires BuildConfiguration(remote, hint).Some?
    ensures ParseConfiguration(BuildConfiguration(remote, hint).value) ==
            Accepted(Described(Choose(remote, hint), ChooseVbr(LocalCapabilities(), remote, hint),
                               ChooseBitrate(LocalCapabilities(), hint) % 0x80_0000))
  {
    ChoiceIsShared(remote, hint);
    ParsesAsWritten(Choose(remote, hint), ChooseVbr(LocalCapabilities(), remote, hint),
                    ChooseBitrate(LocalCapabilities(), hint));
  }

  /** The hinted rates through build and parse: the maximum comes back unchanged exactly when it fits
      the 23 bits of the field, and the minimum is 0 exactly when variable bit rate was agreed on or
      the maximum came back as 0. */
  lemma RatesComeBack(remote: Row, hint: CodecParameters)
    requires BuildConfiguration(remote, Some(hint)).Some?
    ensures var p := ParseConfiguration(BuildConfiguration(remote, Some(hint)).value);
            && p.Accepted?
            && (p.parameters.codec.maxBitrate == hint.maxBitrate <==> 0 <= hint.maxBitrate < 0x80_0000)
            && p.parameters.codec.minBitrate ==
               if hint.minBitrate == 0 && remote[VBR_SUPPORTED] then 0 else p.parameters.codec.maxBitrate
  {
    BuiltParses(remote, Some(hint));
    LocalRate();
    var bitrate := ChooseBitrate(LocalCapabilities(), Some(hint));
    assert bitrate == if hint.maxBitrate > 0 then hint.maxBitrate else 0;
    InField(bitrate);
  }

  lemma InField(v: nat)
    ensures 0 <= v % 0x80_0000 < 0x80_0000
    ensures v % 0x80_0000 == v <==> v < 0x80_0000
  {}

  /** A hinted frequency or channel mode is the one parsed back exactly when both sides have its bit. */
  lemma HintIsHonoured(remote: Row, hint: CodecParameters)
    requires BuildConfiguration(remote, Some(hint)).Some?
    ensures var p := ParseConfiguration(BuildConfiguration(remote, Some(hint)).value);
            var l := LocalCapabilities();
            && p.Accepted?
            && (p.parameters.codec.samplingFrequencyHz == hint.samplingFrequencyHz <==>
                Shared(l, remote, SamplingFrequencyBit(hint.samplingFrequencyHz)))
            && (p.parameters.codec.channelMode == hint.channelMode <==>
                Shared(l, remote, ChannelsBit(hint.channelMode)))
  {
    BuiltParses(remote, Some(hint));
    ChoiceIsShared(remote, Some(hint));
    FrequencyIsHonoured(LocalCapabilities(), remote, hint.samplingFrequencyHz);
    var choice := Choose(remote, Some(hint));
    assert choice.samplingFrequency ==
      ChooseFrequency(LocalCapabilities(), remote, SamplingFrequencyBit(hint.samplingFrequencyHz));
  }

  lemma FrequencyIsHonoured(l: Row, r: Row, hz: int)
    requires forall i :: 0 <= i < VBR_SUPPORTED ==> l[i] == (i in Enabled())
    requires ChooseFrequency(l, r, SamplingFrequencyBit(hz)) >= 0
    ensures SamplingFrequencyValue(ChooseFrequency(l, r, SamplingFrequencyBit(hz))) == hz <==>
            Shared(l, r, SamplingFrequencyBit(hz))
  {}
}
