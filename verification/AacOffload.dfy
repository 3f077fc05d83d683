/** The AAC codec object, working on byte buffers. */
module AacOffload {
  import opened Options
  import opened BitSequences
  import opened A2dpBitField
  import opened A2dpTypes
  import opened A2dpSelection
  import opened AacCodec

  class A2dpOffloadCodecAac {
    const capabilities: array<bv8>
    var samplingFrequencyHz: seq<int>
    var channelMode: seq<ChannelMode>
    var bitdepth: seq<int>

    ghost predicate Valid()
      reads this, capabilities
    {
      && capabilities.Length == CAPABILITIES_SIZE
      && Bits(capabilities[..]) == LocalCapabilities()
    }

    constructor ()
      ensures Valid() && fresh(capabilities)
      ensures samplingFrequencyHz == [44100, 48000]
      ensures channelMode == [MONO, STEREO]
      ensures bitdepth == [BITDEPTH]
    {
      capabilities := new bv8[CAPABILITIES_SIZE](_ => 0);
      samplingFrequencyHz, channelMode, bitdepth := [], [], [];
      new;
      ClearRow(capabilities[..]);
      var bits := new A2dpBits(capabilities);
      Enable(bits);
      samplingFrequencyHz := ListFrequencies(bits);
      channelMode := ListModes(bits);
      bitdepth := bitdepth + [BITDEPTH];
    }

    static method Enable(bits: A2dpBits)
      requires bits.data.Length == CAPABILITIES_SIZE && forall i :: 0 <= i < ROW ==> !bits.Row()[i]
      modifies bits.data
      ensures bits.Row() == LocalCapabilities()
    {
      bits.Set(OBJECT_TYPE_MPEG2_AAC_LC, 1);
      bits.Set(OBJECT_TYPE_MPEG4_AAC_LC, 1);
      bits.Set(SAMPLING_FREQUENCY_44100, 1);
      bits.Set(SAMPLING_FREQUENCY_48000, 1);
      bits.Set(SAMPLING_FREQUENCY_88200, 0);
      bits.Set(SAMPLING_FREQUENCY_96000, 0);
      EnableChannels(bits);
    }

    static method EnableChannels(bits: A2dpBits)
      requires bits.data.Length == CAPABILITIES_SIZE
      requires forall i :: 0 <= i < ROW ==> bits.Row()[i] == (i in {0, 1, 15, 16})
      modifies bits.data
      ensures bits.Row() == LocalCapabilities()
    {
      bits.Set(CHANNELS_1, 1);
      bits.Set(CHANNELS_2, 1);
      bits.SetRange(VBR_SUPPORTED, 1, 1);
      ZeroRate(bits.Row());
    }

    static method ListFrequencies(bits: A2dpBits) returns (rates: seq<int>)
      requires bits.data.Length == CAPABILITIES_SIZE && bits.Row() == LocalCapabilities()
      ensures rates == [44100, 48000]
    {
      rates := [];
      var all := [8000, 11025, 12000, 16000, 22050, 24000, 32000, 44100, 48000, 64000, 88200, 96000];
      for i := 0 to |all|
        invariant rates == if i <= 7 then [] else if i == 8 then [44100] else [44100, 48000]
      {
        if bits.Get(SamplingFrequencyBit(all[i])) {
          rates := rates + [all[i]];
        }
      }
    }

    static method ListModes(bits: A2dpBits) returns (modes: seq<ChannelMode>)
      requires bits.data.Length == CAPABILITIES_SIZE && bits.Row() == LocalCapabilities()
      ensures modes == [MONO, STEREO]
    {
      modes := [];
      var all := [MONO, STEREO];
      for i := 0 to |all|
        invariant modes == all[..i]
      {
        if bits.Get(ChannelsBit(all[i])) {
          modes := modes + [all[i]];
        }
      }
    }

    static method ParseSelections(config: A2dpBits, lcaps: A2dpBits) returns (status: A2dpStatus, active: Choice)
      requires config.data.Length == lcaps.data.Length == CAPABILITIES_SIZE
      ensures status == CheckSelections(lcaps.Row(), config.Row())
      ensures status == OK ==> active == ActiveChoice(config.Row())
    {
      active := Choice(-1, -1, -1);
      var objectType := config.FindActiveBit(OBJECT_TYPE, 7);
      if objectType < 0 { return INVALID_OBJECT_TYPE, active; }
      if !lcaps.Get(objectType) { return NOT_SUPPORTED_OBJECT_TYPE, active; }

      var samplingFrequency := config.FindActiveBit(SAMPLING_FREQUENCY, 12);
      if samplingFrequency < 0 { return INVALID_SAMPLING_FREQUENCY, active; }
      if !lcaps.Get(samplingFrequency) { return NOT_SUPPORTED_SAMPLING_FREQUENCY, active; }

      var channels := config.FindActiveBit(CHANNELS, 4);
      if channels < 0 { return INVALID_CHANNELS, active; }
      if !lcaps.Get(channels) { return NOT_SUPPORTED_CHANNELS, active; }
      return OK, Choice(objectType, samplingFrequency, channels);
    }

    static method ParseRate(config: A2dpBits, lcaps: A2dpBits) returns (status: A2dpStatus, vbr: bool, bitrate: nat)
      requires config.data.Length == lcaps.data.Length == CAPABILITIES_SIZE
      ensures status == CheckRate(lcaps.Row(), config.Row())
      ensures status == OK ==> vbr == config.Row()[VBR_SUPPORTED] && bitrate == Bitrate(config.Row())
    {
      bitrate := 0;
      vbr := GetFlag(config);
      var localVbr := GetFlag(lcaps);
      if vbr && !localVbr { return NOT_SUPPORTED_VBR, vbr, bitrate; }
      bitrate := config.GetRange(BITRATE, BITRATE_LEN);
      var localBitrate := lcaps.GetRange(BITRATE, BITRATE_LEN);
      if vbr && localBitrate != 0 && bitrate > localBitrate { return NOT_SUPPORTED_BIT_RATE, vbr, bitrate; }
      status := OK;
    }

    // The variable bit rate field is a range of one bit.
    static method GetFlag(bits: A2dpBits) returns (flag: bool)
      requires bits.data.Length == CAPABILITIES_SIZE
      ensures flag == bits.Row()[VBR_SUPPORTED]
    {
      var v := bits.GetRange(VBR_SUPPORTED, 1);
      ghost var field := bits.Row()[VBR_SUPPORTED..VBR_SUPPORTED + 1];
      assert field == [bits.Row()[VBR_SUPPORTED]] && field[..0] == [];
      flag := v != 0;
    }

    method ParseConfiguration(configuration: array<bv8>) returns (r: Parsed<AacParameters>)
      requires Valid()
      ensures r == AacCodec.ParseConfiguration(Bits(configuration[..]))
    {
      if configuration.Length != capabilities.Length { return Rejected(BAD_LENGTH); }
      var config := new A2dpBits(configuration);
      var lcaps := new A2dpBits(capabilities);
      var status, active := ParseSelections(config, lcaps);
      if status != OK { return Rejected(status); }
      var checked, vbr, bitrate := ParseRate(config, lcaps);
      if checked != OK { return Rejected(checked); }
      r := Accepted(Described(active, vbr, bitrate));
    }

    static method SelectObjectType(config: A2dpBits, lcaps: A2dpBits, rcaps: A2dpBits) returns (ok: bool)
      requires config.data.Length == lcaps.data.Length == rcaps.data.Length == CAPABILITIES_SIZE
      requires config.data != lcaps.data && config.data != rcaps.data
      modifies config.data
      ensures var bit := ChooseObjectType(lcaps.Row(), rcaps.Row());
              ok == (bit >= 0) && (ok ==> bit < ROW && config.Row() == old(config.Row())[bit := true])
    {
      ok := true;
      if lcaps.Get(OBJECT_TYPE_MPEG2_AAC_LC) && rcaps.Get(OBJECT_TYPE_MPEG2_AAC_LC) {
        config.Set(OBJECT_TYPE_MPEG2_AAC_LC, 1);
      } else if lcaps.Get(OBJECT_TYPE_MPEG4_AAC_LC) && rcaps.Get(OBJECT_TYPE_MPEG4_AAC_LC) {
        config.Set(OBJECT_TYPE_MPEG4_AAC_LC, 1);
      } else {
        ok := false;
      }
    }

    static method SelectFrequency(config: A2dpBits, lcaps: A2dpBits, rcaps: A2dpBits, hint: Option<CodecParameters>)
        returns (ok: bool)
      requires config.data.Length == lcaps.data.Length == rcaps.data.Length == CAPABILITIES_SIZE
      requires config.data != lcaps.data && config.data != rcaps.data
      modifies config.data
      ensures var bit := ChooseFrequency(lcaps.Row(), rcaps.Row(), HintedFrequency(hint));
              ok == (bit >= 0) && (ok ==> bit < ROW && config.Row() == old(config.Row())[bit := true])
    {
      var hinted := if hint.Some? then SamplingFrequencyBit(hint.value.samplingFrequencyHz) else -1;
      ok := true;
      if hinted >= 0 && lcaps.Get(hinted) && rcaps.Get(hinted) {
        config.Set(hinted, 1);
      } else if lcaps.Get(SAMPLING_FREQUENCY_96000) && rcaps.Get(SAMPLING_FREQUENCY_96000) {
        config.Set(SAMPLING_FREQUENCY_96000, 1);
      } else if lcaps.Get(SAMPLING_FREQUENCY_88200) && rcaps.Get(SAMPLING_FREQUENCY_88200) {
        config.Set(SAMPLING_FREQUENCY_88200, 1);
      } else if lcaps.Get(SAMPLING_FREQUENCY_48000) && rcaps.Get(SAMPLING_FREQUENCY_48000) {
        config.Set(SAMPLING_FREQUENCY_48000, 1);
      } else if lcaps.Get(SAMPLING_FREQUENCY_44100) && rcaps.Get(SAMPLING_FREQUENCY_44100) {
        config.Set(SAMPLING_FREQUENCY_44100, 1);
      } else {
        ok := false;
      }
    }

    static method SelectChannels(config: A2dpBits, lcaps: A2dpBits, rcaps: A2dpBits, hint: Option<CodecParameters>)
        returns (ok: bool)
      requires config.data.Length == lcaps.data.Length == rcaps.data.Length == CAPABILITIES_SIZE
      requires config.data != lcaps.data && config.data != rcaps.data
      modifies config.data
      ensures var bit := ChooseChannels(lcaps.Row(), rcaps.Row(), HintedChannels(hint));
              ok == (bit >= 0) && (ok ==> bit < ROW && config.Row() == old(config.Row())[bit := true])
    {
      var hinted := if hint.Some? then ChannelsBit(hint.value.channelMode) else -1;
      ok := true;
      if hinted >= 0 && lcaps.Get(hinted) && rcaps.Get(hinted) {
        config.Set(hinted, 1);
      } else if lcaps.Get(CHANNELS_2) && rcaps.Get(CHANNELS_2) {
        config.Set(CHANNELS_2, 1);
      } else if lcaps.Get(CHANNELS_1) && rcaps.Get(CHANNELS_1) {
        config.Set(CHANNELS_1, 1);
      } else {
        ok := false;
      }
    }

    // The three selections in turn, up to the first that fails.
    static method SelectFields(config: A2dpBits, lcaps: A2dpBits, rcaps: A2dpBits, hint: Option<CodecParameters>)
        returns (ok: bool)
      requires config.data.Length == lcaps.data.Length == rcaps.data.Length == CAPABILITIES_SIZE
      requires config.data != lcaps.data && config.data != rcaps.data
      requires lcaps.Row() == LocalCapabilities() && forall i :: 0 <= i < ROW ==> !config.Row()[i]
      modifies config.data
      ensures var choice := Choose(rcaps.Row(), hint);
              ok == choice.Complete() && (ok ==> config.Row() == WithRate(choice.Head(), false, 0))
    {
      ghost var zero: Row := config.Row();
      ok := SelectObjectType(config, lcaps, rcaps);
      if !ok { return; }
      ok := SelectFrequency(config, lcaps, rcaps, hint);
      if !ok { return; }
      ok := SelectChannels(config, lcaps, rcaps, hint);
      if !ok { return; }
      ChoiceIsShared(rcaps.Row(), hint);
      HeadFromZero(zero, Choose(rcaps.Row(), hint));
    }

    static method StoreFlag(config: A2dpBits, ghost head: seq<bool>, flag: bool)
      requires config.data.Length == CAPABILITIES_SIZE
      requires |head| == VBR_SUPPORTED && config.Row() == WithRate(head, false, 0)
      modifies config.data
      ensures config.Row() == WithRate(head, flag, 0)
    {
      OneBit(if flag then 1 else 0);
      config.SetRange(VBR_SUPPORTED, 1, if flag then 1 else 0);
    }

    static method StoreVbr(config: A2dpBits, lcaps: A2dpBits, rcaps: A2dpBits, hint: Option<CodecParameters>,
        ghost head: seq<bool>)
      requires config.data.Length == lcaps.data.Length == rcaps.data.Length == CAPABILITIES_SIZE
      requires config.data != lcaps.data && config.data != rcaps.data
      requires |head| == VBR_SUPPORTED && config.Row() == WithRate(head, false, 0)
      modifies config.data
      ensures config.Row() == WithRate(head, ChooseVbr(lcaps.Row(), rcaps.Row(), hint), 0)
    {
      if hint.None? || hint.value.minBitrate == 0 {
        var localVbr := GetFlag(lcaps);
        var remoteVbr := GetFlag(rcaps);
        StoreFlag(config, head, localVbr && remoteVbr);
      }
    }

    static method SelectBitrate(lcaps: A2dpBits, hint: Option<CodecParameters>) returns (bitrate: int)
      requires lcaps.data.Length == CAPABILITIES_SIZE
      ensures bitrate == ChooseBitrate(lcaps.Row(), hint)
    {
      bitrate := lcaps.GetRange(BITRATE, BITRATE_LEN);
      if hint.Some? && hint.value.maxBitrate > 0 && bitrate != 0 {
        bitrate := if bitrate < hint.value.maxBitrate then bitrate else hint.value.maxBitrate;
      } else if hint.Some? && hint.value.maxBitrate > 0 {
        bitrate := hint.value.maxBitrate;
      }
    }

    static method StoreBitrate(config: A2dpBits, ghost head: seq<bool>, ghost vbr: bool, bitrate: int)
      requires config.data.Length == CAPABILITIES_SIZE
      requires |head| == VBR_SUPPORTED && config.Row() == WithRate(head, vbr, 0)
      modifies config.data
      ensures config.Row() == WithRate(head, vbr, bitrate)
    {
      config.SetRange(BITRATE, BITRATE_LEN, bitrate);
    }

    method BuildConfiguration(remoteCapabilities: array<bv8>, hint: Option<CodecParameters>)
        returns (ok: bool, configuration: array<bv8>)
      requires Valid()
      ensures fresh(configuration)
      ensures var built := AacCodec.BuildConfiguration(Bits(remoteCapabilities[..]), hint);
              ok == built.Some? && (ok ==> Bits(configuration[..]) == built.value)
    {
      configuration := new bv8[capabilities.Length](_ => 0);
      if remoteCapabilities.Length != capabilities.Length { return false, configuration; }
      var lcaps := new A2dpBits(capabilities);
      var rcaps := new A2dpBits(remoteCapabilities);
      var config := new A2dpBits(configuration);
      ClearRow(configuration[..]);
      ok := SelectFields(config, lcaps, rcaps, hint);
      if !ok { return; }
      ghost var head := Choose(rcaps.Row(), hint).Head();
      StoreVbr(config, lcaps, rcaps, hint, head);
      var bitrate := SelectBitrate(lcaps, hint);
      StoreBitrate(config, head, ChooseVbr(lcaps.Row(), rcaps.Row(), hint), bitrate);
    }
  }

  lemma OneBit(v: int)
    requires v == 0 || v == 1
    ensures BitsOf(v, 1) == [v == 1]
  {}

  // A row with the enabled bits, variable bit rate and no rate is the row of local capabilities.
  lemma ZeroRate(row: Row)
    requires row[..VBR_SUPPORTED] == Marked(VBR_SUPPORTED, Enabled()) && row[VBR_SUPPORTED]
    requires forall i :: BITRATE <= i < ROW ==> !row[i]
    ensures row == LocalCapabilities()
  {
    ClearBits(BITRATE_LEN);
    assert row == row[..VBR_SUPPORTED] + [true] + row[BITRATE..ROW];
  }

  lemma HeadFromZero(zero: Row, choice: Choice)
    requires InFields(choice) && forall i :: 0 <= i < ROW ==> !zero[i]
    ensures zero[choice.objectType := true][choice.samplingFrequency := true][choice.channels := true] ==
            WithRate(choice.Head(), false, 0)
  {
    ClearBits(BITRATE_LEN);
  }
}
