/** The SBC codec object, working on byte buffers. */
module SbcOffload {
  import opened Options
  import opened BitSequences
  import opened A2dpBitField
  import opened A2dpTypes
  import opened A2dpSelection
  import opened SbcFormat
  import opened SbcCodec

  class A2dpOffloadCodecSbc {
    const capabilities: array<bv8>
    var samplingFrequencyHz: seq<int>
    var channelMode: seq<ChannelMode>
    var bitdepth: seq<int>

    ghost predicate Valid()
      reads this, capabilities
    {
      && capabilities.Length == CAPABILITIES_SIZE
      && Bits(capabilities[..]) == LocalCapabilities()
    }

    constructor ()
      ensures Valid() && fresh(capabilities)
      ensures samplingFrequencyHz == [44100, 48000]
      ensures channelMode == [MONO, DUALMONO, STEREO]
      ensures bitdepth == [BITDEPTH]
    {
      capabilities := new bv8[CAPABILITIES_SIZE](_ => 0);
      samplingFrequencyHz, channelMode, bitdepth := [], [], [];
      new;
      ClearRow(capabilities[..]);
      var bits := new A2dpBits(capabilities);
      EnableSelections(bits);
      EnableBitpools(bits);
      samplingFrequencyHz := ListFrequencies(bits);
      channelMode := ListModes(bits);
      bitdepth := bitdepth + [BITDEPTH];
    }

    static method ListFrequencies(bits: A2dpBits) returns (rates: seq<int>)
      requires bits.data.Length == CAPABILITIES_SIZE && bits.Row() == LocalCapabilities()
      ensures rates == [44100, 48000]
    {
      rates := [];
      var all := [16000, 32000, 44100, 48000];
      for i := 0 to |all|
        invariant rates == if i <= 2 then [] else if i == 3 then [44100] else [44100, 48000]
      {
        if bits.Get(SamplingFrequencyBit(all[i])) {
          rates := rates + [all[i]];
        }
      }
    }

    static method ListModes(bits: A2dpBits) returns (modes: seq<ChannelMode>)
      requires bits.data.Length == CAPABILITIES_SIZE && bits.Row() == LocalCapabilities()
      ensures modes == [MONO, DUALMONO, STEREO]
    {
      modes := [];
      var all := [MONO, DUALMONO, STEREO];
      for i := 0 to |all|
        invariant modes == all[..i]
      {
        if bits.Get(ChannelModeBit(all[i])) {
          modes := modes + [all[i]];
        }
      }
    }

    static method EnableSelections(bits: A2dpBits)
      requires bits.data.Length == CAPABILITIES_SIZE && forall i :: 0 <= i < ROW ==> !bits.Row()[i]
      modifies bits.data
      ensures bits.Row()[..16] == Marked(16, Selections())
    {
      bits.Set(SAMPLING_FREQUENCY_44100, 1);
      bits.Set(SAMPLING_FREQUENCY_48000, 1);
      bits.Set(CHANNEL_MODE_MONO, 1);
      bits.Set(CHANNEL_MODE_DUAL_CHANNEL, 1);
      bits.Set(CHANNEL_MODE_STEREO, 1);
      bits.Set(CHANNEL_MODE_JOINT_STEREO, 1);
      bits.Set(BLOCK_LENGTH_4, 1);
      bits.Set(BLOCK_LENGTH_8, 1);
      bits.Set(BLOCK_LENGTH_12, 1);
      bits.Set(BLOCK_LENGTH_16, 1);
      bits.Set(SUBBANDS_4, 1);
      bits.Set(SUBBANDS_8, 1);
      bits.Set(SUBBANDS_4, 1);
      bits.Set(SUBBANDS_8, 1);
      bits.Set(ALLOCATION_METHOD_SNR, 1);
      bits.Set(ALLOCATION_METHOD_LOUDNESS, 1);
    }

    static method EnableBitpools(bits: A2dpBits)
      requires bits.data.Length == CAPABILITIES_SIZE && bits.Row()[..16] == Marked(16, Selections())
      modifies bits.data
      ensures bits.Row() == LocalCapabilities()
    {
      bits.SetRange(MINIMUM_BITPOOL, 8, DEFAULT_MINIMUM_BITPOOL);
      bits.SetRange(MAXIMUM_BITPOOL, 8, DEFAULT_MAXIMUM_BITPOOL);
    }
  
    static method ParseSelections(config: A2dpBits, lcaps: A2dpBits) returns (status: A2dpStatus, active: Choice)
      requires config.data.Length == lcaps.data.Length == CAPABILITIES_SIZE
      ensures status == CheckSelections(lcaps.Row(), config.Row())
      ensures status == OK ==> active == ActiveChoice(config.Row())
    {
      active := Choice(-1, -1, -1, -1, -1);
      var samplingFrequency := config.FindActiveBit(SAMPLING_FREQUENCY, 4);
      if samplingFrequency < 0 { return INVALID_SAMPLING_FREQUENCY, active; }
      if !lcaps.Get(samplingFrequency) { return NOT_SUPPORTED_SAMPLING_FREQUENCY, active; }

      var channelMode := config.FindActiveBit(CHANNEL_MODE, 4);
      if channelMode < 0 { return INVALID_CHANNEL_MODE, active; }
      if !lcaps.Get(channelMode) { return NOT_SUPPORTED_CHANNEL_MODE, active; }

      var blockLength := config.FindActiveBit(BLOCK_LENGTH, 4);
      if blockLength < 0 { return INVALID_BLOCK_LENGTH, active; }

      var subbands := config.FindActiveBit(SUBBANDS, 2);
      if subbands < 0 { return INVALID_SUBBANDS, active; }
      if !lcaps.Get(subbands) { return NOT_SUPPORTED_SUBBANDS, active; }

      var allocationMethod := config.FindActiveBit(ALLOCATION_METHOD, 2);
      if allocationMethod < 0 { return INVALID_ALLOCATION_METHOD, active; }
      if !lcaps.Get(allocationMethod) { return NOT_SUPPORTED_ALLOCATION_METHOD, active; }
      return OK, Choice(samplingFrequency, channelMode, blockLength, subbands, allocationMethod);
    }

    static method ParseBitpools(config: A2dpBits, lcaps: A2dpBits) returns (status: A2dpStatus, low: nat, high: nat)
      requires config.data.Length == lcaps.data.Length == CAPABILITIES_SIZE
      ensures status == CheckBitpools(lcaps.Row(), config.Row())
      ensures status == OK ==> low == MinimumBitpool(config.Row()) && high == MaximumBitpool(config.Row())
    {
      high := 0;
      low := config.GetRange(MINIMUM_BITPOOL, 8);
      if low < 2 || low > 250 { return INVALID_MINIMUM_BITPOOL_VALUE, low, high; }
      var localMinimum := lcaps.GetRange(MINIMUM_BITPOOL, 8);
      if low < localMinimum { return NOT_SUPPORTED_MINIMUM_BITPOOL_VALUE, low, high; }

      high := config.GetRange(MAXIMUM_BITPOOL, 8);
      if high < 2 || high > 250 { return INVALID_MAXIMUM_BITPOOL_VALUE, low, high; }
      var localMaximum := lcaps.GetRange(MAXIMUM_BITPOOL, 8);
      if high > localMaximum { return NOT_SUPPORTED_MAXIMUM_BITPOOL_VALUE, low, high; }
      status := OK;
    }

    method ParseConfiguration(configuration: array<bv8>) returns (r: Parsed<SbcParameters>)
      requires Valid()
      ensures r == SbcCodec.ParseConfiguration(Bits(configuration[..]))
    {
      if configuration.Length != capabilities.Length { return Rejected(BAD_LENGTH); }
      var config := new A2dpBits(configuration);
      var lcaps := new A2dpBits(capabilities);
      var status, active := ParseSelections(config, lcaps);
      if status != OK { return Rejected(status); }
      var checked, low, high := ParseBitpools(config, lcaps);
      if checked != OK { return Rejected(checked); }
      var c := config.Row();
      var minBitrate := ComputeBitrate(c, low);
      var maxBitrate := ComputeBitrate(c, high);
      r := Accepted(SbcParameters(
        CodecParameters(ChannelModeEnum(active.channelMode), SamplingFrequencyValue(active.samplingFrequency), BITDEPTH,
                        minBitrate, maxBitrate),
        if active.allocationMethod == ALLOCATION_METHOD_SNR then SNR else LOUDNESS,
        BlockLengthValue(active.blockLength), SubbandsValue(active.subbands), low, high));
    }

    // A bit of one field: the hinted one if both sides have it, else the first in order of preference.
    static method SelectFrequency(config: A2dpBits, lcaps: A2dpBits, rcaps: A2dpBits, hint: Option<CodecParameters>)
        returns (ok: bool)
      requires config.data.Length == lcaps.data.Length == rcaps.data.Length == CAPABILITIES_SIZE
      requires config.data != lcaps.data && config.data != rcaps.data
      modifies config.data
      ensures var bit := ChooseFrequency(lcaps.Row(), rcaps.Row(), HintedFrequency(hint));
              ok == (bit >= 0) && (ok ==> bit < ROW && config.Row() == old(config.Row())[bit := true])
    {
      var hinted := if hint.Some? then SamplingFrequencyBit(hint.value.samplingFrequencyHz) else -1;
      ok := true;
      if hinted >= 0 && lcaps.Get(hinted) && rcaps.Get(hinted) {
        config.Set(hinted, 1);
      } else if lcaps.Get(SAMPLING_FREQUENCY_44100) && rcaps.Get(SAMPLING_FREQUENCY_44100) {
        config.Set(SAMPLING_FREQUENCY_44100, 1);
      } else if lcaps.Get(SAMPLING_FREQUENCY_48000) && rcaps.Get(SAMPLING_FREQUENCY_48000) {
        config.Set(SAMPLING_FREQUENCY_48000, 1);
      } else {
        ok := false;
      }
    }

    static method SelectMode(config: A2dpBits, lcaps: A2dpBits, rcaps: A2dpBits, hint: Option<CodecParameters>)
        returns (ok: bool)
      requires config.data.Length == lcaps.data.Length == rcaps.data.Length == CAPABILITIES_SIZE
      requires config.data != lcaps.data && config.data != rcaps.data
      modifies config.data
      ensures var bit := ChooseMode(lcaps.Row(), rcaps.Row(), HintedMode(hint));
              ok == (bit >= 0) && (ok ==> bit < ROW && config.Row() == old(config.Row())[bit := true])
    {
      var hinted := if hint.Some? then ChannelModeBit(hint.value.channelMode) else -1;
      ok := true;
      if hinted >= 0 && lcaps.Get(hinted) && rcaps.Get(hinted) {
        config.Set(hinted, 1);
      } else if lcaps.Get(CHANNEL_MODE_JOINT_STEREO) && rcaps.Get(CHANNEL_MODE_JOINT_STEREO) {
        config.Set(CHANNEL_MODE_JOINT_STEREO, 1);
      } else if lcaps.Get(CHANNEL_MODE_STEREO) && rcaps.Get(CHANNEL_MODE_STEREO) {
        config.Set(CHANNEL_MODE_STEREO, 1);
      } else if lcaps.Get(CHANNEL_MODE_DUAL_CHANNEL) && rcaps.Get(CHANNEL_MODE_DUAL_CHANNEL) {
        config.Set(CHANNEL_MODE_DUAL_CHANNEL, 1);
      } else if lcaps.Get(CHANNEL_MODE_MONO) && rcaps.Get(CHANNEL_MODE_MONO) {
        config.Set(CHANNEL_MODE_MONO, 1);
      } else {
        ok := false;
      }
    }

    static method SelectBlockLength(config: A2dpBits, lcaps: A2dpBits, rcaps: A2dpBits) returns (ok: bool)
      requires config.data.Length == lcaps.data.Length == rcaps.data.Length == CAPABILITIES_SIZE
      requires config.data != lcaps.data && config.data != rcaps.data
      modifies config.data
      ensures var bit := ChooseBlockLength(lcaps.Row(), rcaps.Row());
              ok == (bit >= 0) && (ok ==> bit < ROW && config.Row() == old(config.Row())[bit := true])
    {
      ok := true;
      if lcaps.Get(BLOCK_LENGTH_16) && rcaps.Get(BLOCK_LENGTH_16) {
        config.Set(BLOCK_LENGTH_16, 1);
      } else if lcaps.Get(BLOCK_LENGTH_12) && rcaps.Get(BLOCK_LENGTH_12) {
        config.Set(BLOCK_LENGTH_12, 1);
      } else if lcaps.Get(BLOCK_LENGTH_8) && rcaps.Get(BLOCK_LENGTH_8) {
        config.Set(BLOCK_LENGTH_8, 1);
      } else if lcaps.Get(BLOCK_LENGTH_4) && rcaps.Get(BLOCK_LENGTH_4) {
        config.Set(BLOCK_LENGTH_4, 1);
      } else {
        ok := false;
      }
    }

    static method SelectSubbands(config: A2dpBits, lcaps: A2dpBits, rcaps: A2dpBits) returns (ok: bool)
      requires config.data.Length == lcaps.data.Length == rcaps.data.Length == CAPABILITIES_SIZE
      requires config.data != lcaps.data && config.data != rcaps.data
      modifies config.data
      ensures var bit := ChooseSubbands(lcaps.Row(), rcaps.Row());
              ok == (bit >= 0) && (ok ==> bit < ROW && config.Row() == old(config.Row())[bit := true])
    {
      ok := true;
      if lcaps.Get(SUBBANDS_8) && rcaps.Get(SUBBANDS_8) {
        config.Set(SUBBANDS_8, 1);
      } else if lcaps.Get(SUBBANDS_4) && rcaps.Get(SUBBANDS_4) {
        config.Set(SUBBANDS_4, 1);
      } else {
        ok := false;
      }
    }

    static method SelectAllocation(config: A2dpBits, lcaps: A2dpBits, rcaps: A2dpBits) returns (ok: bool)
      requires config.data.Length == lcaps.data.Length == rcaps.data.Length == CAPABILITIES_SIZE
      requires config.data != lcaps.data && config.data != rcaps.data
      modifies config.data
      ensures var bit := ChooseAllocation(lcaps.Row(), rcaps.Row());
              ok == (bit >= 0) && (ok ==> bit < ROW && config.Row() == old(config.Row())[bit := true])
    {
      ok := true;
      if lcaps.Get(ALLOCATION_METHOD_LOUDNESS) && rcaps.Get(ALLOCATION_METHOD_LOUDNESS) {
        config.Set(ALLOCATION_METHOD_LOUDNESS, 1);
      } else if lcaps.Get(ALLOCATION_METHOD_SNR) && rcaps.Get(ALLOCATION_METHOD_SNR) {
        config.Set(ALLOCATION_METHOD_SNR, 1);
      } else {
        ok := false;
      }
    }

    // The five selections in turn, up to the first that fails.
    static method SelectFields(config: A2dpBits, lcaps: A2dpBits, rcaps: A2dpBits, hint: Option<CodecParameters>)
        returns (ok: bool)
      requires config.data.Length == lcaps.data.Length == rcaps.data.Length == CAPABILITIES_SIZE
      requires config.data != lcaps.data && config.data != rcaps.data
      requires lcaps.Row() == LocalCapabilities() && forall i :: 0 <= i < ROW ==> !config.Row()[i]
      modifies config.data
      ensures var choice := Choose(rcaps.Row(), hint);
              ok == choice.Complete() && (ok ==> config.Row() == WithBitpools(choice.Head(), 0, 0))
    {
      ghost var zero: Row := config.Row();
      ghost var choice := Choose(rcaps.Row(), hint);
      ok := SelectFrequency(config, lcaps, rcaps, hint);
      if !ok { return; }
      ok := SelectMode(config, lcaps, rcaps, hint);
      if !ok { return; }
      ok := SelectBlockLength(config, lcaps, rcaps);
      if !ok { return; }
      ok := SelectSubbands(config, lcaps, rcaps);
      if !ok { return; }
      ok := SelectAllocation(config, lcaps, rcaps);
      if !ok { return; }
      ChoiceIsShared(rcaps.Row(), hint);
      HeadFromZero(zero, choice);
    }

    static method SelectBitpools(config: A2dpBits, lcaps: A2dpBits, rcaps: A2dpBits, hint: Option<CodecParameters>)
        returns (minBitpool: nat, maxBitpool: nat)
      requires config.data.Length == lcaps.data.Length == rcaps.data.Length == CAPABILITIES_SIZE
      requires MinimumBitpool(lcaps.Row()) == DEFAULT_MINIMUM_BITPOOL
      requires MaximumBitpool(lcaps.Row()) == DEFAULT_MAXIMUM_BITPOOL
      requires Framed(config.Row()) && OneMode(config.Row())
      ensures (minBitpool, maxBitpool) == BitpoolRange(config.Row(), rcaps.Row(), hint)
    {
      minBitpool := rcaps.GetRange(MINIMUM_BITPOOL, 8);
      maxBitpool := rcaps.GetRange(MAXIMUM_BITPOOL, 8);
      if minBitpool < 2 || minBitpool > 250 || maxBitpool < 2 || maxBitpool > 250 || minBitpool > maxBitpool {
        minBitpool := 2;
        maxBitpool := 250;
      }
      var localMinimum := lcaps.GetRange(MINIMUM_BITPOOL, 8);
      minBitpool := Max(minBitpool, localMinimum);
      var localMaximum := lcaps.GetRange(MAXIMUM_BITPOOL, 8);
      maxBitpool := Max(maxBitpool, localMaximum);
      if hint.Some? {
        var lowest := GetBitpool(config.Row(), hint.value.minBitrate);
        minBitpool := Max(minBitpool, lowest);
        if hint.value.maxBitrate != 0 && hint.value.maxBitrate >= hint.value.minBitrate {
          var highest := GetBitpool(config.Row(), hint.value.maxBitrate);
          maxBitpool := Min(maxBitpool, highest);
        }
      }
    }

    static method StoreBitpools(config: A2dpBits, ghost head: seq<bool>, minBitpool: nat, maxBitpool: nat)
      requires config.data.Length == CAPABILITIES_SIZE && |head| == 16
      requires config.Row() == WithBitpools(head, 0, 0)
      modifies config.data
      ensures config.Row() == WithBitpools(head, minBitpool, maxBitpool)
    {
      config.SetRange(MINIMUM_BITPOOL, 8, minBitpool);
      config.SetRange(MAXIMUM_BITPOOL, 8, maxBitpool);
    }

    method BuildConfiguration(remoteCapabilities: array<bv8>, hint: Option<CodecParameters>)
        returns (ok: bool, configuration: array<bv8>)
      requires Valid()
      ensures fresh(configuration)
      ensures var built := SbcCodec.BuildConfiguration(Bits(remoteCapabilities[..]), hint);
              ok == built.Some? && (ok ==> Bits(configuration[..]) == built.value)
    {
      configuration := new bv8[capabilities.Length](_ => 0);
      if remoteCapabilities.Length != capabilities.Length { return false, configuration; }
      var lcaps := new A2dpBits(capabilities);
      var rcaps := new A2dpBits(remoteCapabilities);
      var config := new A2dpBits(configuration);
      ClearRow(configuration[..]);
      ok := SelectFields(config, lcaps, rcaps, hint);
      if !ok { return; }
      ghost var choice := Choose(rcaps.Row(), hint);
      ChoiceIsShared(rcaps.Row(), hint);
      UnsetIsFramed(choice);
      LocalBitpools();
      var minBitpool, maxBitpool := SelectBitpools(config, lcaps, rcaps, hint);
      StoreBitpools(config, choice.Head(), minBitpool, maxBitpool);
    }
  }
}
