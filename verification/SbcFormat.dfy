/** The SBC capability and configuration elements of A2DP section 4.3, with the frame length and bit
    rate of section 12.9. A configuration is its row of 32 bits. */
module SbcFormat {
  import opened Arithmetic
  import opened BitSequences
  import opened A2dpBitField
  import opened A2dpTypes

  const SAMPLING_FREQUENCY := 0  // 0-3: 16000, 32000, 44100, 48000
  const CHANNEL_MODE := 4        // 4-7: mono, dual channel, stereo, joint stereo
  const BLOCK_LENGTH := 8        // 8-11: 4, 8, 12, 16
  const SUBBANDS := 12           // 12-13: 8, 4
  const ALLOCATION_METHOD := 14  // 14-15: SNR, loudness
  const MINIMUM_BITPOOL := 16    // 16-23
  const MAXIMUM_BITPOOL := 24    // 24-31
  const CAPABILITIES_SIZE := 4   // bytes
  const ROW := 32

  const SAMPLING_FREQUENCY_44100 := 2
  const SAMPLING_FREQUENCY_48000 := 3
  const CHANNEL_MODE_MONO := 4
  const CHANNEL_MODE_DUAL_CHANNEL := 5
  const CHANNEL_MODE_STEREO := 6
  const CHANNEL_MODE_JOINT_STEREO := 7
  const BLOCK_LENGTH_4 := 8
  const BLOCK_LENGTH_8 := 9
  const BLOCK_LENGTH_12 := 10
  const BLOCK_LENGTH_16 := 11
  const SUBBANDS_8 := 12
  const SUBBANDS_4 := 13
  const ALLOCATION_METHOD_SNR := 14
  const ALLOCATION_METHOD_LOUDNESS := 15

  function SamplingFrequencyBit(hz: int): int {
    if hz == 16000 then 0 else if hz == 32000 then 1 else if hz == 44100 then 2
    else if hz == 48000 then 3 else -1
  }

  function SamplingFrequencyValue(bit: int): int {
    if bit == 0 then 16000 else if bit == 1 then 32000 else if bit == 2 then 44100
    else if bit == 3 then 48000 else 0
  }

  // STEREO asks for bit 7 | 6, which is bit 7: joint stereo.
  function ChannelModeBit(mode: ChannelMode): int {
    match mode
    case STEREO => CHANNEL_MODE_JOINT_STEREO
    case DUALMONO => CHANNEL_MODE_DUAL_CHANNEL
    case MONO => CHANNEL_MODE_MONO
    case UNKNOWN => -1
  }

  function ChannelModeEnum(bit: int): ChannelMode {
    if bit == CHANNEL_MODE_MONO then MONO
    else if bit == CHANNEL_MODE_DUAL_CHANNEL then DUALMONO
    else if bit == CHANNEL_MODE_STEREO || bit == CHANNEL_MODE_JOINT_STEREO then STEREO
    else UNKNOWN
  }

  function BlockLengthValue(bit: int): int {
    if bit == BLOCK_LENGTH_4 then 4 else if bit == BLOCK_LENGTH_8 then 8
    else if bit == BLOCK_LENGTH_12 then 12 else if bit == BLOCK_LENGTH_16 then 16 else 0
  }

  function SubbandsValue(bit: int): int {
    if bit == SUBBANDS_4 then 4 else if bit == SUBBANDS_8 then 8 else 0
  }

  type Row = b: seq<bool> | |b| == ROW witness seq(ROW, i => false)

  function Frequency(c: Row): int { SamplingFrequencyValue(ActiveBit(c, SAMPLING_FREQUENCY, 4)) }

  function Blocks(c: Row): int { BlockLengthValue(ActiveBit(c, BLOCK_LENGTH, 4)) }

  function Subbands(c: Row): int { SubbandsValue(ActiveBit(c, SUBBANDS, 2)) }

  // The rates are defined for one block length and one subband bit; anything else divides by zero.
  predicate Framed(c: Row) { Blocks(c) > 0 && Subbands(c) > 0 }

  function GetFrameSize(c: Row, bitpool: nat): nat
    requires Framed(c)
  {
    var bits := 4 * Subbands(c) * (if c[CHANNEL_MODE_MONO] then 1 else 2) +
                Blocks(c) * bitpool * (if c[CHANNEL_MODE_DUAL_CHANNEL] then 2 else 1) +
                if c[CHANNEL_MODE_JOINT_STEREO] then Subbands(c) else 0;
    4 + (bits + 7) / 8
  }

  function GetBitrate(c: Row, bitpool: nat): nat
    requires Framed(c)
  {
    8 * GetFrameSize(c, bitpool) * Frequency(c) / (Blocks(c) * Subbands(c))
  }

  predicate OneMode(c: Row) { ActiveBit(c, CHANNEL_MODE, 4) >= 0 }

  // The type that the source computes in.
  newtype int32 = x: int | -0x8000_0000 <= x < 0x8000_0000

  // ----- section 12.9 of A2DP -----

  function CeilDiv8(n: nat): nat { if n % 8 == 0 then n / 8 else n / 8 + 1 }

  datatype Mode = Mono | DualChannel | Stereo | JointStereo

  function Channels(mode: Mode): nat { if mode.Mono? then 1 else 2 }

  function StandardFrameLength(mode: Mode, subbands: nat, blocks: nat, bitpool: nat): nat {
    4 + 4 * subbands * Channels(mode) / 8 +
    match mode
    case Mono => CeilDiv8(blocks * Channels(mode) * bitpool)
    case DualChannel => CeilDiv8(blocks * Channels(mode) * bitpool)
    case Stereo => CeilDiv8(blocks * bitpool)
    case JointStereo => CeilDiv8(subbands + blocks * bitpool)
  }

  function ModeOf(bit: int): Mode
    requires CHANNEL_MODE <= bit < CHANNEL_MODE + 4
  {
    if bit == CHANNEL_MODE_MONO then Mono
    else if bit == CHANNEL_MODE_DUAL_CHANNEL then DualChannel
    else if bit == CHANNEL_MODE_STEREO then Stereo
    else JointStereo
  }

  /** The code rounds the whole sum of bits up once; the standard rounds only its last term. They
      agree in all four channel modes. */
  lemma FrameSizeIsStandard(c: Row, bitpool: nat)
    requires Framed(c) && OneMode(c)
    ensures GetFrameSize(c, bitpool) ==
            StandardFrameLength(ModeOf(ActiveBit(c, CHANNEL_MODE, 4)), Subbands(c), Blocks(c), bitpool)
  {
    var bit := ActiveBit(c, CHANNEL_MODE, 4);
    var mode := ModeOf(bit);
    var audio := if mode.JointStereo? then Subbands(c) + Blocks(c) * bitpool
                 else if mode.DualChannel? then Blocks(c) * bitpool * 2
                 else Blocks(c) * bitpool;
    assert Blocks(c) * Channels(mode) * bitpool == Blocks(c) * bitpool * Channels(mode);
    assert 4 * Subbands(c) * Channels(mode) % 8 == 0;
    RoundUpTail(4 * Subbands(c) * Channels(mode), audio);
  }

  lemma RoundUpTail(whole: nat, rest: nat)
    requires whole % 8 == 0
    ensures (whole + rest + 7) / 8 == whole / 8 + CeilDiv8(rest)
  {}

  // ----- the bit rate as a function of the bitpool -----

  /** More bitpool never costs a lower bit rate, through both rounded divisions. */
  lemma BitrateMonotone(c: Row, low: nat, high: nat)
    requires Framed(c) && low <= high
    ensures GetBitrate(c, low) <= GetBitrate(c, high)
  {
    var k := if c[CHANNEL_MODE_DUAL_CHANNEL] then 2 else 1;
    assert Blocks(c) * low * k <= Blocks(c) * high * k by {
      assert Blocks(c) * low <= Blocks(c) * high;
    }
    var f := Frequency(c);
    var small, large := 8 * GetFrameSize(c, low), 8 * GetFrameSize(c, high);
    assert small <= large;
    assert small * f <= large * f;
    DivideMonotone(small * f, large * f, Blocks(c) * Subbands(c));
  }

  /** With one channel mode set and a bitpool that fits a byte, the product that the rate is computed
      from stays far inside 32 bits; in exactly one configuration it reaches its bound. */
  lemma BitrateFits(c: Row, bitpool: nat)
    requires Framed(c) && OneMode(c) && bitpool <= 255
    ensures 8 * GetFrameSize(c, bitpool) * Frequency(c) <= 396288000 < 0x8000_0000
    ensures 8 * GetFrameSize(c, bitpool) * Frequency(c) == 396288000 <==>
            && c[CHANNEL_MODE_DUAL_CHANNEL] && Frequency(c) == 48000 && Blocks(c) == 16 && Subbands(c) == 8
            && bitpool >= 255
  {
    var bit := ActiveBit(c, CHANNEL_MODE, 4);
    var n := Blocks(c) * bitpool;
    assert n <= 4080 && (n == 4080 ==> Blocks(c) == 16 && bitpool == 255);
    var size := GetFrameSize(c, bitpool);
    assert size <= 1032;
    var f := Frequency(c);
    assert f == 0 || f == 16000 || f == 32000 || f == 44100 || f == 48000;
  }

  // The last line of the source's rate, in its own 32-bit integers.
  method DivideRate(size: int32, frequency: int32, blocks: int32, subbands: int32) returns (rate: int32)
    requires 0 <= size <= 1032 && 0 <= frequency && 0 < blocks <= 16 && 0 < subbands <= 8
    requires 8 * (size as int) * (frequency as int) < 0x8000_0000
    ensures rate as int == 8 * (size as int) * (frequency as int) / ((blocks as int) * (subbands as int))
  {
    var bits := 8 * size;
    rate := (bits * frequency) / (blocks * subbands);
  }

  // Build and parse take every rate from here, so none of them overflows or divides by zero.
  method ComputeBitrate(c: Row, bitpool: nat) returns (rate: int)
    requires Framed(c) && OneMode(c) && bitpool <= 255
    ensures rate == GetBitrate(c, bitpool)
  {
    var frequency, subbands, blocks := Frequency(c), Subbands(c), Blocks(c);
    var size := GetFrameSize(c, bitpool);
    BitrateFits(c, bitpool);
    FrameFits(c, bitpool);
    var r := DivideRate(size as int32, frequency as int32, blocks as int32, subbands as int32);
    rate := r as int;
  }

  lemma FrameFits(c: Row, bitpool: nat)
    requires Framed(c) && OneMode(c) && bitpool <= 255
    ensures GetFrameSize(c, bitpool) <= 1032
  {
    assert Blocks(c) * bitpool <= 4080;
  }

  // The greatest bitpool up to n that costs less than the bit rate, or 0.
  function GreatestBelow(c: Row, bitrate: int, n: nat): (b: nat)
    requires Framed(c)
    ensures b <= n
  {
    if n == 0 || GetBitrate(c, n) < bitrate then n else GreatestBelow(c, bitrate, n - 1)
  }

  lemma {:induction false} GreatestBelowIs(c: Row, bitrate: int, n: nat, b: nat)
    requires Framed(c) && b <= n
    ensures b == GreatestBelow(c, bitrate, n) <==>
            (b == 0 || GetBitrate(c, b) < bitrate) && forall k :: b < k <= n ==> GetBitrate(c, k) >= bitrate
  {
    if n > 0 && GetBitrate(c, n) >= bitrate && b < n {
      GreatestBelowIs(c, bitrate, n - 1, b);
    }
  }

  function Clamp(n: int, low: int, high: int): int {
    if n < low then low else if n > high then high else n
  }

  function Bitpool(c: Row, bitrate: int): nat
    requires Framed(c)
  {
    Clamp(GreatestBelow(c, bitrate, 255), 2, 250)
  }

  // The binary search over the eight bits of the bitpool.
  method GetBitpool(c: Row, bitrate: int) returns (r: nat)
    requires Framed(c) && OneMode(c)
    ensures r == Bitpool(c, bitrate)
  {
    var bitpool := 0;
    var i := 128;
    while i > 0
      invariant i in {128, 64, 32, 16, 8, 4, 2, 1, 0}
      invariant bitpool + (if i == 0 then 1 else 2 * i) <= 256
      invariant bitpool == 0 || GetBitrate(c, bitpool) < bitrate
      invariant forall k :: bitpool + (if i == 0 then 1 else 2 * i) <= k <= 255 ==> GetBitrate(c, k) >= bitrate
    {
      var rate := ComputeBitrate(c, bitpool + i);
      if bitrate > rate {
        bitpool := bitpool + i;
      } else {
        forall k | bitpool + i <= k <= 255
          ensures GetBitrate(c, k) >= bitrate
        {
          BitrateMonotone(c, bitpool + i, k);
        }
      }
      i := i / 2;
    }
    GreatestBelowIs(c, bitrate, 255, bitpool);
    r := Clamp(bitpool, 2, 250);
  }

  /** A higher bit rate never gets a smaller bitpool. */
  lemma BitpoolMonotone(c: Row, low: int, high: int)
    requires Framed(c) && low <= high
    ensures Bitpool(c, low) <= Bitpool(c, high)
  {
    var a, b := GreatestBelow(c, low, 255), GreatestBelow(c, high, 255);
    GreatestBelowIs(c, low, 255, a);
    GreatestBelowIs(c, high, 255, b);
  }

  /** The clamped bitpool costs less than the bit rate exactly when bitpool 2 does. */
  lemma BitpoolCost(c: Row, bitrate: int)
    requires Framed(c)
    ensures GetBitrate(c, Bitpool(c, bitrate)) < bitrate <==> GetBitrate(c, 2) < bitrate
  {
    var g := GreatestBelow(c, bitrate, 255);
    GreatestBelowIs(c, bitrate, 255, g);
    if GetBitrate(c, 2) < bitrate {
      BitrateMonotone(c, Bitpool(c, bitrate), g);
    } else {
      BitrateMonotone(c, 2, Bitpool(c, bitrate));
    }
  }

  // Where the clamped bitpool stands, read off the rates.
  lemma BitpoolAtMost(c: Row, bitrate: int, x: nat)
    requires Framed(c) && 2 <= x < 250
    ensures Bitpool(c, bitrate) <= x <==> GetBitrate(c, x + 1) >= bitrate
  {
    var g := GreatestBelow(c, bitrate, 255);
    GreatestBelowIs(c, bitrate, 255, g);
    if g > x { BitrateMonotone(c, x + 1, g); }
  }

  lemma BitpoolAtLeast(c: Row, bitrate: int, x: nat)
    requires Framed(c) && 2 <= x <= 250
    ensures x <= Bitpool(c, bitrate) <==> x == 2 || GetBitrate(c, x) < bitrate
  {
    var g := GreatestBelow(c, bitrate, 255);
    GreatestBelowIs(c, bitrate, 255, g);
    if x <= g { BitrateMonotone(c, x, g); }
  }

  // No configuration is as cheap as one bit per second.
  lemma RatePositive(c: Row, bitpool: nat)
    requires Framed(c) && Frequency(c) >= 16000
    ensures GetBitrate(c, bitpool) >= 1
  {
    var bits := 8 * GetFrameSize(c, bitpool);
    assert bits >= 32 && bits * Frequency(c) >= 32 * 16000;
    assert 0 < Blocks(c) * Subbands(c) <= 128;
    DivideAtLeastOne(bits * Frequency(c), Blocks(c) * Subbands(c));
  }

  lemma DivideAtLeastOne(a: nat, d: nat)
    requires 0 < d <= a
    ensures a / d >= 1
  {
    DivideMonotone(d, a, d);
  }

  lemma SliceOfPrefix(s: seq<bool>, n: nat, first: nat, len: nat)
    requires first + len <= n <= |s|
    ensures s[..n][first..first + len] == s[first..first + len]
  {}

  lemma SamePrefix(c: Row, d: Row)
    requires c[..16] == d[..16]
    ensures forall first: nat, len: nat :: first + len <= 16 ==> ActiveBit(c, first, len) == ActiveBit(d, first, len)
    ensures forall i :: 0 <= i < 16 ==> c[i] == d[i]
  {
    forall first: nat, len: nat | first + len <= 16
      ensures ActiveBit(c, first, len) == ActiveBit(d, first, len)
    {
      SliceOfPrefix(c, 16, first, len);
      SliceOfPrefix(d, 16, first, len);
    }
    assert forall i :: 0 <= i < 16 ==> c[i] == c[..16][i] && d[i] == d[..16][i];
  }

  /** The rates read only the first two bytes, so they are the same while the bitpools are unset. */
  lemma RatesIgnoreBitpools(c: Row, d: Row)
    requires c[..16] == d[..16] && Framed(c)
    ensures Frequency(c) == Frequency(d) && Framed(d)
    ensures forall b: nat :: GetBitrate(c, b) == GetBitrate(d, b)
  {
    SamePrefix(c, d);
    assert c[CHANNEL_MODE_MONO] == d[CHANNEL_MODE_MONO];
    assert c[CHANNEL_MODE_DUAL_CHANNEL] == d[CHANNEL_MODE_DUAL_CHANNEL];
    assert c[CHANNEL_MODE_JOINT_STEREO] == d[CHANNEL_MODE_JOINT_STEREO];
    assert Frequency(c) == Frequency(d) && Blocks(c) == Blocks(d) && Subbands(c) == Subbands(d);
    forall b: nat
      ensures GetBitrate(c, b) == GetBitrate(d, b)
    {
      assert GetFrameSize(c, b) == GetFrameSize(d, b);
    }
  }

  lemma {:induction false} SameGreatest(c: Row, d: Row, rate: int, n: nat)
    requires Framed(c) && Framed(d) && forall b: nat :: GetBitrate(c, b) == GetBitrate(d, b)
    ensures GreatestBelow(c, rate, n) == GreatestBelow(d, rate, n)
  {
    if n > 0 { SameGreatest(c, d, rate, n - 1); }
  }
}
