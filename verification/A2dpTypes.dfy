/** The AIDL values that the offload codecs exchange with their callers. */
module A2dpTypes {
  datatype ChannelMode = UNKNOWN | MONO | STEREO | DUALMONO

  datatype CodecParameters = CodecParameters(
    channelMode: ChannelMode,
    samplingFrequencyHz: int,
    bitdepth: int,
    minBitrate: int,
    maxBitrate: int)

  datatype A2dpStatus =
    | OK
    | BAD_LENGTH
    | INVALID_OBJECT_TYPE | NOT_SUPPORTED_OBJECT_TYPE
    | INVALID_SAMPLING_FREQUENCY | NOT_SUPPORTED_SAMPLING_FREQUENCY
    | INVALID_CHANNEL_MODE | NOT_SUPPORTED_CHANNEL_MODE
    | INVALID_CHANNELS | NOT_SUPPORTED_CHANNELS
    | INVALID_BLOCK_LENGTH
    | INVALID_SUBBANDS | NOT_SUPPORTED_SUBBANDS
    | INVALID_ALLOCATION_METHOD | NOT_SUPPORTED_ALLOCATION_METHOD
    | INVALID_MINIMUM_BITPOOL_VALUE | NOT_SUPPORTED_MINIMUM_BITPOOL_VALUE
    | INVALID_MAXIMUM_BITPOOL_VALUE | NOT_SUPPORTED_MAXIMUM_BITPOOL_VALUE
    | NOT_SUPPORTED_VBR
    | NOT_SUPPORTED_BIT_RATE

  // What a parser fills in: nothing unless the status is OK.
  datatype Parsed<P> = Accepted(parameters: P) | Rejected(status: A2dpStatus)
}
