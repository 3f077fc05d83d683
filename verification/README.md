# Verified models of device and Bluetooth audio code

Dafny models of four protocols and codecs of this repository, and proofs about them. `dafny verify dfyconfig.toml`
checks everything.

**Goodix under-display fingerprint protocol** (`GoodixProtocol`, `GoodixRuns`, `GoodixHal`). Finger-down and finger-up
calls, one worker thread, one spot watcher and one detached waiter per press share a command queue, a sequence counter,
two flags and the HBM request. The model is a transition system over atomic operations: the sections under the command
mutex are split at every store to an atomic, because the watcher and the waiters read those without the mutex. Sent
commands and HBM requests are kept as traces. The theorems hold for every schedule and any number of waiters. The class
carries out each section on its own fields and is proved to be those atomic operations.

**A2DP offload codec negotiation** (`BitSequences`, `A2dpBitField`, `A2dpTypes`, `A2dpSelection`, `SbcFormat`,
`SbcCodec`, `SbcOffload`, `AacCodec`, `AacOffload`, `OffloadFactory`). Capability and configuration elements are rows of
bits; the classes work on byte buffers in place and are proved against functions on rows. The main results are that
what the codecs build they parse, that builder and parser describe the same set of configurations, and what becomes of
a hint on the way. The standard is A2DP, sections 4.3 and 4.5 for the elements and 12.9 for the SBC frame length.

**Android sparse image expander** (`SparseFormat`, `SparseExpander`). A chunk list has a serialized form and a
denotation. The format, as a function from input bytes to output and exit code, maps the one to the other, in both
directions. The program runs over reads, writes and splices that may each move less than asked for; a fault is recorded
where a call moves less than it could have and the program then exits.

**Bluetooth audio session, port and stream** (`AudioSession`, `PcmPath`, `PortProtocol`, `DevicePort`, `OutputStream`,
`AudioParams`). The session is a state machine over the calls of the stack and the ports. The PCM loops poll a bounded
queue while the other end and the session change arbitrarily between polls. The port state is modelled twice: as single
loads and stores of two threads whose mutexes differ, and as an object whose methods other threads interrupt only where
they wait. The stream adds frame counters, reported positions and the parameter strings.

## What the proofs brought to light

Where the code and its own comments disagree, the model follows the code. The first four points are such places or
names that promise something else; each of the others is a lemma about a run or an input.

- `frames_presented_` is documented as never reset (`bluetooth/audio/hw/stream_apis.h:71`), but the "closing" and
  "exiting" parameters and the closing of a stream reset it.
- The sparse header comment allows higher minor versions (`cmds/simg2img_simple.cpp:13`); the program exits for any minor
  version but 0. It also accepts FILL chunks only with the value 0.
- The SBC builder takes the larger of the remote's and its own maximum bitpool where its name suggests a limit, so the
  remote's maximum is not honoured.
- `GetPresentationPosition` of the AIDL session is meant to say whether a position was fetched but always returns false;
  an AIDL stream therefore always falls back to the delay computed from its buffer size.
- The waiter of an earlier press can take the light-area flag of a later one, which is then without a 200002 when all
  its threads are done.
- A stream counts every frame of a buffer as written when only a part of it was.
- A hint that caps the rate at or below the cost of bitpool 2, or of the remote's minimum, is missed: the parsed rate is
  not below it, or the minimum bitpool comes out above the maximum.
- Readiness of a session can be lost and regained without any `session_changed_cb_`.
- A port that was disabled can be started by a store decided on before it was disabled.

## Model

| member | source | states |
|---|---|---|
| GoodixRuns.SentIsSerialized | hal/anakin-fp/BiometricsFingerprint.cpp:280-327 | in every run the commands sent to the daemon have non-decreasing sequences; each sequence has at most one of 200001 and 200003 and never both; every 200002 comes after the 200001, every 200000 of a positive sequence after the 200003, of its own sequence |
| GoodixRuns.RunIsFifoRun | hal/anakin-fp/BiometricsFingerprint.cpp:287-307 | every run is also a run of a worker without the three drop and skip checks: in no interleaving does one of them fire |
| GoodixRuns.SentByStep | hal/anakin-fp/BiometricsFingerprint.cpp:282-325 | in every run a worker pass sends the head of the queue, whatever it is, and removes it; no other step sends; HBM is requested on by a finger-down and off by a sent 200003 only; a queued command never keeps the worker from running |
| GoodixRuns.WorkerDrains | hal/anakin-fp/BiometricsFingerprint.cpp:282-325 | n worker passes in a row send the first n queued commands in order |
| GoodixRuns.QueuedByStep | hal/anakin-fp/BiometricsFingerprint.cpp:351-461 | what every other step queues: 200001 or 200003 into an emptied queue, 200002 and 200000 exactly if their sequence is current and the finger on their side |
| GoodixRuns.FlagsByStep | hal/anakin-fp/BiometricsFingerprint.cpp:351-461 | what every step does to the sequence counter and to the two flags |
| GoodixRuns.NothingIsBlocked | hal/anakin-fp/BiometricsFingerprint.cpp:280-466 | no thread waits for anything but the mutex, and a section always gives it up again |
| GoodixHal.WatcherReacts | hal/anakin-fp/BiometricsFingerprint.cpp:351-364 | an undisturbed watcher pass: a ready spot sets the flag of a press and queues a 200002 if it was clear; a lost spot clears it and, with the finger up, queues a 200000 |
| GoodixHal.WaiterReacts | hal/anakin-fp/BiometricsFingerprint.cpp:436-444 | an undisturbed waiter queues a 200002 exactly if its press is still the present one and the flag clear |
| GoodixRuns.RunQueueShape | hal/anakin-fp/BiometricsFingerprint.cpp:371-394 | whenever the mutex is free the queue is `[200001]? 200002*` (finger down) or `[200003]? 200000*` (finger up), all of the current sequence |
| GoodixRuns.HbmFollowsFinger | hal/anakin-fp/BiometricsFingerprint.cpp:320-325 | with the mutex free, the last HBM request is "on" while the finger is down; while it is up, exactly when a 200003 is queued, and then that command is at the head and the next worker pass sends it and turns HBM off |
| GoodixRuns.StableBudget | hal/anakin-fp/BiometricsFingerprint.cpp:351-364 | from one finger-down to the next, the 200002 commands queued are at most 2 plus the watcher's false stores while the finger is down, for any number of waiters |
| GoodixRuns.HistoryCounts | hal/anakin-fp/BiometricsFingerprint.cpp:351-444 | the two counters that the budget speaks of are the numbers of queueing steps and false stores in the run since the last finger-down |
| GoodixRuns.BudgetIsTight | hal/anakin-fp/BiometricsFingerprint.cpp:351-358 | a run that queues two 200002 commands in one press without any false store: the watcher carries one exchange over from before |
| GoodixRuns.PressIsServed | hal/anakin-fp/BiometricsFingerprint.cpp:351-444 | once the waiter of the present press is done and the watcher is polling, a 200002 has been queued for the press exactly if its own waiter or the watcher won the exchange since the finger-down, or the watcher carried one won before into it; it goes without only if the waiter of another press took the flag |
| GoodixRuns.FlagHistory | hal/anakin-fp/BiometricsFingerprint.cpp:351-444 | the two history flags of the invariant are these events of the run since the last finger-down |
| GoodixRuns.StaleWaiterStarvesPress | hal/anakin-fp/BiometricsFingerprint.cpp:436-444 | a run that reaches a state with the finger down, all waiters done, the watcher polling and no 200002 queued: a waiter of an earlier press, past its two checks, took the flag and its own command was dropped |
| GoodixProtocol.ChainedIsSerialized | hal/anakin-fp/BiometricsFingerprint.cpp:287-318 | the command-by-command rule that the queue keeps is equivalent to the global order read off the protocol |
| GoodixProtocol.QueueShape | hal/anakin-fp/BiometricsFingerprint.cpp:381-393 | the queue shape, from the invariant |
| GoodixProtocol.WorkerIsFifo | hal/anakin-fp/BiometricsFingerprint.cpp:287-318 | from the invariant, the worker sends the head of the queue |
| GoodixProtocol.NextKeepsInv | hal/anakin-fp/BiometricsFingerprint.cpp:280-466 | every atomic operation of every thread keeps the invariant on queue, HBM, budget and service |
| GoodixProtocol.RunKeepsInv | hal/anakin-fp/BiometricsFingerprint.cpp:280-466 | the invariant holds in every reachable state |
| GoodixHal.BiometricsFingerprint.EnqueueGoodixCommand | hal/anakin-fp/BiometricsFingerprint.cpp:371-396 | the method is the atomic enqueue of the protocol, its three drops included |
| GoodixHal.BiometricsFingerprint.OnFingerDown | hal/anakin-fp/BiometricsFingerprint.cpp:417-429 | the section under the mutex is the three atomic operations of a press in a row |
| GoodixHal.BiometricsFingerprint.OnFingerUp | hal/anakin-fp/BiometricsFingerprint.cpp:449-465 | the section is the three atomic operations of a lift, or nothing for a duplicate |
| GoodixHal.BiometricsFingerprint.WorkerPass | hal/anakin-fp/BiometricsFingerprint.cpp:282-325 | one pass of the worker is the protocol's worker step |
| GoodixHal.BiometricsFingerprint.WatchSpot | hal/anakin-fp/BiometricsFingerprint.cpp:351-364 | an uninterrupted watcher pass is the watcher's atomic operations run to the next poll |
| A2dpBitField.A2dpBits.Get | bluetooth/audio/hal/A2dpBits.h:39-41 | a single bit is the bit of the row, most significant first within each byte |
| A2dpBitField.A2dpBits.GetRange | bluetooth/audio/hal/A2dpBits.h:43-48 | the loop reads the big-endian value of the range |
| A2dpBitField.A2dpBits.Set | bluetooth/audio/hal/A2dpBits.h:50-56 | or-ing or clearing one mask changes exactly one bit of the row |
| A2dpBitField.A2dpBits.SetRange | bluetooth/audio/hal/A2dpBits.h:58-61 | the loop replaces the range by the low bits of the value and nothing else, across byte boundaries |
| A2dpBitField.A2dpBits.FindActiveBit | bluetooth/audio/hal/A2dpBits.h:63-71 | the search returns the position of the only set bit of the range, or -1 |
| A2dpBitField.ActiveBit | bluetooth/audio/hal/A2dpBits.h:63-71 | -1, or the one set bit; and every range with exactly one set bit gives it |
| A2dpBitField.WriteThenRead | bluetooth/audio/hal/A2dpBits.h:43-61 | reading a written range gives the value modulo 2^len; every bit outside is unchanged |
| A2dpBitField.ReadThenWrite | bluetooth/audio/hal/A2dpBits.h:43-61 | writing back what was read changes nothing |
| SbcFormat.FrameSizeIsStandard | bluetooth/audio/hal/A2dpOffloadCodecSbc.cpp:223-234 | the code, which rounds the whole sum, agrees with the frame length of section 12.9 of A2DP in all four channel modes |
| SbcFormat.BitrateMonotone | bluetooth/audio/hal/A2dpOffloadCodecSbc.cpp:236-243 | the bit rate is monotone in the bitpool through both rounded divisions |
| SbcFormat.BitrateFits | bluetooth/audio/hal/A2dpOffloadCodecSbc.cpp:236-243 | with one channel mode and a bitpool that fits a byte the 32-bit product stays at or below 396288000, and reaches it in exactly one configuration |
| SbcCodec.RatesAreStandard | bluetooth/audio/hal/A2dpOffloadCodecSbc.cpp:376-391 | both parsed rates are, in the parsed parameters, the bit rate of section 12.9 of A2DP, rounded down |
| SbcFormat.ComputeBitrate | bluetooth/audio/hal/A2dpOffloadCodecSbc.cpp:236-243 | the rate computed in 32-bit integers, without overflow or division by zero, is the rate of the format; build and parse take every rate from it |
| SbcFormat.BitpoolAtMost | bluetooth/audio/hal/A2dpOffloadCodecSbc.cpp:245-254 | the clamped bitpool is at most x < 250 exactly when bitpool x + 1 reaches the rate |
| SbcFormat.BitpoolAtLeast | bluetooth/audio/hal/A2dpOffloadCodecSbc.cpp:245-254 | and at least x exactly when x is 2 or costs less than the rate |
| SbcCodec.AcceptedRatesFit | bluetooth/audio/hal/A2dpOffloadCodecSbc.cpp:381-382 | both rates of every accepted configuration stay within the bound |
| SbcCodec.BuildRatesFit | bluetooth/audio/hal/A2dpOffloadCodecSbc.cpp:491-497 | and so does every rate that a build may ask for |
| SbcFormat.GreatestBelowIs | bluetooth/audio/hal/A2dpOffloadCodecSbc.cpp:245-254 | the number that the search looks for: the greatest bitpool in range that is 0 or costs less than the rate |
| SbcFormat.GetBitpool | bluetooth/audio/hal/A2dpOffloadCodecSbc.cpp:245-254 | the eight-step greedy search finds that greatest bitpool, clamped to 2..250 |
| SbcFormat.BitpoolMonotone | bluetooth/audio/hal/A2dpOffloadCodecSbc.cpp:245-254 | a higher rate never gets a smaller bitpool |
| SbcFormat.BitpoolCost | bluetooth/audio/hal/A2dpOffloadCodecSbc.cpp:253-253 | the clamped bitpool costs less than the rate exactly when bitpool 2 does |
| SbcFormat.RatesIgnoreBitpools | bluetooth/audio/hal/A2dpOffloadCodecSbc.cpp:488-497 | the rates read only the first two bytes, so the search may run before the bitpools are written |
| SbcCodec.BuildsIff | bluetooth/audio/hal/A2dpOffloadCodecSbc.cpp:396-503 | a configuration is built exactly when the length matches and every selection field shares a bit with the local capabilities |
| SbcCodec.BuiltFieldsAreShared | bluetooth/audio/hal/A2dpOffloadCodecSbc.cpp:411-475 | each selection field of a built configuration has one bit set, supported by both sides |
| SbcCodec.BuiltParses | bluetooth/audio/hal/A2dpOffloadCodecSbc.cpp:318-394 | what is built is parsed with status OK into the parameters of the choice and the computed bitpools |
| SbcCodec.ParsesAsWritten | bluetooth/audio/hal/A2dpOffloadCodecSbc.cpp:318-394 | every configuration with one enabled bit per field and bitpools in 2..250 is accepted as written |
| SbcCodec.AcceptedIsWritten | bluetooth/audio/hal/A2dpOffloadCodecSbc.cpp:318-394 | nothing else is accepted: an accepted row is the one written for its own bits and bitpools |
| SbcCodec.HintIsHonoured | bluetooth/audio/hal/A2dpOffloadCodecSbc.cpp:413-441 | the hinted frequency or channel mode is parsed back exactly when both sides have a bit for it |
| SbcCodec.BestIsChosen | bluetooth/audio/hal/A2dpOffloadCodecSbc.cpp:411-475 | each field is the hinted one if both sides support it, else the best of what both support: lowest frequency, joint stereo first, most blocks and subbands, loudness |
| SbcCodec.BuiltBits | bluetooth/audio/hal/A2dpOffloadCodecSbc.cpp:411-475 | the first sixteen bits of a built configuration, each in terms of the remote's bits and the hint |
| SbcCodec.FirstFaultIsNamed | bluetooth/audio/hal/A2dpOffloadCodecSbc.cpp:323-372 | the status of any configuration: the first field at fault, in order, stated on its bits; only the frequency can be unsupported |
| SbcCodec.EmittedRange | bluetooth/audio/hal/A2dpOffloadCodecSbc.cpp:479-500 | for x in 2..250: x <= the emitted minimum exactly if x is 2, within the remote's valid range start, or costs less than the hinted minimum rate; x <= the emitted maximum exactly if x is 2, there is no effective cap, or x costs less than it |
| SbcCodec.MinimumRate | bluetooth/audio/hal/A2dpOffloadCodecSbc.cpp:491-493 | the parsed minimum rate is below the hinted one exactly if the remote's minimum bitpool costs less than that; the next bitpool then reaches it |
| SbcCodec.MinimumRaised | bluetooth/audio/hal/A2dpOffloadCodecSbc.cpp:491-493 | a hinted minimum of 300 kb/s: the minimum bitpool is 47 |
| SbcCodec.ParametersAreFields | bluetooth/audio/hal/A2dpOffloadCodecSbc.cpp:374-393 | the parsed parameters, value by value, are the bits of the configuration and the rates of its two bitpools |
| SbcCodec.RangeInOrder | bluetooth/audio/hal/A2dpOffloadCodecSbc.cpp:477-500 | minimum bitpool <= maximum bitpool exactly when there is no effective cap, or the remote's (sanitised) minimum is 2 or costs less than the cap on the chosen fields |
| SbcCodec.RateBelowCap | bluetooth/audio/hal/A2dpOffloadCodecSbc.cpp:491-497 | under an effective cap the parsed maximum rate is below the cap exactly when bitpool 2 costs less on the chosen fields |
| SbcCodec.CapMissed | bluetooth/audio/hal/A2dpOffloadCodecSbc.cpp:491-497 | a cap of 1 bit per second against a remote minimum of 50: minimum above maximum, and the rate not below the cap |
| SbcCodec.RemoteMaximumIsIgnored | bluetooth/audio/hal/A2dpOffloadCodecSbc.cpp:489-489 | the maximum is 250 unless a cap lowers it; it stays within the remote's range exactly when that range ends at 250 or the next bitpool reaches the cap on the chosen fields |
| SbcCodec.BuiltOnSelected | bluetooth/audio/hal/A2dpOffloadCodecSbc.cpp:488-497 | the bitpools of a built configuration are the range computed on the chosen fields, whose rates are also its own |
| SbcCodec.RemoteMaximumExceeded | bluetooth/audio/hal/A2dpOffloadCodecSbc.cpp:489-489 | a remote that stops at bitpool 53 is asked for 250 |
| SbcOffload.A2dpOffloadCodecSbc.constructor | bluetooth/audio/hal/A2dpOffloadCodecSbc.cpp:260-316 | the capability bytes and lists that the constructor sets up |
| SbcOffload.A2dpOffloadCodecSbc.ParseConfiguration | bluetooth/audio/hal/A2dpOffloadCodecSbc.cpp:318-394 | the byte-level parser is the parser on rows, every status included |
| SbcOffload.A2dpOffloadCodecSbc.BuildConfiguration | bluetooth/audio/hal/A2dpOffloadCodecSbc.cpp:396-503 | the in-place builder produces the row of the specification, or fails where it does |
| AacCodec.BuildsIff | bluetooth/audio/hal/A2dpOffloadCodecAac.cpp:299-371 | a configuration is built exactly when the length matches and every selection field shares a bit |
| AacCodec.BuiltFieldsAreShared | bluetooth/audio/hal/A2dpOffloadCodecAac.cpp:314-355 | each selection field of a built configuration has one bit set, supported by both sides |
| AacCodec.BuiltParses | bluetooth/audio/hal/A2dpOffloadCodecAac.cpp:244-297 | what is built is parsed with status OK into the parameters chosen |
| AacCodec.ParsesAsWritten | bluetooth/audio/hal/A2dpOffloadCodecAac.cpp:244-297 | every choice of one enabled bit per field is accepted as written, the rate modulo 2^23 |
| AacCodec.AcceptedIsWritten | bluetooth/audio/hal/A2dpOffloadCodecAac.cpp:244-297 | nothing else is accepted, but for the DRC bit, which changes nothing |
| AacCodec.BestIsChosen | bluetooth/audio/hal/A2dpOffloadCodecAac.cpp:314-355 | each field is the hinted one if both sides support it, else the best of what both support: MPEG-2 first, highest frequency, two channels |
| AacCodec.BuiltBits | bluetooth/audio/hal/A2dpOffloadCodecAac.cpp:314-355 | the first twenty-four bits of a built configuration, each in terms of the remote's bits and the hint |
| AacCodec.BuiltRate | bluetooth/audio/hal/A2dpOffloadCodecAac.cpp:357-368 | its last three bytes, with or without a hint: variable rate, and the hinted maximum cut to 23 bits or 0 |
| AacCodec.FirstFaultIsNamed | bluetooth/audio/hal/A2dpOffloadCodecAac.cpp:249-281 | the status of any configuration: the first field at fault, in order, stated on its bits |
| AacCodec.ParametersAreFields | bluetooth/audio/hal/A2dpOffloadCodecAac.cpp:283-296 | the parsed parameters, value by value, are the bits of the configuration |
| AacCodec.RatesComeBack | bluetooth/audio/hal/A2dpOffloadCodecAac.cpp:357-368 | the hinted maximum comes back unchanged exactly when it lies in 0..2^23-1; the minimum is 0 when variable rate was agreed on, else the maximum |
| AacCodec.HintIsHonoured | bluetooth/audio/hal/A2dpOffloadCodecAac.cpp:325-355 | the hinted frequency or channel mode is parsed back exactly when both sides have its bit |
| AacOffload.A2dpOffloadCodecAac.constructor | bluetooth/audio/hal/A2dpOffloadCodecAac.cpp:197-242 | the capability bytes and lists that the constructor sets up |
| AacOffload.A2dpOffloadCodecAac.ParseConfiguration | bluetooth/audio/hal/A2dpOffloadCodecAac.cpp:244-297 | the byte-level parser is the parser on rows, every status included |
| AacOffload.A2dpOffloadCodecAac.BuildConfiguration | bluetooth/audio/hal/A2dpOffloadCodecAac.cpp:299-371 | the in-place builder produces the row of the specification, or fails where it does |
| OffloadFactory.BuiltConfigurationParses | bluetooth/audio/hal/A2dpOffloadCodecFactory.cpp:85-88 | the assertion never fires, for any codec, remote element and hint |
| OffloadFactory.TriedOrder | bluetooth/audio/hal/A2dpOffloadCodecFactory.cpp:65-73 | for a ranked hint the tried list is a permutation of the ranked codecs: the hinted one first, the rest in rank order |
| OffloadFactory.FirstSuccessIs | bluetooth/audio/hal/A2dpOffloadCodecFactory.cpp:75-95 | the result is that of the first codec in the list whose attempt succeeds; none exactly when all fail |
| OffloadFactory.ConfigurationIsConsistent | bluetooth/audio/hal/A2dpOffloadCodecFactory.cpp:76-92 | the returned bytes were built from the first offer for the returned codec, carry its seid, and parse to the returned parameters |
| OffloadFactory.ConfigurationIsTheCodecs | bluetooth/audio/hal/A2dpOffloadCodecFactory.cpp:75-92 | an SBC result is what the SBC codec builds from the first SBC offer and parses back, an AAC result the same of the AAC codec |
| OffloadFactory.NegotiatesIff | bluetooth/audio/hal/A2dpOffloadCodecFactory.cpp:58-96 | there is a result exactly if the first offer for some ranked codec has the length of that codec's element and shares a bit of each of its fields; the hinted codec wins if its own does |
| OffloadFactory.A2dpOffloadCodecFactory.constructor | bluetooth/audio/hal/A2dpOffloadCodecFactory.cpp:40-48 | AAC is ranked before SBC |
| OffloadFactory.A2dpOffloadCodecFactory.GetCodec | bluetooth/audio/hal/A2dpOffloadCodecFactory.cpp:50-56 | a codec is found exactly when it is ranked |
| OffloadFactory.A2dpOffloadCodecFactory.Rank | bluetooth/audio/hal/A2dpOffloadCodecFactory.cpp:61-73 | the loop builds the tried list |
| OffloadFactory.A2dpOffloadCodecFactory.FindOffer | bluetooth/audio/hal/A2dpOffloadCodecFactory.cpp:76-78 | the search stops at the first offer for the codec |
| OffloadFactory.A2dpOffloadCodecFactory.Try | bluetooth/audio/hal/A2dpOffloadCodecFactory.cpp:76-92 | one round of the loop, on the byte buffers, is one attempt |
| OffloadFactory.A2dpOffloadCodecFactory.GetConfiguration | bluetooth/audio/hal/A2dpOffloadCodecFactory.cpp:58-96 | the loop returns the first success of the tried list |
| SparseFormat.ExpandSerialized | cmds/simg2img_simple.cpp:66-111 | expanding the bytes of any encodable chunk list, whatever follows, writes the concatenated chunk denotations and consumes 28 bytes plus the total of all chunk sizes |
| SparseFormat.DoneIsSerialized | cmds/simg2img_simple.cpp:66-111 | the converse: an input that is expanded to the end begins with the bytes of a chunk list, and exactly its denotation is written |
| SparseFormat.ExitsAtFault | cmds/simg2img_simple.cpp:77-108 | any other input with a good header holds a chunk list and then a fault: the list's denotation and what there is of a RAW payload is written, and the exit code is the one of that fault |
| SparseFormat.StepFault | cmds/simg2img_simple.cpp:78-106 | which fault of a chunk has which exit code |
| SparseFormat.HeaderFault | cmds/simg2img_simple.cpp:68-74 | the exit code of every faulty header, stated on its bytes |
| SparseFormat.RawBytes | cmds/simg2img_simple.cpp:24-36 | a RAW chunk of one block, byte by byte |
| SparseFormat.FillBytes | cmds/simg2img_simple.cpp:24-36 | a FILL chunk, byte by byte |
| SparseFormat.DontCareBytes | cmds/simg2img_simple.cpp:24-36 | a DONT_CARE chunk, byte by byte |
| SparseFormat.Crc32Bytes | cmds/simg2img_simple.cpp:24-36 | a CRC32 chunk, byte by byte |
| SparseFormat.ImageSize | cmds/simg2img_simple.cpp:81-83 | the image has the announced number of blocks exactly when every RAW chunk is below 2^20 blocks, where the 32-bit size wraps |
| SparseFormat.RawSizeFits | cmds/simg2img_simple.cpp:81-83 | the wrapped size is the block count modulo 2^20 in blocks, and adding a chunk header to it never carries |
| SparseFormat.ReadChunk | cmds/simg2img_simple.cpp:31-36 | a chunk written at a position reads back field by field |
| SparseFormat.StepOfChunk | cmds/simg2img_simple.cpp:78-106 | at a written chunk one round of the loop writes its denotation and moves behind it |
| SparseFormat.ChunkStep | cmds/simg2img_simple.cpp:78-106 | a round either exits or consumes something and stays within the input |
| SparseExpander.Process.Transfer | cmds/simg2img_simple.cpp:47-62 | one round moves between 1 and count bytes in order, or exits: 112 at the end of the input, anything else only after a fault |
| SparseExpander.Process.NSendFile | cmds/simg2img_simple.cpp:45-64 | exactly size bytes are moved in order under any mix of splices, fallbacks and short transfers; an exit without a fault means that the input ended, all of it moved |
| SparseExpander.Process.ReadAndWrite | cmds/simg2img_simple.cpp:54-60 | the fallback moves what it reads, or exits with a part of it written |
| SparseExpander.Process.WriteZeros | cmds/simg2img_simple.cpp:91-92 | all blocks are written, or a short write stops the run |
| SparseExpander.Process.ExpandChunk | cmds/simg2img_simple.cpp:78-106 | one round of the chunk loop is one step of the format, or is cut short with its output a prefix |
| SparseExpander.Process.ExpandChunks | cmds/simg2img_simple.cpp:77-108 | the chunk loop runs the steps of the format, or is cut short with its output a prefix |
| SparseExpander.Process.Expand | cmds/simg2img_simple.cpp:66-111 | a run that returns 0 has written the expansion; without a fault the exit code and output are those of the format; in any case the output is a prefix; a fault has one of the exit codes 1, 3, 5, 8, 10, 112, 114 |
| AudioSession.ConfigurationIsLegal | bluetooth/audio/utils/aidl_session/BluetoothAudioSession.cpp:276-326 | over all call sequences of a known session type, the stored configuration and that of GetAudioConfig have a tag legal for the type |
| AudioSession.ConfigurationIsTheLast | bluetooth/audio/utils/aidl_session/BluetoothAudioSession.cpp:91-110 | a ready session returns the configuration of its last passing start or of a later report taken; one that is not ready returns the default values of its type |
| AudioSession.LegalTags | bluetooth/audio/utils/aidl_session/BluetoothAudioSession.cpp:276-326 | the legal tags of each known type: that of its default, and a2dp besides a2dpConfig |
| AudioSession.ReadyIff | bluetooth/audio/utils/aidl_session/BluetoothAudioSession.cpp:147-162 | only types whose default is PCM need a queue to be ready |
| AudioSession.StartOutcomes | bluetooth/audio/utils/aidl_session/BluetoothAudioSession.cpp:48-71 | the four outcomes of a start, field by field, who is told, and when the session is ready after a passing one |
| AudioSession.OtherOutcomes | bluetooth/audio/utils/aidl_session/BluetoothAudioSession.cpp:73-127 | the outcomes of an end and of a report, and who is told |
| AudioSession.ReadySinceStart | bluetooth/audio/utils/aidl_session/BluetoothAudioSession.cpp:48-71 | a stack interface is present exactly when a start that passed all three checks was neither ended nor replaced, and it is the one of that start |
| AudioSession.NotReadyAfterEnd | bluetooth/audio/utils/aidl_session/BluetoothAudioSession.cpp:73-83 | after an end the session is not ready before another such start |
| AudioSession.SilentChanges | bluetooth/audio/utils/aidl_session/BluetoothAudioSession.cpp:58-62 | readiness changes without any session_changed_cb_ exactly when a ready session is restarted with a queue that does not open, or one left without configuration gets an LE Audio configuration report |
| AudioSession.ConfigLostBy | bluetooth/audio/utils/aidl_session/BluetoothAudioSession.cpp:58-62 | the second case only follows the first |
| AudioSession.SilentlyLostAndRegained | bluetooth/audio/utils/aidl_session/BluetoothAudioSession.cpp:112-127 | a run with both cases, session_changed_cb_ being invoked for its first call only |
| AudioSession.ApplyKeepsInv | bluetooth/audio/utils/aidl_session/BluetoothAudioSession.cpp:48-202 | every call keeps tags legal and cookies in the range of the session type |
| AudioSession.RunKeepsInv | bluetooth/audio/utils/aidl_session/BluetoothAudioSession.cpp:48-202 | so they are in every reachable state |
| AudioSession.CookieDecodes | bluetooth/audio/utils/aidl_session/BluetoothAudioSession.h:55-67 | a cookie decodes to its session type, ranges do not overlap, and only the unknown type's holds "undefined" |
| AudioSession.CookiesRunOut | bluetooth/audio/utils/aidl_session/BluetoothAudioSession.cpp:170-193 | at most 16 observers; a new one gets the least free cookie; "undefined" exactly when all 16 are taken |
| AudioSession.BluetoothAudioSession.constructor | bluetooth/audio/utils/aidl_session/BluetoothAudioSession.cpp:39-40 | a new session is not started and has no observers |
| AudioSession.BluetoothAudioSession.IsSessionReady | bluetooth/audio/utils/aidl_session/BluetoothAudioSession.cpp:147-162 | readiness needs interface, configuration and, unless the type is a hardware one, a queue |
| AudioSession.BluetoothAudioSession.UpdateAudioConfig | bluetooth/audio/utils/aidl_session/BluetoothAudioSession.cpp:276-326 | the configuration is taken exactly when its tag is legal for the type |
| AudioSession.BluetoothAudioSession.UpdateDataPath | bluetooth/audio/utils/aidl_session/BluetoothAudioSession.cpp:260-274 | the queue is reset by null, opened, or refused and dropped |
| AudioSession.BluetoothAudioSession.ReportSessionStatus | bluetooth/audio/utils/aidl_session/BluetoothAudioSession.cpp:328-343 | every observer is told exactly once |
| AudioSession.BluetoothAudioSession.OnSessionStarted | bluetooth/audio/utils/aidl_session/BluetoothAudioSession.cpp:48-71 | the new state in all four outcomes, and who is told |
| AudioSession.BluetoothAudioSession.OnSessionEnded | bluetooth/audio/utils/aidl_session/BluetoothAudioSession.cpp:73-83 | everything is reset; observers are told exactly when the session had been ready |
| AudioSession.BluetoothAudioSession.ReportAudioConfigChanged | bluetooth/audio/utils/aidl_session/BluetoothAudioSession.cpp:112-145 | only LE Audio unicast offload sessions take the report, and only an LE Audio configuration; then audio_configuration_changed_cb_ is invoked, once each, for exactly the observers that have set it |
| AudioSession.BluetoothAudioSession.TellListeners | bluetooth/audio/utils/aidl_session/BluetoothAudioSession.cpp:132-144 | the loop invokes that callback of every observer that has it |
| AudioSession.BluetoothAudioSession.RegisterStatusCback | bluetooth/audio/utils/aidl_session/BluetoothAudioSession.cpp:170-193 | the loop finds the least free cookie and stores the observer under it |
| AudioSession.BluetoothAudioSession.UnregisterStatusCback | bluetooth/audio/utils/aidl_session/BluetoothAudioSession.cpp:195-202 | the cookie is free again |
| AudioSession.BluetoothAudioSession.GetPresentationPosition | bluetooth/audio/utils/aidl_session/BluetoothAudioSession.cpp:485-501 | false is returned in every case, also when a position was filled in |
| PcmPath.DataPath.OutWritePcmData | bluetooth/audio/utils/aidl_session/BluetoothAudioSession.cpp:351-388 | the first `result` bytes enter the queue in order and nothing else; no queue of a lost session is touched; a short result means session lost, queue failure or 1000 idle polls and a full queue; at most bytes + 1001 rounds |
| PcmPath.DataPath.InReadPcmData | bluetooth/audio/utils/aidl_session/BluetoothAudioSession.cpp:390-425 | the buffer gets the next `result` bytes of the stream in order, its rest and the queue of a lost session untouched; short results and rounds as for writing |
| PcmPath.DataPath.WriteUpTo | bluetooth/audio/utils/aidl_session/BluetoothAudioSession.cpp:364-375 | one poll writes a non-empty slice that fits, or fails and writes nothing |
| PcmPath.DataPath.ReadUpTo | bluetooth/audio/utils/aidl_session/BluetoothAudioSession.cpp:402-414 | one poll reads a non-empty piece that is there into its place, or fails and reads nothing |
| PortProtocol.StartedIff | bluetooth/audio/hw/device_port_proxy.cc:268-311 | a starting port ends up started exactly when the first callback is a success and only failures follow |
| PortProtocol.OutcomeOfStart | bluetooth/audio/hw/device_port_proxy.cc:268-329 | where any sequence of callbacks takes a starting or a started port: disabled by a session change only, in standby after a refusal |
| PortProtocol.OutcomeOfSuspend | bluetooth/audio/hw/device_port_proxy.cc:293-329 | and a suspending port, which any answer but a success disables |
| PortProtocol.SuspendedIff | bluetooth/audio/hw/device_port_proxy.cc:293-306 | a suspending port ends up in standby exactly when the first callback is a success and no session change follows |
| PortProtocol.EntersStarted | bluetooth/audio/hw/device_port_proxy.cc:279-291 | STARTED is entered only by the answer to a success taken while STARTING |
| PortProtocol.EntersOthers | bluetooth/audio/hw/device_port_proxy.cc:268-329 | the only steps that enter each of the other states |
| PortProtocol.StreamGoesOn | bluetooth/audio/hw/device_port_proxy.cc:459-544 | what the thread of the stream and the handler go on to by what they have loaded or been told, and that nothing but the port's mutex holds them up |
| PortProtocol.StartIsAnswered | bluetooth/audio/hw/device_port_proxy.cc:459-495 | when Start returns true, such an answer was stored after Start stored STARTING, and the port has been started since |
| PortProtocol.LeavesDisabled | bluetooth/audio/hw/stream_apis.cc:360-367 | the exact steps that take a port out of DISABLED: A2dpSuspended un-set on an A2DP port, and stale stores |
| PortProtocol.DisabledForGood | bluetooth/audio/hw/stream_apis.cc:660-689 | without stale stores a disabled LE Audio or hearing-aid port stays disabled and Start never succeeds on it |
| PortProtocol.StaleStart | bluetooth/audio/hw/device_port_proxy.cc:471-474 | with them it does not: a session change between the check and the store in Start is forgotten and the port starts |
| PortProtocol.StopOverwritten | bluetooth/audio/hw/device_port_proxy.cc:531-544 | an answer to a start that has timed out overwrites the DISABLED of Stop |
| DevicePort.BluetoothAudioPortAidl.SetUp | bluetooth/audio/hw/device_port_proxy.cc:135-178 | succeeds exactly when the device is known, its session ready and a cookie left; in standby as soon as the session is ready; the session then has the port as its observer under the least free cookie |
| DevicePort.BluetoothAudioPortAidl.ControlResultHandler | bluetooth/audio/hw/device_port_proxy.cc:253-314 | the new state for every state and status |
| DevicePort.BluetoothAudioPortAidl.CallBack | bluetooth/audio/hw/device_port_proxy.cc:140-164 | callbacks for another cookie, or to a port not in use, are dropped; any other is handled |
| DevicePort.BluetoothAudioPortAidl.CondwaitState | bluetooth/audio/hw/device_port_proxy.cc:427-457 | what counts at the end of the wait is the state |
| DevicePort.BluetoothAudioPortAidl.Start | bluetooth/audio/hw/device_port_proxy.cc:459-495 | true exactly when the port was in standby, the stack accepted, and the callbacks since were one success and then only failures |
| DevicePort.BluetoothAudioPortAidl.Suspend | bluetooth/audio/hw/device_port_proxy.cc:497-529 | true exactly when the port was started, the stack accepted, and the callbacks since were a success and then no session change |
| DevicePort.BluetoothAudioPortAidl.TearDown | bluetooth/audio/hw/device_port_proxy.cc:237-251 | the port is no longer in use and its cookie is free in the session |
| OutputStream.BluetoothStreamOut.CalculateFeedingDelay | bluetooth/audio/hw/stream_apis.cc:52-131 | the reported position is the stack's counter less the latency if that counter lies within one latency below the frames presented, else the frames presented less the latency; so it lies between presented - 2L and presented - L |
| OutputStream.DelayWindow | bluetooth/audio/hw/stream_apis.cc:75-101 | a reported delay counts from 51 ms up to 1000 ms, in nanoseconds; else it is that of the buffer plus 200 ms |
| OutputStream.BluetoothStreamOut.constructor | bluetooth/audio/hw/stream_apis.cc:823-827 | a stream starts with both counters at 0 and the frame count of its interval |
| OutputStream.BluetoothStreamOut.GetRenderPosition | bluetooth/audio/hw/stream_apis.cc:590-607 | the frames rendered less the latency, cut to 32 bits, never more than was rendered |
| OutputStream.BluetoothStreamOut.Write | bluetooth/audio/hw/stream_apis.cc:529-588 | from the moment the data is handed over both counters grow by the frames counted; on a disabled port that is not A2DP the write swallows all data and counts nothing, the port stays disabled, and the counters are unchanged unless other writes were already under way |
| OutputStream.BluetoothStreamOut.Others | bluetooth/audio/hw/stream_apis.cc:529-588 | any number of other requests, parameter strings, callbacks and ends of other writes, while the mutex is free, keep the stream valid and a disabled port that is not A2DP as it is, but for what those writes count |
| OutputStream.BluetoothStreamOut.CountFrames | bluetooth/audio/hw/stream_apis.cc:558-562 | the end of a write adds the same frames to both counters |
| OutputStream.CountIsRight | bluetooth/audio/hw/stream_apis.cc:558-562 | the count is never too low, and right exactly when nothing was taken or what was left out belongs to an incomplete last frame |
| OutputStream.CountsTooMany | bluetooth/audio/hw/stream_apis.cc:558-562 | half of two frames taken: two counted |
| OutputStream.BluetoothStreamOut.Standby | bluetooth/audio/hw/stream_apis.cc:268-295 | only a started stream is suspended and its rendered count reset; the return code for every state |
| OutputStream.BluetoothStreamOut.Pause | bluetooth/audio/hw/stream_apis.cc:634-658 | the return code and effect of standby, for every state |
| OutputStream.BluetoothStreamOut.Resume | bluetooth/audio/hw/stream_apis.cc:660-689 | 0 means started; the return code for every state |
| OutputStream.BluetoothStreamOut.SetParameters | bluetooth/audio/hw/stream_apis.cc:303-422 | state, counters and sample rate after any parameter string are those of its parsed map |
| OutputStream.BluetoothStreamOut.SuspendA2dp | bluetooth/audio/hw/stream_apis.cc:345-367 | suspending disables from every state; un-suspending only leads from disabled to standby |
| OutputStream.BluetoothStreamOut.StopCounting | bluetooth/audio/hw/stream_apis.cc:393-417 | closing or exiting disables, and resets both counters unless already disabled |
| OutputStream.BluetoothStreamOut.Close | bluetooth/audio/hw/stream_apis.cc:847-866 | a closed stream is disabled, both counters reset unless it was disabled before, and its cookie free in the session |
| OutputStream.DisabledByParameters | bluetooth/audio/hw/stream_apis.cc:345-417 | exactly when a parameter string leaves the port disabled, and when it resets which counter; a disabled port that is not A2DP is left as it is |
| OutputStream.Spelling | bluetooth/audio/hw/stream_apis.cc:345-417 | the settings that count, as they are spelt |
| OutputStream.LastSettingCounts | bluetooth/audio/hw/stream_apis.cc:345-367 | of two settings in one string the later one counts |
| AudioParams.ParseConcatenated | bluetooth/audio/hw/utils.cc:33-49 | Parse(a + ";" + b) is Parse(a) overridden by Parse(b), for all strings |
| AudioParams.ParseShapes | bluetooth/audio/hw/utils.cc:37-46 | a segment without '=', with two of them, and without a key |
| AudioParams.RoundTrip | bluetooth/audio/hw/stream_apis.cc:502-505 | a printed map parses back, in any order of printing, exactly when its keys are not empty and no key or value holds a separator |
| AudioParams.ParsePrintParse | bluetooth/audio/hw/utils.cc:33-49 | a parsed map always survives printing and parsing |
| AudioParams.ParsedIsPrintable | bluetooth/audio/hw/utils.cc:37-47 | keys of a parsed map are not empty, and neither keys nor values hold a separator |
| AudioParams.ParsePrinted | bluetooth/audio/hw/stream_apis.cc:502-505 | printing a list of keys and parsing gives the map on these keys |
| AudioParams.ParseAudioParams | bluetooth/audio/hw/utils.cc:33-49 | the loop computes the parsed map |
| AudioParams.PrintParams | bluetooth/audio/hw/stream_apis.cc:502-505 | the loop prints every pair once, and its result parses back under the condition of the round trip |
| AudioParams.SplitJoins | bluetooth/audio/hw/utils.cc:35-41 | the parts of a split, joined again, are the string |
| AudioParams.SplitParts | bluetooth/audio/hw/utils.cc:35-41 | and no part holds the separator |

## Left out

- DevicePort.BluetoothAudioPortAidl.Start: takes the check of the state and the store after it as one step; PortProtocol
  has the steps in between.
- OutputStream.BluetoothStreamOut.Write: takes each operation of another thread, and each check of the port's state with
  the store after it, as one step, as Start does; the stream is not closed meanwhile. Sleep pacing, the last write time
  and the mixing of stereo into mono are left out; what the data path takes is any number of bytes up to those asked for.
- OffloadFactory.A2dpOffloadCodecFactory.GetConfiguration: asks that the hinted codec is ranked; for another one the
  source reads through the end iterator.
- PcmPath.DataPath.OutWritePcmData: is for session types that need a queue; on hardware types the source would use a null
  queue. A null buffer is modelled. PcmPath.DataPath.InReadPcmData is restricted in the same way.
- SparseExpander.Process.Write: refuses a negative count, which is how a failed read reaches it; `size_t` is 64 bits wide.
- AudioSession.BluetoothAudioSession.ReportSessionStatus: observers do not call back into the session.
- Goodix: the daemon call and the HBM property are trace events, polling the display nodes is nondeterministic, the
  sequence counter does not wrap, and the waiter of a press appears with the end of its finger-down section. Coordinate
  file, memory patching, enrolment, authentication and error tables are not modelled.
- The bits that a range read combines with "or" are disjoint, so the model adds them.
- Frame counters do not wrap at 2^64; the casts of latency and render position to 32 bits are modelled.
- Sleeps and timeouts are nondeterministic.
- Which reads of the port's state in one stream call happen at which moment: a chain of tests on it is one read.
- The values of the AIDL enumerations, the audio parameter keys and `android::base::Split` come from headers and
  libraries that are not part of this model; they are taken as published.
- Latency modes, metadata, control status reports and the stream requests of the session: forwarding or plain filters.
- The input stream, whose position arithmetic and state handling repeat the output stream's.
- The value lists of `out_get_parameters`; only its printing loop is modelled.
- HIDL duplicates of session and port, LE Audio configuration providers, the vendor audio HAL wrappers, the other
  fingerprint HALs, and all other command line tools.
