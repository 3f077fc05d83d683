/** The Android sparse image format as the expander reads it: a 28-byte header, then chunks with a
    12-byte header each, all fields little-endian. */
module SparseFormat {
  import opened Arithmetic

  type Byte = b: int | 0 <= b < 0x100

  const SPARSE_HEADER_MAGIC := 0xed26ff3a
  const CHUNK_TYPE_RAW := 0xCAC1
  const CHUNK_TYPE_FILL := 0xCAC2
  const CHUNK_TYPE_DONT_CARE := 0xCAC3
  const CHUNK_TYPE_CRC32 := 0xCAC4
  const BLOCK := 4096
  const HEADER_SIZE := 28
  const CHUNK_HEADER_SIZE := 12
  const WORD := 0x1_0000_0000

  function Get16(b: seq<Byte>, i: nat): nat
    requires i + 2 <= |b|
  {
    b[i] as int + 0x100 * (b[i + 1] as int)
  }

  function Get32(b: seq<Byte>, i: nat): (v: nat)
    requires i + 4 <= |b|
    ensures v < WORD
  {
    b[i] as int + 0x100 * (b[i + 1] as int) + 0x1_0000 * (b[i + 2] as int) + 0x100_0000 * (b[i + 3] as int)
  }

  function Put16(v: nat): (b: seq<Byte>)
    ensures |b| == 2
  {
    [v % 0x100, v / 0x100 % 0x100]
  }

  function Put32(v: nat): (b: seq<Byte>)
    ensures |b| == 4
  {
    [v % 0x100, v / 0x100 % 0x100, v / 0x1_0000 % 0x100, v / 0x100_0000 % 0x100]
  }

  lemma Get16OfPut(v: nat, b: seq<Byte>, i: nat)
    requires v < 0x1_0000 && i + 2 <= |b| && b[i..i + 2] == Put16(v)
    ensures Get16(b, i) == v
  {
    assert b[i] == b[i..i + 2][0] && b[i + 1] == b[i..i + 2][1];
  }

  lemma Get32OfPut(v: nat, b: seq<Byte>, i: nat)
    requires v < WORD && i + 4 <= |b| && b[i..i + 4] == Put32(v)
    ensures Get32(b, i) == v
  {
    var v1 := v / 0x100;
    var v2 := v1 / 0x100;
    var v3 := v2 / 0x100;
    assert v == v % 0x100 + 0x100 * v1 && v1 == v1 % 0x100 + 0x100 * v2 && v2 == v2 % 0x100 + 0x100 * v3 && v3 < 0x100;
    ModuloOf(v, 0x1_0000, v2, v % 0x100 + 0x100 * (v1 % 0x100));
    ModuloOf(v, 0x100_0000, v3, v % 0x100 + 0x100 * (v1 % 0x100) + 0x1_0000 * (v2 % 0x100));
    var w := b[i..i + 4];
    assert b[i] == w[0] && b[i + 1] == w[1] && b[i + 2] == w[2] && b[i + 3] == w[3];
    assert w[0] == v % 0x100 && w[1] == v1 % 0x100 && w[2] == v2 % 0x100 && w[3] == v3;
  }

  lemma Put16OfGet(b: seq<Byte>, i: nat)
    requires i + 2 <= |b|
    ensures Put16(Get16(b, i)) == b[i..i + 2]
  {}

  lemma Digit(v: nat, low: nat, high: nat)
    requires low < 0x100 && v == low + 0x100 * high
    ensures v % 0x100 == low && v / 0x100 == high
  {}

  lemma Put32OfGet(b: seq<Byte>, i: nat)
    requires i + 4 <= |b|
    ensures Put32(Get32(b, i)) == b[i..i + 4]
  {
    var v := Get32(b, i);
    var v1: nat := b[i + 1] as int + 0x100 * (b[i + 2] as int) + 0x1_0000 * (b[i + 3] as int);
    var v2: nat := b[i + 2] as int + 0x100 * (b[i + 3] as int);
    Digit(v, b[i], v1);
    Digit(v1, b[i + 1], v2);
    Digit(v2, b[i + 2], b[i + 3]);
    assert v / 0x1_0000 == v1 / 0x100 && v / 0x100_0000 == v2 / 0x100;
    assert v2 / 0x100 % 0x100 == b[i + 3];
  }

  // A prefix and the rest of a segment of the input.
  lemma SplitSegment(input: seq<Byte>, pos: nat, a: seq<Byte>, b: seq<Byte>)
    requires pos + |a| + |b| <= |input| && input[pos..pos + |a| + |b|] == a + b
    ensures input[pos..pos + |a|] == a && input[pos + |a|..pos + |a| + |b|] == b
  {
    var here := input[pos..pos + |a| + |b|];
    assert here[..|a|] == a && here[|a|..] == b;
  }

  // ----- what the expander does with the bytes -----

  // How a run ends when every transfer succeeds: with the bytes consumed, or with an exit code.
  // Either way `output` is everything written.
  datatype Outcome = Done(output: seq<Byte>, consumed: nat) | Exit(output: seq<Byte>, code: nat)

  function Zeros(n: nat): seq<Byte> { seq(n, _ => 0) }

  // The size of a RAW payload as computed in 32 bits.
  function RawSize(blocks: nat): nat { BLOCK * blocks % WORD }

  // What one chunk does: write something and go on at `next`, or write something and exit.
  datatype Step = Wrote(output: seq<Byte>, next: nat) | Stopped(output: seq<Byte>, code: nat)

  function ChunkStep(input: seq<Byte>, pos: nat): (s: Step)
    requires pos <= |input|
    ensures s.Wrote? ==> pos < s.next <= |input|
  {
    if |input| - pos < CHUNK_HEADER_SIZE then Stopped([], 3)
    else
      var kind, blocks, total := Get16(input, pos), Get32(input, pos + 4), Get32(input, pos + 8);
      var body := pos + CHUNK_HEADER_SIZE;
      if kind == CHUNK_TYPE_RAW then
        if total != CHUNK_HEADER_SIZE + RawSize(blocks) then Stopped([], 7)
        else if |input| - body < RawSize(blocks) then Stopped(input[body..], 112)
        else Wrote(input[body..body + RawSize(blocks)], body + RawSize(blocks))
      else if kind == CHUNK_TYPE_FILL then
        if total != CHUNK_HEADER_SIZE + 4 then Stopped([], 7)
        else if |input| - body < 4 then Stopped([], 5)
        else if Get32(input, body) != 0 then Stopped([], 6)
        else Wrote(Zeros(BLOCK * blocks), body + 4)
      else if kind == CHUNK_TYPE_DONT_CARE then
        if total != CHUNK_HEADER_SIZE then Stopped([], 9)
        else Wrote(Zeros(BLOCK * blocks), body)
      else if kind == CHUNK_TYPE_CRC32 then
        if total != CHUNK_HEADER_SIZE + 4 then Stopped([], 7)
        else if |input| - body < 4 then Stopped([], 5)
        else Wrote([], body + 4)
      else Stopped([], 4)
  }

  function Steps(input: seq<Byte>): nat -> Step {
    (pos: nat) => if pos <= |input| then ChunkStep(input, pos) else Stopped([], 3)
  }

  // A number of steps one after the other.
  function Iterate(step: nat -> Step, pos: nat, chunks: nat, output: seq<Byte>): Outcome
    decreases chunks
  {
    if chunks == 0 then Done(output, pos)
    else
      match step(pos)
      case Stopped(last, code) => Exit(output + last, code)
      case Wrote(more, next) => Iterate(step, next, chunks - 1, output + more)
  }

  // The exit code for a header that the expander refuses, or 0.
  function CheckHeader(input: seq<Byte>): nat
    requires |input| >= HEADER_SIZE
  {
    if Get32(input, 0) != SPARSE_HEADER_MAGIC then 2
    else if Get32(input, 12) != BLOCK then 6
    else if Get16(input, 4) != 1 then 11
    else if Get16(input, 6) != 0 then 12
    else if Get16(input, 8) != HEADER_SIZE then 13
    else if Get16(input, 10) != CHUNK_HEADER_SIZE then 14
    else 0
  }

  function Expand(input: seq<Byte>): Outcome {
    if |input| < HEADER_SIZE then Exit([], 1)
    else if CheckHeader(input) != 0 then Exit([], CheckHeader(input))
    else Iterate(Steps(input), HEADER_SIZE, Get32(input, 20), [])
  }

  // ----- chunk lists -----

  datatype Chunk =
    | Raw(reserved: nat, blocks: nat, data: seq<Byte>)
    | Fill(reserved: nat, blocks: nat)
    | DontCare(reserved: nat, blocks: nat)
    | Crc32(reserved: nat, blocks: nat, crc: nat)

  // Fields that fit, and a payload of the size that the 32-bit total allows.
  predicate Encodable(c: Chunk) {
    && c.reserved < 0x1_0000 && c.blocks < WORD
    && (c.Raw? ==> |c.data| == RawSize(c.blocks))
    && (c.Crc32? ==> c.crc < WORD)
  }

  function Kind(c: Chunk): nat {
    match c
    case Raw(_, _, _) => CHUNK_TYPE_RAW
    case Fill(_, _) => CHUNK_TYPE_FILL
    case DontCare(_, _) => CHUNK_TYPE_DONT_CARE
    case Crc32(_, _, _) => CHUNK_TYPE_CRC32
  }

  function Payload(c: Chunk): seq<Byte> {
    match c
    case Raw(_, _, data) => data
    case Fill(_, _) => Put32(0)
    case DontCare(_, _) => []
    case Crc32(_, _, crc) => Put32(crc)
  }

  function SerializeChunk(c: Chunk): seq<Byte> {
    Put16(Kind(c)) + Put16(c.reserved) + Put32(c.blocks) + Put32(CHUNK_HEADER_SIZE + |Payload(c)|) + Payload(c)
  }

  function Concat(part: Chunk -> seq<Byte>, cs: seq<Chunk>): seq<Byte> {
    if cs == [] then [] else part(cs[0]) + Concat(part, cs[1..])
  }

  function Serialize(cs: seq<Chunk>): seq<Byte> { Concat(SerializeChunk, cs) }

  function DenoteChunk(c: Chunk): seq<Byte> {
    match c
    case Raw(_, _, data) => data
    case Fill(_, blocks) => Zeros(BLOCK * blocks)
    case DontCare(_, blocks) => Zeros(BLOCK * blocks)
    case Crc32(_, _, _) => []
  }

  function Denote(cs: seq<Chunk>): seq<Byte> { Concat(DenoteChunk, cs) }

  ghost predicate AllEncodable(cs: seq<Chunk>) { forall i :: 0 <= i < |cs| ==> Encodable(cs[i]) }

  // ----- properties -----

  // A serialized chunk in the middle of the input reads back field by field.
  lemma ReadChunk(input: seq<Byte>, pos: nat, c: Chunk)
    requires Encodable(c) && pos + |SerializeChunk(c)| <= |input|
    requires input[pos..pos + |SerializeChunk(c)|] == SerializeChunk(c)
    ensures |SerializeChunk(c)| == CHUNK_HEADER_SIZE + |Payload(c)|
    ensures Get16(input, pos) == Kind(c) && Get32(input, pos + 4) == c.blocks
    ensures Get32(input, pos + 8) == CHUNK_HEADER_SIZE + |Payload(c)|
    ensures input[pos + CHUNK_HEADER_SIZE..pos + CHUNK_HEADER_SIZE + |Payload(c)|] == Payload(c)
  {
    var total := CHUNK_HEADER_SIZE + |Payload(c)|;
    RawSizeFits(c.blocks);
    ReadFields(input, pos, Put16(Kind(c)), Put16(c.reserved), Put32(c.blocks), Put32(total), Payload(c));
    Get16OfPut(Kind(c), input, pos);
    Get32OfPut(c.blocks, input, pos + 4);
    Get32OfPut(total, input, pos + 8);
  }

  // A RAW size is a whole number of blocks, so adding a chunk header never carries.
  lemma RawSizeFits(blocks: nat)
    ensures RawSize(blocks) + CHUNK_HEADER_SIZE < WORD
    ensures RawSize(blocks) == BLOCK * (blocks % 0x10_0000)
    ensures RawSize(blocks) == BLOCK * blocks <==> blocks < 0x10_0000
  {
    var q, r := blocks / 0x10_0000, blocks % 0x10_0000;
    assert blocks == 0x10_0000 * q + r;
    assert BLOCK * blocks == WORD * q + BLOCK * r;
    ModuloOf(BLOCK * blocks, WORD, q, BLOCK * r);
  }

  lemma ReadFields(input: seq<Byte>, pos: nat, kind: seq<Byte>, reserved: seq<Byte>, blocks: seq<Byte>,
      size: seq<Byte>, payload: seq<Byte>)
    requires |kind| == |reserved| == 2 && |blocks| == |size| == 4 && pos + 12 + |payload| <= |input|
    requires input[pos..pos + 12 + |payload|] == kind + reserved + blocks + size + payload
    ensures input[pos..pos + 2] == kind && input[pos + 4..pos + 8] == blocks && input[pos + 8..pos + 12] == size
    ensures input[pos + 12..pos + 12 + |payload|] == payload
  {
    SplitSegment(input, pos, kind + reserved + blocks + size, payload);
    SplitSegment(input, pos, kind + reserved + blocks, size);
    SplitSegment(input, pos, kind + reserved, blocks);
    SplitSegment(input, pos, kind, reserved);
  }

  lemma StepOfChunk(input: seq<Byte>, pos: nat, c: Chunk)
    requires Encodable(c) && pos + |SerializeChunk(c)| <= |input|
    requires input[pos..pos + |SerializeChunk(c)|] == SerializeChunk(c)
    ensures ChunkStep(input, pos) == Wrote(DenoteChunk(c), pos + |SerializeChunk(c)|)
  {
    ReadChunk(input, pos, c);
    if c.Fill? {
      Get32OfPut(0, input, pos + CHUNK_HEADER_SIZE);
    }
  }

  // At every chunk of the list found in the input, the step writes what the chunk denotes and goes on
  // behind it.
  ghost predicate Reads(input: seq<Byte>, step: nat -> Step, code: Chunk -> seq<Byte>, meaning: Chunk -> seq<Byte>,
      c: Chunk)
  {
    forall p: nat {:trigger step(p)} :: p + |code(c)| <= |input| && input[p..p + |code(c)|] == code(c) ==>
      step(p) == Wrote(meaning(c), p + |code(c)|)
  }

  lemma {:induction false} IterateOver(input: seq<Byte>, step: nat -> Step, code: Chunk -> seq<Byte>,
      meaning: Chunk -> seq<Byte>, pos: nat, cs: seq<Chunk>, output: seq<Byte>)
    requires forall c :: c in cs ==> Reads(input, step, code, meaning, c)
    requires pos + |Concat(code, cs)| <= |input| && input[pos..pos + |Concat(code, cs)|] == Concat(code, cs)
    ensures Iterate(step, pos, |cs|, output) == Done(output + Concat(meaning, cs), pos + |Concat(code, cs)|)
    decreases |cs|
  {
    if cs == [] {
      assert output + [] == output;
    } else {
      var first, rest := code(cs[0]), Concat(code, cs[1..]);
      SplitSegment(input, pos, first, rest);
      assert Reads(input, step, code, meaning, cs[0]);
      assert step(pos) == Wrote(meaning(cs[0]), pos + |first|);
      IterateOver(input, step, code, meaning, pos + |first|, cs[1..], output + meaning(cs[0]));
      assert output + meaning(cs[0]) + Concat(meaning, cs[1..]) == output + Concat(meaning, cs);
    }
  }

  lemma StepsReadChunk(input: seq<Byte>, c: Chunk)
    requires Encodable(c)
    ensures Reads(input, Steps(input), SerializeChunk, DenoteChunk, c)
  {
    forall p: nat | p + |SerializeChunk(c)| <= |input| && input[p..p + |SerializeChunk(c)|] == SerializeChunk(c)
      ensures Steps(input)(p) == Wrote(DenoteChunk(c), p + |SerializeChunk(c)|)
    {
      StepOfChunk(input, p, c);
    }
  }

  // The header for a number of chunks; the block count and the checksum are not read.
  function SerializeHeader(totalBlocks: nat, totalChunks: nat, checksum: nat): (h: seq<Byte>)
    ensures |h| == HEADER_SIZE
  {
    Put32(SPARSE_HEADER_MAGIC) + Put16(1) + Put16(0) + Put16(HEADER_SIZE) + Put16(CHUNK_HEADER_SIZE) + Put32(BLOCK) +
    Put32(totalBlocks) + Put32(totalChunks) + Put32(checksum)
  }

  lemma HeaderAccepted(input: seq<Byte>, totalBlocks: nat, totalChunks: nat, checksum: nat)
    requires totalChunks < WORD
    requires |input| >= HEADER_SIZE && input[..HEADER_SIZE] == SerializeHeader(totalBlocks, totalChunks, checksum)
    ensures CheckHeader(input) == 0 && Get32(input, 20) == totalChunks
  {
    var h := input[..HEADER_SIZE];
    assert forall i, j :: 0 <= i <= j <= HEADER_SIZE ==> input[i..j] == h[i..j];
    assert h[0..4] == Put32(SPARSE_HEADER_MAGIC) && h[4..6] == Put16(1) && h[6..8] == Put16(0);
    assert h[8..10] == Put16(HEADER_SIZE) && h[10..12] == Put16(CHUNK_HEADER_SIZE) && h[12..16] == Put32(BLOCK);
    assert h[20..24] == Put32(totalChunks);
    Get32OfPut(SPARSE_HEADER_MAGIC, input, 0);
    Get16OfPut(1, input, 4);
    Get16OfPut(0, input, 6);
    Get16OfPut(HEADER_SIZE, input, 8);
    Get16OfPut(CHUNK_HEADER_SIZE, input, 10);
    Get32OfPut(BLOCK, input, 12);
    Get32OfPut(totalChunks, input, 20);
  }

  lemma ExpandChunks(input: seq<Byte>, cs: seq<Chunk>, totalBlocks: nat, checksum: nat)
    requires AllEncodable(cs) && |cs| < WORD && HEADER_SIZE + |Serialize(cs)| <= |input|
    requires input[..HEADER_SIZE] == SerializeHeader(totalBlocks, |cs|, checksum)
    requires input[HEADER_SIZE..HEADER_SIZE + |Serialize(cs)|] == Serialize(cs)
    ensures Expand(input) == Done(Denote(cs), HEADER_SIZE + |Serialize(cs)|)
  {
    HeaderAccepted(input, totalBlocks, |cs|, checksum);
    forall c | c in cs
      ensures Reads(input, Steps(input), SerializeChunk, DenoteChunk, c)
    {
      StepsReadChunk(input, c);
    }
    IterateOver(input, Steps(input), SerializeChunk, DenoteChunk, HEADER_SIZE, cs, []);
    assert [] + Denote(cs) == Denote(cs);
  }

  /** Expanding a serialized chunk list, whatever follows it, writes the concatenated denotations of
      the chunks and consumes the header and the chunks. */
  lemma ExpandSerialized(cs: seq<Chunk>, totalBlocks: nat, checksum: nat, trailing: seq<Byte>)
    requires AllEncodable(cs) && |cs| < WORD
    ensures Expand(SerializeHeader(totalBlocks, |cs|, checksum) + Serialize(cs) + trailing) ==
            Done(Denote(cs), HEADER_SIZE + |Serialize(cs)|)
  {
    var header, body := SerializeHeader(totalBlocks, |cs|, checksum), Serialize(cs);
    var input := header + body + trailing;
    ThreeParts(input, header, body, trailing);
    ExpandChunks(input, cs, totalBlocks, checksum);
  }

  lemma ThreeParts(input: seq<Byte>, a: seq<Byte>, b: seq<Byte>, c: seq<Byte>)
    requires input == a + b + c
    ensures input[..|a|] == a && input[|a|..|a| + |b|] == b
  {}

  // The chunk at a position of the input.
  function ChunkAt(input: seq<Byte>, pos: nat): Chunk
    requires pos + CHUNK_HEADER_SIZE <= |input|
  {
    var kind, reserved, blocks := Get16(input, pos), Get16(input, pos + 2), Get32(input, pos + 4);
    var body := pos + CHUNK_HEADER_SIZE;
    if kind == CHUNK_TYPE_RAW && body + RawSize(blocks) <= |input| then
      Raw(reserved, blocks, input[body..body + RawSize(blocks)])
    else if kind == CHUNK_TYPE_FILL then Fill(reserved, blocks)
    else if kind == CHUNK_TYPE_CRC32 && body + 4 <= |input| then Crc32(reserved, blocks, Get32(input, body))
    else DontCare(reserved, blocks)
  }

  lemma ChunkIsSerialized(input: seq<Byte>, pos: nat, total: nat)
    requires pos + total <= |input| && total >= CHUNK_HEADER_SIZE
    requires var c := ChunkAt(input, pos);
             && Kind(c) == Get16(input, pos) && Get32(input, pos + 8) == total
             && total == CHUNK_HEADER_SIZE + |Payload(c)|
             && input[pos + CHUNK_HEADER_SIZE..pos + total] == Payload(c)
    ensures input[pos..pos + total] == SerializeChunk(ChunkAt(input, pos))
  {
    var c := ChunkAt(input, pos);
    Put16OfGet(input, pos);
    Put16OfGet(input, pos + 2);
    Put32OfGet(input, pos + 4);
    Put32OfGet(input, pos + 8);
    assert input[pos..pos + total] == input[pos..pos + 2] + input[pos + 2..pos + 4] + input[pos + 4..pos + 8] +
      input[pos + 8..pos + 12] + input[pos + 12..pos + total];
  }

  lemma StepIsChunk(input: seq<Byte>, pos: nat)
    requires pos <= |input| && ChunkStep(input, pos).Wrote?
    ensures pos + CHUNK_HEADER_SIZE <= |input|
    ensures var c := ChunkAt(input, pos);
            && Encodable(c) && pos + |SerializeChunk(c)| <= |input|
            && input[pos..pos + |SerializeChunk(c)|] == SerializeChunk(c)
  {
    var c := ChunkAt(input, pos);
    var body := pos + CHUNK_HEADER_SIZE;
    if c.Fill? || c.Crc32? { Put32OfGet(input, body); }
    ChunkIsSerialized(input, pos, CHUNK_HEADER_SIZE + |Payload(c)|);
  }

  // If the step writes, the input holds the chunk found there.
  ghost predicate FindsAt(input: seq<Byte>, step: nat -> Step, code: Chunk -> seq<Byte>, found: nat -> Chunk, p: nat) {
    p <= |input| && step(p).Wrote? ==>
      var c := found(p);
      && Encodable(c) && step(p).next == p + |code(c)| <= |input|
      && input[p..p + |code(c)|] == code(c)
  }

  ghost predicate Finds(input: seq<Byte>, step: nat -> Step, code: Chunk -> seq<Byte>, found: nat -> Chunk) {
    forall p: nat {:trigger step(p)} :: FindsAt(input, step, code, found, p)
  }

  lemma {:induction false} IteratedChunks(input: seq<Byte>, step: nat -> Step, code: Chunk -> seq<Byte>,
      found: nat -> Chunk, pos: nat, chunks: nat, output: seq<Byte>) returns (cs: seq<Chunk>)
    requires pos <= |input| && Finds(input, step, code, found) && Iterate(step, pos, chunks, output).Done?
    ensures AllEncodable(cs) && |cs| == chunks && pos + |Concat(code, cs)| <= |input|
    ensures input[pos..pos + |Concat(code, cs)|] == Concat(code, cs)
    decreases chunks
  {
    cs := [];
    if chunks > 0 {
      assert step(pos).Wrote?;
      var c := found(pos);
      var next := pos + |code(c)|;
      var rest := IteratedChunks(input, step, code, found, next, chunks - 1, output + step(pos).output);
      cs := [c] + rest;
      assert cs[1..] == rest;
      var more := Concat(code, rest);
      assert input[pos..next + |more|] == input[pos..next] + input[next..next + |more|];
    }
  }

  lemma StepFindsChunk(input: seq<Byte>, pos: nat)
    requires pos <= |input| && ChunkStep(input, pos).Wrote?
    ensures pos + CHUNK_HEADER_SIZE <= |input|
    ensures var c := ChunkAt(input, pos);
            && Encodable(c) && ChunkStep(input, pos).next == pos + |SerializeChunk(c)| <= |input|
            && input[pos..pos + |SerializeChunk(c)|] == SerializeChunk(c)
  {
    StepIsChunk(input, pos);
    StepOfChunk(input, pos, ChunkAt(input, pos));
  }

  lemma StepsFindChunkAt(input: seq<Byte>, p: nat)
    ensures FindsAt(input, Steps(input), SerializeChunk, Chunks(input), p)
  {
    if p <= |input| && ChunkStep(input, p).Wrote? {
      StepFindsChunk(input, p);
      assert Chunks(input)(p) == ChunkAt(input, p);
    }
  }

  lemma StepsFindChunks(input: seq<Byte>)
    ensures Finds(input, Steps(input), SerializeChunk, Chunks(input))
  {
    forall p: nat
      ensures FindsAt(input, Steps(input), SerializeChunk, Chunks(input), p)
    {
      StepsFindChunkAt(input, p);
    }
  }

  function Chunks(input: seq<Byte>): nat -> Chunk {
    (pos: nat) => if pos + CHUNK_HEADER_SIZE <= |input| then ChunkAt(input, pos) else DontCare(0, 0)
  }

  /** The converse: an expansion that ends well has read a header and a chunk list, and has written
      nothing but the denotation of that list. */
  lemma DoneIsSerialized(input: seq<Byte>) returns (cs: seq<Chunk>)
    requires Expand(input).Done?
    ensures AllEncodable(cs) && |cs| < WORD && HEADER_SIZE + |Serialize(cs)| <= |input|
    ensures input[..HEADER_SIZE] == SerializeHeader(Get32(input, 16), |cs|, Get32(input, 24))
    ensures input[HEADER_SIZE..HEADER_SIZE + |Serialize(cs)|] == Serialize(cs)
    ensures Expand(input) == Done(Denote(cs), HEADER_SIZE + |Serialize(cs)|)
  {
    StepsFindChunks(input);
    cs := IteratedChunks(input, Steps(input), SerializeChunk, Chunks(input), HEADER_SIZE, Get32(input, 20), []);
    HeaderIsSerialized(input);
    ExpandChunks(input, cs, Get32(input, 16), Get32(input, 24));
  }

  lemma HeaderIsSerialized(input: seq<Byte>)
    requires |input| >= HEADER_SIZE && CheckHeader(input) == 0
    ensures input[..HEADER_SIZE] == SerializeHeader(Get32(input, 16), Get32(input, 20), Get32(input, 24))
  {
    Put32OfGet(input, 0);
    Put16OfGet(input, 4);
    Put16OfGet(input, 6);
    Put16OfGet(input, 8);
    Put16OfGet(input, 10);
    Put32OfGet(input, 12);
    Put32OfGet(input, 16);
    Put32OfGet(input, 20);
    Put32OfGet(input, 24);
    assert input[..HEADER_SIZE] == input[0..4] + input[4..6] + input[6..8] + input[8..10] + input[10..12] +
      input[12..16] + input[16..20] + input[20..24] + input[24..28];
  }

  // ----- which fault ends a run, and how -----

  lemma {:induction false} IterateSplit(step: nat -> Step, pos: nat, a: nat, b: nat, output: seq<Byte>)
    requires Iterate(step, pos, a, output).Done?
    ensures var r := Iterate(step, pos, a, output);
            Iterate(step, pos, a + b, output) == Iterate(step, r.consumed, b, r.output)
    decreases a
  {
    if a > 0 { IterateSplit(step, step(pos).next, a - 1, b, output + step(pos).output); }
  }

  // A run that stops has passed over a list of chunks to the place where the step stops.
  lemma {:induction false} IteratedFault(input: seq<Byte>, step: nat -> Step, code: Chunk -> seq<Byte>,
      found: nat -> Chunk, pos: nat, chunks: nat, output: seq<Byte>) returns (cs: seq<Chunk>, at: nat)
    requires pos <= |input| && Finds(input, step, code, found) && Iterate(step, pos, chunks, output).Exit?
    ensures AllEncodable(cs) && |cs| < chunks && at == pos + |Concat(code, cs)| <= |input|
    ensures input[pos..at] == Concat(code, cs) && step(at).Stopped?
    decreases chunks
  {
    cs, at := [], pos;
    if step(pos).Wrote? {
      var c := found(pos);
      var next := pos + |code(c)|;
      var rest;
      rest, at := IteratedFault(input, step, code, found, next, chunks - 1, output + step(pos).output);
      cs := [c] + rest;
      assert cs[1..] == rest;
      assert input[pos..at] == input[pos..next] + input[next..at];
    }
  }

  lemma StopsAfter(input: seq<Byte>, step: nat -> Step, code: Chunk -> seq<Byte>, meaning: Chunk -> seq<Byte>,
      pos: nat, cs: seq<Chunk>, at: nat, chunks: nat)
    requires forall c :: c in cs ==> Reads(input, step, code, meaning, c)
    requires at == pos + |Concat(code, cs)| <= |input| && input[pos..at] == Concat(code, cs)
    requires |cs| < chunks && step(at).Stopped?
    ensures Iterate(step, pos, chunks, []) == Exit(Concat(meaning, cs) + step(at).output, step(at).code)
  {
    IterateOver(input, step, code, meaning, pos, cs, []);
    assert [] + Concat(meaning, cs) == Concat(meaning, cs);
    IterateSplit(step, pos, |cs|, chunks - |cs|, []);
  }

  // The faults that a chunk can have, its exit code and what is written of it before.
  ghost predicate FaultAt(input: seq<Byte>, at: nat, code: nat, last: seq<Byte>)
    requires at <= |input|
  {
    if |input| - at < 12 then code == 3 && last == []
    else
      var kind, blocks, total := Get16(input, at), Get32(input, at + 4), Get32(input, at + 8);
      var left := |input| - (at + 12);
      var sized := kind == 0xCAC1 && total == 12 + 4096 * (blocks % 0x10_0000);
      match code
      case 4 => last == [] && kind != 0xCAC1 && kind != 0xCAC2 && kind != 0xCAC3 && kind != 0xCAC4
      case 5 => last == [] && (kind == 0xCAC2 || kind == 0xCAC4) && total == 16 && left < 4
      case 6 => last == [] && kind == 0xCAC2 && total == 16 && left >= 4 && Get32(input, at + 12) != 0
      case 7 => last == [] && ((kind == 0xCAC1 && !sized) || ((kind == 0xCAC2 || kind == 0xCAC4) && total != 16))
      case 9 => last == [] && kind == 0xCAC3 && total != 12
      case 112 => last == input[at + 12..] && sized && left < 4096 * (blocks % 0x10_0000)
      case _ => false
  }

  lemma StepFault(input: seq<Byte>, at: nat, code: nat, last: seq<Byte>)
    requires at <= |input|
    ensures ChunkStep(input, at) == Stopped(last, code) <==> FaultAt(input, at, code, last)
  {
    if |input| - at >= 12 { RawSizeFits(Get32(input, at + 4)); }
  }

  /** An input with a good header that does not expand to the end holds a chunk list and then, where a
      further chunk was due, a fault: the list's denotation is written, of the faulty chunk what there
      is of a RAW payload, and the exit code is the one of the fault. */
  lemma ExitsAtFault(input: seq<Byte>) returns (cs: seq<Chunk>, at: nat, last: seq<Byte>)
    requires |input| >= HEADER_SIZE && CheckHeader(input) == 0 && Expand(input).Exit?
    ensures AllEncodable(cs) && |cs| < Get32(input, 20)
    ensures at == HEADER_SIZE + |Serialize(cs)| <= |input| && input[HEADER_SIZE..at] == Serialize(cs)
    ensures Expand(input).output == Denote(cs) + last && FaultAt(input, at, Expand(input).code, last)
  {
    var step, chunks := Steps(input), Get32(input, 20);
    StepsFindChunks(input);
    cs, at := IteratedFault(input, step, SerializeChunk, Chunks(input), HEADER_SIZE, chunks, []);
    last := step(at).output;
    forall c | c in cs
      ensures Reads(input, step, SerializeChunk, DenoteChunk, c)
    {
      StepsReadChunk(input, c);
    }
    StopsAfter(input, step, SerializeChunk, DenoteChunk, HEADER_SIZE, cs, at, chunks);
    StepFault(input, at, step(at).code, last);
  }

  // What the program says of a header, byte by byte.
  ghost function HeaderVerdict(input: seq<Byte>): nat
    requires |input| >= 28
  {
    if input[0..4] != [0x3a, 0xff, 0x26, 0xed] then 2
    else if input[12..16] != [0, 0x10, 0, 0] then 6
    else if input[4..6] != [1, 0] then 11
    else if input[6..8] != [0, 0] then 12
    else if input[8..10] != [28, 0] then 13
    else if input[10..12] != [12, 0] then 14
    else 0
  }

  lemma Word32(input: seq<Byte>, i: nat, v: nat)
    requires i + 4 <= |input| && v < WORD
    ensures Get32(input, i) == v <==> input[i..i + 4] == Put32(v)
  {
    Put32OfGet(input, i);
    if input[i..i + 4] == Put32(v) { Get32OfPut(v, input, i); }
  }

  lemma Word16(input: seq<Byte>, i: nat, v: nat)
    requires i + 2 <= |input| && v < 0x1_0000
    ensures Get16(input, i) == v <==> input[i..i + 2] == Put16(v)
  {
    Put16OfGet(input, i);
    if input[i..i + 2] == Put16(v) { Get16OfPut(v, input, i); }
  }

  /** The first fault of the header decides: magic, block size, versions, header sizes, in this order. */
  lemma HeaderFault(input: seq<Byte>)
    ensures |input| < 28 ==> Expand(input) == Exit([], 1)
    ensures |input| >= 28 ==> CheckHeader(input) == HeaderVerdict(input)
    ensures |input| >= 28 && HeaderVerdict(input) != 0 ==> Expand(input) == Exit([], HeaderVerdict(input))
  {
    if |input| >= 28 {
      Word32(input, 0, SPARSE_HEADER_MAGIC);
      Word32(input, 12, BLOCK);
      Word16(input, 4, 1);
      Word16(input, 6, 0);
      Word16(input, 8, HEADER_SIZE);
      Word16(input, 10, CHUNK_HEADER_SIZE);
      assert Put32(SPARSE_HEADER_MAGIC) == [0x3a, 0xff, 0x26, 0xed] && Put32(BLOCK) == [0, 0x10, 0, 0];
    }
  }

  // The two kinds of number, and then one chunk of each kind, as they stand in a file.
  lemma Numbers()
    ensures Put16(0xCAC1) == [0xc1, 0xca] && Put16(0xCAC2) == [0xc2, 0xca]
    ensures Put16(0xCAC3) == [0xc3, 0xca] && Put16(0xCAC4) == [0xc4, 0xca]
    ensures Put16(0) == [0, 0] && Put16(7) == [7, 0]
    ensures Put32(0) == [0, 0, 0, 0] && Put32(1) == [1, 0, 0, 0] && Put32(258) == [2, 1, 0, 0]
    ensures Put32(12) == [12, 0, 0, 0] && Put32(16) == [16, 0, 0, 0] && Put32(4108) == [0x0c, 0x10, 0, 0]
    ensures Put32(0x01020304) == [4, 3, 2, 1]
  {}

  lemma RawBytes(data: seq<Byte>)
    requires |data| == 4096
    ensures SerializeChunk(Raw(0, 1, data)) ==
            [0xc1, 0xca] + [0, 0] + [1, 0, 0, 0] + [0x0c, 0x10, 0, 0] + data
  {
    Numbers();
  }

  lemma FillBytes()
    ensures SerializeChunk(Fill(0, 1)) == [0xc2, 0xca] + [0, 0] + [1, 0, 0, 0] + [16, 0, 0, 0] + [0, 0, 0, 0]
  {
    Numbers();
  }

  lemma DontCareBytes()
    ensures SerializeChunk(DontCare(7, 258)) == [0xc3, 0xca] + [7, 0] + [2, 1, 0, 0] + [12, 0, 0, 0]
  {
    Numbers();
  }

  lemma Crc32Bytes()
    ensures SerializeChunk(Crc32(0, 0, 0x01020304)) ==
            [0xc4, 0xca] + [0, 0] + [0, 0, 0, 0] + [16, 0, 0, 0] + [4, 3, 2, 1]
  {
    Numbers();
  }

  // The size of the image that the chunk headers announce.
  function AnnouncedBlocks(cs: seq<Chunk>): nat {
    if cs == [] then 0 else (if cs[0].Crc32? then 0 else cs[0].blocks) + AnnouncedBlocks(cs[1..])
  }

  /** The image written has the announced number of blocks exactly when every RAW chunk is below 2^20
      blocks, the point at which the 32-bit size wraps. */
  lemma {:induction false} ImageSize(cs: seq<Chunk>)
    requires AllEncodable(cs)
    ensures |Denote(cs)| <= BLOCK * AnnouncedBlocks(cs)
    ensures |Denote(cs)| == BLOCK * AnnouncedBlocks(cs) <==>
            forall i :: 0 <= i < |cs| && cs[i].Raw? ==> cs[i].blocks < 0x10_0000
  {
    if cs != [] {
      ImageSize(cs[1..]);
      assert Encodable(cs[0]);
      assert forall i :: 0 < i < |cs| ==> cs[i] == cs[1..][i - 1];
    }
  }
}
