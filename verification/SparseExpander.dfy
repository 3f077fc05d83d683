/** The expander program: standard input and output behind read, write and splice, any of which may
    move fewer bytes than asked for, or none. An exit is a non-zero code handed up to `Expand`. */
module SparseExpander {
  import opened SparseFormat

  const BUFFER := 1024 * 1024

  class Process {
    const input: seq<Byte>        // what standard input will deliver
    var pos: nat                  // how much of it has been consumed
    var output: seq<Byte>         // what has reached standard output
    var disableSplice: bool
    ghost var faulted: bool       // a call moved less than it could have and made the program exit

    ghost predicate Valid()
      reads this
    {
      pos <= |input|
    }

    constructor (input: seq<Byte>)
      ensures Valid() && this.input == input && pos == 0 && output == [] && !disableSplice && !faulted
    {
      this.input, pos, output, disableSplice, faulted := input, 0, [], false, false;
    }

    // ----- system calls -----

    method Read(n: nat) returns (res: int, buf: seq<Byte>)
      requires Valid()
      modifies this`pos
      ensures Valid() && -1 <= res <= n
      ensures if res < 0 then pos == old(pos) && buf == [] else pos == old(pos) + res && buf == input[old(pos)..pos]
    {
      res :| -1 <= res <= n && res <= |input| - pos;
      if res < 0 { return res, []; }
      buf := input[pos..pos + res];
      pos := pos + res;
    }

    // A negative count is refused.
    method Write(buf: seq<Byte>, n: int) returns (res: int)
      requires n <= |buf|
      modifies this`output
      ensures -1 <= res && (res <= n || n < 0) && (n < 0 ==> res == -1)
      ensures output == old(output) + if res < 0 then [] else buf[..res]
    {
      if n < 0 {
        res := -1;
      } else {
        res :| -1 <= res <= n;
        if res >= 0 { output := output + buf[..res]; }
      }
    }

    method Splice(count: nat) returns (res: int)
      requires Valid()
      modifies this`pos, this`output
      ensures Valid() && -1 <= res <= count
      ensures if res < 0 then pos == old(pos) && output == old(output)
              else pos == old(pos) + res && output == old(output) + input[old(pos)..pos]
    {
      res :| -1 <= res <= count && res <= |input| - pos;
      if res >= 0 {
        output := output + input[pos..pos + res];
        pos := pos + res;
      }
    }

    // ----- the program -----

    // Up to `size` bytes of the input from `start` on were written.
    ghost predicate MovedPart(before: seq<Byte>, start: nat, size: nat)
      reads this
    {
      var k := |output| - |before|;
      0 <= k <= size && start + k <= |input| && output == before + input[start..start + k]
    }

    // A read and a write, for a round whose splice fails; `ok` is false where the write is short.
    method ReadAndWrite(count: nat) returns (ok: bool, res: int)
      requires Valid() && count > 0
      modifies this`pos, this`output, this`faulted
      ensures Valid() && MovedPart(old(output), old(pos), count)
      ensures ok ==>
        && -1 <= res <= count && pos == old(pos) + (if res < 0 then 0 else res)
        && output == old(output) + input[old(pos)..pos] && faulted == old(faulted)
      ensures !ok ==> faulted
    {
      var sizeToRead := BUFFER;
      if count < sizeToRead { sizeToRead := count; }
      var buf;
      res, buf := Read(sizeToRead);
      var written := Write(buf, res);
      ok := written == res;
      PartOfSlice(input, old(pos), buf, if written < 0 then 0 else written);
      if !ok { faulted := true; }
    }

    // One round of the loop in nsendfile: a splice, or a read and a write where splicing fails.
    method Transfer(count: nat) returns (code: nat, moved: nat)
      requires Valid() && count > 0
      modifies this
      ensures Valid() && (old(faulted) ==> faulted) && MovedPart(old(output), old(pos), count)
      ensures code == 0 ==>
        && 0 < moved <= count && pos == old(pos) + moved
        && output == old(output) + input[old(pos)..pos] && faulted == old(faulted)
      ensures code != 0 ==> code == 112 || code == 114
      ensures code != 0 && !faulted ==> code == 112 && old(pos) == |input| && output == old(output)
    {
      var res := -1;
      if !disableSplice {
        res := Splice(count);
      }
      if count > 16 * 1024 && res < 1024 {
        disableSplice := true;
      }
      if res == -1 {
        var ok;
        ok, res := ReadAndWrite(count);
        if !ok { return 114, 0; }
      }
      if res == 0 || res == -1 {
        faulted := faulted || pos < |input|;
        return 112, 0;
      }
      return 0, res;
    }

    /** Moves exactly `size` bytes in order, by whatever mix of splices, reads and short transfers, or
        exits; without a fault it exits only because the input ends, having moved all of it. */
    method NSendFile(size: nat) returns (code: nat)
      requires Valid()
      modifies this
      ensures Valid() && (old(faulted) ==> faulted) && MovedPart(old(output), old(pos), size)
      ensures code == 0 ==>
        pos == old(pos) + size && output == old(output) + input[old(pos)..pos] && faulted == old(faulted)
      ensures code != 0 ==> code == 112 || code == 114
      ensures code != 0 && !faulted ==>
        code == 112 && |input| - old(pos) < size && output == old(output) + input[old(pos)..]
    {
      var count := size;
      ghost var start, before := pos, output;
      while count > 0
        invariant Valid() && 0 <= count <= size && pos == start + (size - count)
        invariant output == before + input[start..pos] && faulted == old(faulted)
      {
        ghost var here, so := pos, output;
        var moved;
        code, moved := Transfer(count);
        Extend(before, input, start, here, |output| - |so|);
        if code != 0 { return; }
        count := count - moved;
      }
      code := 0;
    }

    // A read of a whole structure.
    method ReadExactly(n: nat) returns (ok: bool, buf: seq<Byte>)
      requires Valid() && n > 0
      modifies this`pos, this`faulted
      ensures Valid() && (old(faulted) ==> faulted)
      ensures ok ==> pos == old(pos) + n && buf == input[old(pos)..pos] && faulted == old(faulted)
      ensures !ok && !faulted ==> |input| - old(pos) < n
    {
      ghost var here := pos;
      var res;
      res, buf := Read(n);
      ok := res == n;
      faulted := faulted || (!ok && |input| - here >= n);
    }

    method WriteZeros(blocks: nat) returns (ok: bool)
      modifies this`output, this`faulted
      ensures ok ==> output == old(output) + Zeros(BLOCK * blocks) && faulted == old(faulted)
      ensures !ok ==> faulted && exists k: nat :: k <= BLOCK * blocks && output == old(output) + Zeros(k)
    {
      var block := seq(BLOCK, _ => 0);
      ghost var before := output;
      for i := 0 to blocks
        invariant output == before + Zeros(BLOCK * i) && faulted == old(faulted)
      {
        var res := Write(block, BLOCK);
        ghost var k := if res < 0 then 0 else res;
        assert Zeros(BLOCK * i) + block[..k] == Zeros(BLOCK * i + k);
        assert output == before + Zeros(BLOCK * i + k);
        if res != BLOCK {
          faulted := true;
          return false;
        }
      }
      ok := true;
    }

    // The step was taken as the format says, or it was cut short by an exit on the way.
    twostate predicate Took(s: Step, code: nat)
      reads this
    {
      && (old(faulted) ==> faulted)
      && old(output) <= output <= old(output) + s.output
      && (code == 0 ==>
            s.Wrote? && pos == s.next && output == old(output) + s.output && faulted == old(faulted))
      && (code != 0 && !faulted ==>
            s.Stopped? && code == s.code && output == old(output) + s.output)
    }

    // The exit codes of a faulty system call in the body of a chunk.
    static predicate FaultCode(kind: nat, code: nat) {
      match kind
      case 0xCAC1 => code == 112 || code == 114
      case 0xCAC2 => code == 5 || code == 8
      case 0xCAC3 => code == 10
      case 0xCAC4 => code == 5
      case _ => false
    }

    // The rest of the chunk whose header, at `at`, has just been read.
    method ExpandBody(ghost at: nat, kind: nat, blocks: nat, total: nat) returns (code: nat)
      requires Valid() && pos == at + CHUNK_HEADER_SIZE
      requires kind == Get16(input, at) && blocks == Get32(input, at + 4) && total == Get32(input, at + 8)
      modifies this
      ensures Valid() && Took(ChunkStep(input, at), code)
      ensures faulted && !old(faulted) ==> FaultCode(kind, code)
    {
      if kind == CHUNK_TYPE_RAW {
        if total != CHUNK_HEADER_SIZE + RawSize(blocks) { return 7; }
        code := NSendFile(RawSize(blocks));
      } else if kind == CHUNK_TYPE_FILL {
        if total != CHUNK_HEADER_SIZE + 4 { return 7; }
        var filled, fill := ReadExactly(4);
        if !filled { return 5; }
        SameWord(input, at + CHUNK_HEADER_SIZE, fill);
        if Get32(fill, 0) != 0 { return 6; }
        var done := WriteZeros(blocks);
        code := if done then 0 else 8;
      } else if kind == CHUNK_TYPE_DONT_CARE {
        if total != CHUNK_HEADER_SIZE { return 9; }
        var done := WriteZeros(blocks);
        code := if done then 0 else 10;
      } else if kind == CHUNK_TYPE_CRC32 {
        if total != CHUNK_HEADER_SIZE + 4 { return 7; }
        var checked, crc32 := ReadExactly(4);
        code := if checked then 0 else 5;
      } else {
        code := 4;
      }
    }

    /** One round of the chunk loop. */
    method ExpandChunk() returns (code: nat)
      requires Valid()
      modifies this
      ensures Valid() && Took(ChunkStep(input, old(pos)), code)
      ensures faulted && !old(faulted) ==>
        code == 3 || (old(pos) + 12 <= |input| && FaultCode(Get16(input, old(pos)), code))
    {
      var ok, chunk := ReadExactly(CHUNK_HEADER_SIZE);
      if !ok { return 3; }
      SameFields(input, old(pos), chunk);
      code := ExpandBody(old(pos), Get16(chunk, 0), Get32(chunk, 4), Get32(chunk, 8));
    }

    // What is left of a run of `chunks` rounds from here went as far as the code says.
    twostate predicate Ran(step: nat -> Step, chunks: nat, code: nat)
      reads this
    {
      var all := Iterate(step, old(pos), chunks, old(output));
      && (old(faulted) ==> faulted) && output <= all.output
      && (code == 0 ==> all == Done(output, pos) && faulted == old(faulted))
      && (code != 0 && !faulted ==> all == Exit(output, code))
    }

    static predicate FaultedWith(code: nat) {
      code == 3 || code == 5 || code == 8 || code == 10 || code == 112 || code == 114
    }

    // One round, as a step of the iteration.
    method Round(ghost step: nat -> Step, ghost chunks: nat) returns (code: nat)
      requires Valid() && chunks > 0 && step == Steps(input)
      modifies this
      ensures Valid() && (old(faulted) ==> faulted)
      ensures code == 0 ==> faulted == old(faulted)
      ensures code == 0 ==> Iterate(step, old(pos), chunks, old(output)) == Iterate(step, pos, chunks - 1, output)
      ensures code != 0 ==> Ran(step, chunks, code)
      ensures faulted && !old(faulted) ==> FaultedWith(code)
    {
      ghost var s := step(pos);
      assert s == ChunkStep(input, pos);
      OutputGrows(step, pos, chunks, output);
      code := ExpandChunk();
    }

    method ExpandChunks(ghost step: nat -> Step, chunks: nat) returns (code: nat)
      requires Valid() && step == Steps(input)
      modifies this
      ensures Valid() && Ran(step, chunks, code)
      ensures faulted && !old(faulted) ==> FaultedWith(code)
    {
      ghost var all := Iterate(step, pos, chunks, output);
      for i := 0 to chunks
        invariant Valid() && faulted == old(faulted)
        invariant all == Iterate(step, pos, chunks - i, output)
      {
        code := Round(step, chunks - i);
        if code != 0 { return; }
      }
      code := 0;
    }

    /** The whole program. A return of 0 means that the input was expanded as the format says; without
        a fault every input ends as `SparseFormat.Expand` says, exit codes included; and whatever
        happens, the output is a prefix of the expansion. */
    method Expand() returns (code: nat)
      requires Valid() && pos == 0 && output == [] && !faulted
      modifies this
      ensures Valid() && output <= SparseFormat.Expand(input).output
      ensures code == 0 ==> SparseFormat.Expand(input) == Done(output, pos)
      ensures code != 0 && !faulted ==> SparseFormat.Expand(input) == Exit(output, code)
      ensures faulted ==> code == 1 || FaultedWith(code)
    {
      var ok, hdr := ReadExactly(HEADER_SIZE);
      if !ok { return 1; }
      assert hdr == input[..HEADER_SIZE];
      SameHeader(input, hdr);
      code := CheckHeader(hdr);
      if code != 0 { return; }
      code := ExpandChunks(Steps(input), Get32(hdr, 20));
    }
  }

  lemma Extend(before: seq<Byte>, input: seq<Byte>, start: nat, here: nat, k: nat)
    requires start <= here && here + k <= |input|
    ensures before + input[start..here] + input[here..here + k] == before + input[start..here + k]
  {
    assert input[start..here] + input[here..here + k] == input[start..here + k];
  }

  lemma PartOfSlice(input: seq<Byte>, start: nat, buf: seq<Byte>, k: nat)
    requires start + |buf| <= |input| && buf == input[start..start + |buf|] && k <= |buf|
    ensures buf[..k] == input[start..start + k]
  {}

  lemma SameFields(input: seq<Byte>, pos: nat, chunk: seq<Byte>)
    requires pos + CHUNK_HEADER_SIZE <= |input| && chunk == input[pos..pos + CHUNK_HEADER_SIZE]
    ensures Get16(chunk, 0) == Get16(input, pos) && Get32(chunk, 4) == Get32(input, pos + 4)
    ensures Get32(chunk, 8) == Get32(input, pos + 8)
  {}

  lemma SameWord(input: seq<Byte>, pos: nat, word: seq<Byte>)
    requires pos + 4 <= |input| && word == input[pos..pos + 4]
    ensures Get32(word, 0) == Get32(input, pos)
  {}

  lemma SameHeader(input: seq<Byte>, hdr: seq<Byte>)
    requires HEADER_SIZE <= |input| && hdr == input[..HEADER_SIZE]
    ensures CheckHeader(hdr) == CheckHeader(input) && Get32(hdr, 20) == Get32(input, 20)
  {}

  // What is written stays written.
  lemma {:induction false} OutputGrows(step: nat -> Step, pos: nat, chunks: nat, output: seq<Byte>)
    ensures output <= Iterate(step, pos, chunks, output).output
    ensures chunks > 0 ==> output + step(pos).output <= Iterate(step, pos, chunks, output).output
    decreases chunks
  {
    if chunks > 0 && step(pos).Wrote? {
      OutputGrows(step, step(pos).next, chunks - 1, output + step(pos).output);
    }
  }
}
