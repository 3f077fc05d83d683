/** The PCM data path of a software session: a bounded queue shared with the Bluetooth stack. This
    side polls it; between polls the other end moves data and the session may end or start anew. */
module PcmPath {
  type Byte = b: int | -0x80 <= b < 0x80

  const TIMEOUT_MS := 1000
  const POLL_MS := 1

  class DataPath {
    var ready: bool                // what IsSessionReady finds
    var capacity: nat
    var queue: seq<Byte>
    ghost var entered: seq<Byte>   // all that was put into the present queue
    ghost var left: seq<Byte>      // all that was taken out of it
    ghost var openings: nat        // queues opened so far
    ghost var handed: seq<Byte>    // all that this side put into one queue or another
    ghost var taken: seq<Byte>     // all that this side took out of one queue or another
    ghost var failures: nat        // queue operations of this side that failed
    ghost var strays: nat          // queue operations of this side while the session was not ready

    // What goes in comes out in the same order, the queue's content last.
    ghost predicate Valid()
      reads this
    {
      |queue| <= capacity && entered == left + queue
    }

    constructor (capacity: nat)
      ensures Valid() && ready && this.capacity == capacity && queue == []
    {
      ready, this.capacity, queue := true, capacity, [];
      entered, left, openings, handed, taken, failures, strays := [], [], 1, [], [], 0, 0;
    }

    // ----- what others do -----

    method SessionChanges()
      requires Valid()
      modifies this`ready, this`capacity, this`queue, this`entered, this`left, this`openings
      ensures Valid() && openings >= old(openings)
      ensures openings == old(openings) ==>
        queue == old(queue) && entered == old(entered) && left == old(left) && capacity == old(capacity)
    {
      ready := *;
      var anew: bool := *;
      if anew {
        capacity := *;
        queue, entered, left, openings := [], [], [], openings + 1;
      }
    }

    method OtherEndReads()
      requires Valid()
      modifies this`queue, this`left
      ensures Valid() && |queue| <= |old(queue)|
    {
      var n: nat :| n <= |queue|;
      left, queue := left + queue[..n], queue[n..];
    }

    method OtherEndWrites()
      requires Valid()
      modifies this`queue, this`entered
      ensures Valid() && |queue| >= |old(queue)|
    {
      var data: seq<Byte> := *;
      if |queue| + |data| <= capacity {
        entered, queue := entered + data, queue + data;
      }
    }

    // ----- the queue, from this side -----

    method AvailableToWrite() returns (n: nat)
      requires Valid() && ready
      ensures n == capacity - |queue|
    {
      n := capacity - |queue|;
    }

    method AvailableToRead() returns (n: nat)
      requires ready
      ensures n == |queue|
    {
      n := |queue|;
    }

    method Write(data: seq<Byte>) returns (ok: bool)
      requires Valid() && |queue| + |data| <= capacity
      modifies this`queue, this`entered, this`handed, this`failures, this`strays
      ensures Valid() && strays == old(strays) + if ready then 0 else 1
      ensures if ok then entered == old(entered) + data && handed == old(handed) + data && failures == old(failures)
              else entered == old(entered) && handed == old(handed) && failures == old(failures) + 1
    {
      if !ready { strays := strays + 1; }
      ok := *;
      if ok {
        queue, entered, handed := queue + data, entered + data, handed + data;
      } else {
        failures := failures + 1;
      }
    }

    method Read(buffer: array<Byte>, start: nat, n: nat) returns (ok: bool)
      requires Valid() && n <= |queue| && start + n <= buffer.Length
      modifies this`queue, this`left, this`taken, this`failures, this`strays, buffer
      ensures Valid() && strays == old(strays) + if ready then 0 else 1
      ensures if ok then
                && buffer[..] == old(buffer[..start]) + old(queue)[..n] + old(buffer[start + n..])
                && left == old(left) + old(queue)[..n] && taken == old(taken) + old(queue)[..n]
                && failures == old(failures)
              else
                && buffer[..] == old(buffer[..])
                && left == old(left) && taken == old(taken) && failures == old(failures) + 1
    {
      if !ready { strays := strays + 1; }
      ok := *;
      if ok {
        forall i | 0 <= i < n { buffer[start + i] := queue[i]; }
        left, taken, queue := left + queue[..n], taken + queue[..n], queue[n..];
      } else {
        failures := failures + 1;
      }
    }

    // The part of the outgoing buffer that fits now.
    method WriteUpTo(buffer: array<Byte>, start: nat, bytes: nat, room: nat) returns (ok: bool, n: nat)
      requires Valid() && ready && start < bytes <= buffer.Length && 0 < room <= capacity - |queue|
      modifies this`queue, this`left, this`entered, this`handed, this`failures, this`strays
      ensures Valid() && strays == old(strays) && 0 < n <= bytes - start
      ensures ok ==>
        && entered == old(entered) + buffer[start..start + n] && handed == old(handed) + buffer[start..start + n]
        && failures == old(failures)
      ensures !ok ==> entered == old(entered) && handed == old(handed) && failures > old(failures)
    {
      OtherEndReads();
      n := room;
      if n > bytes - start { n := bytes - start; }
      ok := Write(buffer[start..start + n]);
    }

    // The part of the incoming data that is there now.
    method ReadUpTo(buffer: array<Byte>, start: nat, bytes: nat, available: nat) returns (ok: bool, n: nat)
      requires Valid() && ready && start < bytes <= buffer.Length && 0 < available <= |queue|
      modifies this`queue, this`left, this`entered, this`taken, this`failures, this`strays, buffer
      ensures Valid() && strays == old(strays) && 0 < n <= bytes - start
      ensures buffer[..start] == old(buffer[..start])
      ensures ok ==>
        && left == old(left) + buffer[start..start + n] && taken == old(taken) + buffer[start..start + n]
        && failures == old(failures) && buffer[start + n..] == old(buffer[..])[start + n..]
      ensures !ok ==>
        left == old(left) && taken == old(taken) && failures > old(failures) && buffer[..] == old(buffer[..])
    {
      OtherEndWrites();
      n := available;
      if n > bytes - start { n := bytes - start; }
      ghost var next := queue[..n];
      ok := Read(buffer, start, n);
      assert ok ==> buffer[start..start + n] == next;
    }

    // ----- the loops -----

    /** Puts the first `total` bytes of the buffer into the queue, in order and nothing else, even where
        the session is replaced half way, and touches no queue of a lost session. Fewer than `bytes`
        means that the session was lost, that the queue failed, or that it was full in 1001 polls. */
    method OutWritePcmData(buffer: array?<Byte>, bytes: nat) returns (total: nat, ghost idle: nat, ghost rounds: nat)
      requires Valid() && (buffer != null ==> bytes <= buffer.Length)
      modifies this
      ensures Valid() && total <= bytes && rounds <= bytes + 1001
      ensures buffer == null ==> total == 0
      ensures buffer != null ==> handed == old(handed) + buffer[..total]
      ensures buffer != null && openings == old(openings) ==> entered == old(entered) + buffer[..total]
      ensures taken == old(taken) && strays == old(strays)
      ensures buffer != null && total < bytes ==>
        !ready || failures > old(failures) || (idle == 1000 && |queue| == capacity)
    {
      total, idle, rounds := 0, 0, 0;
      if buffer == null || bytes == 0 { return; }
      var timeout := TIMEOUT_MS;
      while total < bytes
        invariant Valid() && total <= bytes && 0 <= timeout && idle + timeout == TIMEOUT_MS
        invariant rounds <= total + idle && failures == old(failures) && taken == old(taken) && strays == old(strays)
        invariant handed == old(handed) + buffer[..total] && openings >= old(openings)
        invariant openings == old(openings) ==> entered == old(entered) + buffer[..total]
        decreases bytes - total, timeout
      {
        SessionChanges();
        OtherEndReads();
        rounds := rounds + 1;
        if !ready { break; }
        var n := AvailableToWrite();
        if n > 0 {
          var ok;
          ok, n := WriteUpTo(buffer, total, bytes, n);
          if !ok { return; }
          assert buffer[..total] + buffer[total..total + n] == buffer[..total + n];
          total := total + n;
        } else if timeout >= POLL_MS {
          timeout := timeout - POLL_MS;
          idle := idle + 1;
        } else {
          return;
        }
      }
    }

    /** Fills the first `total` bytes of the buffer with the next bytes of the stream, in order, leaves
        the rest alone, and touches no queue of a lost session. Fewer than `bytes` means that the session
        was lost, that the queue failed, or that it was empty in 1001 polls. */
    method InReadPcmData(buffer: array?<Byte>, bytes: nat) returns (total: nat, ghost idle: nat, ghost rounds: nat)
      requires Valid() && (buffer != null ==> bytes <= buffer.Length)
      modifies this, buffer
      ensures Valid() && total <= bytes && rounds <= bytes + 1001
      ensures buffer == null ==> total == 0
      ensures buffer != null ==> taken == old(taken) + buffer[..total] && buffer[total..] == old(buffer[..])[total..]
      ensures buffer != null && openings == old(openings) ==> left == old(left) + buffer[..total]
      ensures handed == old(handed) && strays == old(strays)
      ensures buffer != null && total < bytes ==>
        !ready || failures > old(failures) || (idle == 1000 && queue == [])
    {
      total, idle, rounds := 0, 0, 0;
      if buffer == null || bytes == 0 { return; }
      var timeout := TIMEOUT_MS;
      while total < bytes
        invariant Valid() && total <= bytes && 0 <= timeout && idle + timeout == TIMEOUT_MS
        invariant rounds <= total + idle && failures == old(failures) && handed == old(handed) && strays == old(strays)
        invariant taken == old(taken) + buffer[..total] && openings >= old(openings)
        invariant buffer[total..] == old(buffer[..])[total..]
        invariant openings == old(openings) ==> left == old(left) + buffer[..total]
        decreases bytes - total, timeout
      {
        SessionChanges();
        OtherEndWrites();
        rounds := rounds + 1;
        if !ready { break; }
        var n := AvailableToRead();
        if n > 0 {
          ghost var before := buffer[..];
          var ok;
          ok, n := ReadUpTo(buffer, total, bytes, n);
          if !ok { return; }
          assert buffer[..total + n] == before[..total] + buffer[total..total + n];
          total := total + n;
        } else if timeout >= POLL_MS {
          timeout := timeout - POLL_MS;
          idle := idle + 1;
        } else {
          return;
        }
      }
    }
  }
}
