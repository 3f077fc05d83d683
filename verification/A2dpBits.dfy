/** Bit sequences and the numbers they stand for, most significant bit first. */
module BitSequences {
  import opened Arithmetic

  function Pow2(n: nat): (p: nat)
    ensures p > 0
  {
    if n == 0 then 1 else 2 * Pow2(n - 1)
  }

  function Value(b: seq<bool>): nat {
    if b == [] then 0
    else 2 * Value(b[..|b| - 1]) + if b[|b| - 1] then 1 else 0
  }

  // The low n bits of v in two's complement.
  function BitsOf(v: int, n: nat): (b: seq<bool>)
    ensures |b| == n
    decreases n
  {
    if n == 0 then [] else BitsOf(v / 2, n - 1) + [v % 2 == 1]
  }

  lemma {:induction false} ValueOfBitsOf(v: int, n: nat)
    ensures Value(BitsOf(v, n)) == v % Pow2(n)
    decreases n
  {
    if n > 0 {
      ValueOfBitsOf(v / 2, n - 1);
      var b := BitsOf(v, n);
      assert b[..n - 1] == BitsOf(v / 2, n - 1);
      HalvedModulo(v, Pow2(n - 1));
    }
  }

  lemma Fits(v: nat, n: nat)
    requires v < Pow2(n)
    ensures Value(BitsOf(v, n)) == v
  {
    ValueOfBitsOf(v, n);
    ModuloOf(v, Pow2(n), 0, v);
  }

  lemma {:induction false} ValueBound(b: seq<bool>)
    ensures Value(b) < Pow2(|b|)
  {
    if b != [] { ValueBound(b[..|b| - 1]); }
  }

  lemma {:induction false} BitsOfValue(b: seq<bool>)
    ensures BitsOf(Value(b), |b|) == b
  {
    if b != [] {
      BitsOfValue(b[..|b| - 1]);
      assert b == b[..|b| - 1] + [b[|b| - 1]];
    }
  }

  lemma {:induction false} ClearBits(n: nat)
    ensures forall i :: 0 <= i < n ==> !BitsOf(0, n)[i]
  {
    if n > 0 { ClearBits(n - 1); }
  }

  ghost predicate OnlySet(b: seq<bool>, k: int) {
    0 <= k < |b| && b[k] && forall j :: 0 <= j < |b| && j != k ==> !b[j]
  }

  predicate AllClear(b: seq<bool>) { forall i :: 0 <= i < |b| ==> !b[i] }

  // The index of the only set bit, or -1.
  function Active(b: seq<bool>): (k: int)
    ensures -1 <= k < |b|
    ensures k >= 0 ==> OnlySet(b, k)
    ensures k < 0 ==> forall i :: !OnlySet(b, i)
  {
    if b == [] then -1
    else
      var front := b[..|b| - 1];
      if b[|b| - 1] then (if AllClear(front) then |b| - 1 else -1)
      else
        var k := Active(front);
        assert forall i :: OnlySet(b, i) ==> OnlySet(front, i);
        k
  }

  lemma {:induction false} ClearValue(b: seq<bool>)
    ensures AllClear(b) <==> Value(b) == 0
  {
    if b != [] {
      ClearValue(b[..|b| - 1]);
      assert b == b[..|b| - 1] + [b[|b| - 1]];
    }
  }

  lemma {:induction false} OnlySetValue(b: seq<bool>, k: nat)
    requires k < |b|
    ensures OnlySet(b, k) <==> Value(b) == Pow2(|b| - 1 - k)
  {
    var front := b[..|b| - 1];
    if k == |b| - 1 {
      ClearValue(front);
      assert OnlySet(b, k) <==> b[k] && AllClear(front);
    } else {
      OnlySetValue(front, k);
      assert OnlySet(b, k) <==> !b[|b| - 1] && OnlySet(front, k);
    }
  }

  lemma {:induction false} BitOfValue(b: seq<bool>, i: nat)
    requires i < |b|
    ensures Value(b) / Pow2(i) % 2 == 1 <==> b[|b| - 1 - i]
  {
    var front := b[..|b| - 1];
    if i > 0 {
      BitOfValue(front, i - 1);
      HalveFirst(Value(b), Pow2(i - 1));
      assert Value(b) / 2 == Value(front);
    }
  }

}

/** A view on a byte buffer as a row of bits: bit 0 is the top bit of byte 0. */
module A2dpBitField {
  import opened Arithmetic
  import opened BitSequences

  function Mask(k: nat): bv8
    requires k < 8
  {
    if k == 0 then 0x80 else if k == 1 then 0x40 else if k == 2 then 0x20 else if k == 3 then 0x10
    else if k == 4 then 8 else if k == 5 then 4 else if k == 6 then 2 else 1
  }

  predicate BitAt(b: bv8, k: nat)
    requires k < 8
  {
    b & Mask(k) != 0
  }

  lemma MaskIsShift(k: nat)
    requires k < 8
    ensures Mask(k) == 1 << (7 - k)
  {}

  lemma BitAtIsShift(b: bv8, k: nat)
    requires k < 8
    ensures BitAt(b, k) <==> (b >> (7 - k)) & 1 == 1
  {}

  // Or-ing a mask in sets its bit; and-ing its complement clears it; the rest of the byte stays.
  lemma ByteUpdate(b: bv8, k: nat, j: nat)
    requires k < 8 && j < 8
    ensures BitAt(b | Mask(k), j) == (j == k || BitAt(b, j))
    ensures BitAt(b & !Mask(k), j) == (j != k && BitAt(b, j))
  {}

  function ByteBits(b: bv8): (r: seq<bool>)
    ensures |r| == 8
  {
    seq(8, k requires 0 <= k < 8 => BitAt(b, k))
  }

  function Bits(data: seq<bv8>): (r: seq<bool>)
    ensures |r| == 8 * |data|
  {
    if data == [] then [] else Bits(data[..|data| - 1]) + ByteBits(data[|data| - 1])
  }

  lemma {:induction false} BitsAt(data: seq<bv8>, i: nat, k: nat)
    requires i < |data| && k < 8
    ensures Bits(data)[8 * i + k] == BitAt(data[i], k)
  {
    if i < |data| - 1 {
      BitsAt(data[..|data| - 1], i, k);
    }
  }

  lemma {:induction false} ClearRow(data: seq<bv8>)
    requires forall i :: 0 <= i < |data| ==> data[i] == 0
    ensures forall i :: 0 <= i < 8 * |data| ==> !Bits(data)[i]
  {
    if data != [] { ClearRow(data[..|data| - 1]); }
  }

  function Updated(b: bv8, k: nat, value: bool): bv8
    requires k < 8
  {
    if value then b | Mask(k) else b & !Mask(k)
  }

  // The byte that `set` stores: the mask or-ed in, or its complement and-ed in.
  function StoredByte(b: bv8, k: nat, value: int): (r: bv8)
    requires k < 8
    ensures r == Updated(b, k, value != 0)
  {
    MaskIsShift(k);
    var m: bv8 := 1 << (7 - k);
    if value != 0 then b | m else b & !m
  }

  lemma UpdatedBits(b: bv8, k: nat, value: bool)
    requires k < 8
    ensures ByteBits(Updated(b, k, value)) == ByteBits(b)[k := value]
  {
    forall j | 0 <= j < 8
      ensures ByteBits(Updated(b, k, value))[j] == ByteBits(b)[k := value][j]
    {
      ByteUpdate(b, k, j);
    }
  }

  lemma UpdateConcatenated(a: seq<bool>, b: seq<bool>, j: nat, value: bool)
    requires j < |a| + |b|
    ensures (a + b)[j := value] == if j < |a| then a[j := value] + b else a + b[j - |a| := value]
  {}

  lemma {:induction false} UpdateByte(data: seq<bv8>, i: nat, k: nat, value: bool)
    requires i < |data| && k < 8
    ensures Bits(data[i := Updated(data[i], k, value)]) == Bits(data)[8 * i + k := value]
  {
    var n := |data| - 1;
    var u := Updated(data[i], k, value);
    var data' := data[i := u];
    UpdateConcatenated(Bits(data[..n]), ByteBits(data[n]), 8 * i + k, value);
    if i < n {
      UpdateByte(data[..n], i, k, value);
      assert data'[..n] == data[..n][i := u] && data'[n] == data[n];
    } else {
      UpdatedBits(data[n], k, value);
      assert data'[..n] == data[..n] && data'[n] == u;
    }
  }

  // One step of the loop in GetRange: bit len - 1 - i of the value so far is still clear, so or-ing
  // it in adds it.
  lemma ReadOneMore(row: seq<bool>, first: nat, len: nat, i: nat)
    requires first + len <= |row| && i < len
    ensures Value(row[first..first + i + 1]) * Pow2(len - 1 - i) ==
            Value(row[first..first + i]) * Pow2(len - i) + if row[first + i] then Pow2(len - 1 - i) else 0
  {
    var v := Value(row[first..first + i]);
    var p := Pow2(len - 1 - i);
    assert row[first..first + i + 1][..i] == row[first..first + i];
    assert v * (2 * p) == 2 * v * p;
    assert (2 * v + 1) * p == 2 * v * p + p;
  }

  // The row once the loop in SetRange has written i of the len bits.
  function Written(row: seq<bool>, first: nat, len: nat, value: int, i: nat): (r: seq<bool>)
    requires first + len <= |row| && i <= len
    ensures |r| == |row|
  {
    row[..first] + BitsOf(value / Pow2(len - i), i) + row[first + i..]
  }

  lemma WriteOneMore(row: seq<bool>, first: nat, len: nat, value: int, i: nat)
    requires first + len <= |row| && i < len
    ensures var bit := value / Pow2(len - 1 - i) % 2;
            Written(row, first, len, value, i)[first + i := bit != 0] == Written(row, first, len, value, i + 1)
  {
    var w := value / Pow2(len - 1 - i);
    DivideTwice(value, Pow2(len - 1 - i));
    assert BitsOf(w, i + 1) == BitsOf(w / 2, i) + [w % 2 == 1];
  }

  class A2dpBits {
    const data: array<bv8>

    constructor (data: array<bv8>)
      ensures this.data == data
    {
      this.data := data;
    }

    function Row(): (b: seq<bool>)
      reads data
      ensures |b| == 8 * data.Length
    {
      Bits(data[..])
    }

    function Get(bit: nat): (r: bool)
      requires bit < 8 * data.Length
      reads data
      ensures r == Row()[bit]
    {
      BitsAt(data[..], bit / 8, bit % 8);
      BitAtIsShift(data[bit / 8], bit % 8);
      (data[bit / 8] >> (7 - bit % 8)) & 1 == 1
    }

    method GetRange(first: nat, len: nat) returns (v: nat)
      requires first + len <= 8 * data.Length && len <= 32
      ensures v == Value(Row()[first..first + len])
    {
      v := 0;
      var i := 0;
      ghost var row := Row();
      while i < len
        invariant i <= len
        invariant v == Value(row[first..first + i]) * Pow2(len - i)
      {
        ReadOneMore(row, first, len, i);
        var bit := Get(first + i);
        v := v + if bit then Pow2(len - 1 - i) else 0;
        i := i + 1;
      }
    }

    method Set(bit: nat, value: int)
      requires bit < 8 * data.Length
      modifies data
      ensures Row() == old(Row())[bit := value != 0]
    {
      var i, k := bit / 8, bit % 8;
      UpdateByte(data[..], i, k, value != 0);
      ghost var before := data[..];
      data[i] := StoredByte(data[i], k, value);
      assert data[..] == before[i := Updated(before[i], k, value != 0)];
    }

    method SetRange(first: nat, len: nat, value: int)
      requires first + len <= 8 * data.Length && len <= 32
      modifies data
      ensures Row() == old(Row())[..first] + BitsOf(value, len) + old(Row())[first + len..]
    {
      ghost var row := Row();
      assert row == Written(row, first, len, value, 0);
      for i := 0 to len
        invariant Row() == Written(row, first, len, value, i)
      {
        SetOne(row, first, len, value, i);
      }
    }

    // One round of that loop.
    method SetOne(ghost row: seq<bool>, first: nat, len: nat, value: int, i: nat)
      requires i < len && |row| == 8 * data.Length && first + len <= |row|
      requires Row() == Written(row, first, len, value, i)
      modifies data
      ensures Row() == Written(row, first, len, value, i + 1)
    {
      WriteOneMore(row, first, len, value, i);
      var bit := value / Pow2(len - 1 - i) % 2;
      Set(first + i, bit);
    }

    method FindActiveBit(first: nat, len: nat) returns (bit: int)
      requires first + len <= 8 * data.Length && len <= 32
      ensures bit == ActiveBit(Row(), first, len)
    {
      var v := GetRange(first, len);
      ghost var field := Row()[first..first + len];
      var i := 0;
      while i < len && v / Pow2(i) % 2 == 0
        invariant i <= len
        invariant forall j :: len - i <= j < len ==> !field[j]
      {
        BitOfValue(field, i);
        i := i + 1;
      }
      if i < len {
        BitOfValue(field, i);
        OnlySetValue(field, len - 1 - i);
      }
      bit := if i < len && v == Pow2(i) then first + (len - 1) - i else -1;
      ActiveInRow(Row(), first, len, len - 1 - i);
      if bit < 0 && i < len {
        assert field[len - 1 - i] && !OnlySet(field, len - 1 - i);
        assert forall k :: !OnlySet(field, k);
      }
    }
  }

  ghost predicate OnlyActive(b: seq<bool>, first: nat, len: nat, i: int)
    requires first + len <= |b|
  {
    first <= i < first + len && b[i] && forall j :: first <= j < first + len && j != i ==> !b[j]
  }

  ghost predicate OneActive(b: seq<bool>, first: nat, len: nat)
    requires first + len <= |b|
  {
    exists i :: OnlyActive(b, first, len, i)
  }

  // The position of the only set bit among the `len` bits from `first` on, or -1.
  function ActiveBit(b: seq<bool>, first: nat, len: nat): (bit: int)
    requires first + len <= |b|
    ensures bit == -1 || OnlyActive(b, first, len, bit)
    ensures forall i :: OnlyActive(b, first, len, i) ==> bit == i
  {
    var field := b[first..first + len];
    var k := Active(field);
    assert forall i :: OnlyActive(b, first, len, i) ==> OnlySet(field, i - first);
    assert k >= 0 ==> OnlyActive(b, first, len, first + k) by { ActiveInRow(b, first, len, k); }
    if k < 0 then -1 else first + k
  }

  lemma ActiveIff(b: seq<bool>, first: nat, len: nat)
    requires first + len <= |b|
    ensures ActiveBit(b, first, len) >= 0 <==> OneActive(b, first, len)
  {}

  lemma ActiveInRow(b: seq<bool>, first: nat, len: nat, k: int)
    requires first + len <= |b|
    ensures OnlySet(b[first..first + len], k) ==> OnlyActive(b, first, len, first + k)
  {
    var field := b[first..first + len];
    if OnlySet(field, k) {
      forall j | first <= j < first + len && j != first + k
        ensures !b[j]
      {
        assert !field[j - first];
      }
    }
  }

  /** Reading a range after writing it gives the value modulo the width of the range; every bit
      outside the range is as before. */
  lemma WriteThenRead(row: seq<bool>, first: nat, len: nat, value: int)
    requires first + len <= |row|
    ensures var after := row[..first] + BitsOf(value, len) + row[first + len..];
            && |after| == |row|
            && Value(after[first..first + len]) == value % Pow2(len)
            && forall i :: 0 <= i < |row| && !(first <= i < first + len) ==> after[i] == row[i]
  {
    var after := row[..first] + BitsOf(value, len) + row[first + len..];
    assert after[first..first + len] == BitsOf(value, len);
    ValueOfBitsOf(value, len);
  }

  /** Writing back what a range holds changes nothing. */
  lemma ReadThenWrite(row: seq<bool>, first: nat, len: nat)
    requires first + len <= |row|
    ensures row[..first] + BitsOf(Value(row[first..first + len]), len) + row[first + len..] == row
  {
    BitsOfValue(row[first..first + len]);
  }
}
