/** How a codec picks one value per field from what both sides support. */
module A2dpSelection {
  import opened A2dpBitField

  predicate Shared(l: seq<bool>, r: seq<bool>, bit: int) {
    0 <= bit < |l| && bit < |r| && l[bit] && r[bit]
  }

  ghost predicate SharesField(l: seq<bool>, r: seq<bool>, first: nat, len: nat) {
    exists i :: first <= i < first + len && Shared(l, r, i)
  }

  // The bit if both sides support it, else the next best.
  function Prefer(l: seq<bool>, r: seq<bool>, bit: int, otherwise: int): int {
    if Shared(l, r, bit) then bit else otherwise
  }

  // The last or the first bit of a field that both sides support.
  ghost predicate Highest(l: seq<bool>, r: seq<bool>, first: nat, len: nat, bit: int) {
    first <= bit < first + len && Shared(l, r, bit) && forall i :: bit < i < first + len ==> !Shared(l, r, i)
  }

  ghost predicate Lowest(l: seq<bool>, r: seq<bool>, first: nat, len: nat, bit: int) {
    first <= bit < first + len && Shared(l, r, bit) && forall i :: first <= i < bit ==> !Shared(l, r, i)
  }

  // n bits of which exactly the chosen ones are set.
  function Marked(n: nat, chosen: set<int>): (b: seq<bool>)
    ensures |b| == n
    ensures forall i :: 0 <= i < n ==> b[i] == (i in chosen)
  {
    seq(n, i => i in chosen)
  }

  lemma MarkedActive(row: seq<bool>, n: nat, chosen: set<int>, first: nat, len: nat, bit: int)
    requires n <= |row| && row[..n] == Marked(n, chosen) && first + len <= n
    requires first <= bit < first + len && bit in chosen
    requires forall i :: first <= i < first + len && i in chosen ==> i == bit
    ensures ActiveBit(row, first, len) == bit
  {
    forall i | 0 <= i < n
      ensures row[i] == (i in chosen)
    {
      assert row[i] == row[..n][i];
    }
    assert OnlyActive(row, first, len, bit);
  }
}
