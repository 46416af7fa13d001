// 32-bit masks as the graphics API uses them, with the two bit scans of <bit>
// (std::popcount and std::countr_zero) that findMemoryType relies on.
//
// A mask whose bits are scanned by position (a memory-type filter) is modelled as
// its 32 bits: element j is the bit of value 1 << j. Flag words that are only ever
// tested against named constants (memory property flags, queue flags) stay bv32.

module Bits {

  /** A 32-bit mask seen bit by bit: element j is bit j. */
  type Mask = s: seq<bool> | |s| == 32 witness seq(32, j => false)

  /** The mask with no bit set. */
  const NoBits: Mask := seq(32, j => false)

  /** The number of set bits in `m`. */
  function CountSet(m: seq<bool>): nat
  {
    if m == [] then 0 else CountSet(m[..|m| - 1]) + (if m[|m| - 1] then 1 else 0)
  }

  /** std::popcount. */
  function PopCount(m: Mask): (r: nat)
    ensures r <= 32
  {
    CountSetBound(m);
    CountSet(m)
  }

  /** The position of the first set bit at `j` or above, or |m| if there is none. */
  function FirstSetFrom(m: seq<bool>, j: nat): (r: nat)
    requires j <= |m|
    decreases |m| - j
    ensures j <= r <= |m|
    ensures r < |m| ==> m[r]
    ensures forall i :: j <= i < r ==> !m[i]
  {
    if j == |m| then |m| else if m[j] then j else FirstSetFrom(m, j + 1)
  }

  /** std::countr_zero: the number of trailing zero bits, 32 for a zero mask. */
  function CountrZero(m: Mask): (r: nat)
    ensures r <= 32
    ensures r < 32 ==> m[r]
    ensures forall i :: 0 <= i < r ==> !m[i]
  {
    FirstSetFrom(m, 0)
  }

  /** `m ^ (1 << b)`: flips bit `b` and no other. */
  function FlipBit(m: Mask, b: nat): (r: Mask)
    requires b < 32
    ensures r[b] == !m[b]
    ensures forall j :: 0 <= j < 32 && j != b ==> r[j] == m[j]
  {
    m[b := !m[b]]
  }

  lemma {:induction false} CountSetBound(m: seq<bool>)
    ensures CountSet(m) <= |m|
  {
    if m != [] {
      CountSetBound(m[..|m| - 1]);
    }
  }

  lemma {:induction false} CountSetClear(m: seq<bool>, b: nat)
    requires b < |m| && m[b]
    ensures CountSet(m[b := false]) == CountSet(m) - 1
  {
    var n := |m| - 1;
    if b < n {
      assert m[b := false][..n] == m[..n][b := false];
      CountSetClear(m[..n], b);
    } else {
      assert m[b := false][..n] == m[..n];
    }
  }

  /** Clearing a set bit with `^` lowers the population count by one. */
  lemma PopCountFlipSet(m: Mask, b: nat)
    requires b < 32 && m[b]
    ensures PopCount(FlipBit(m, b)) == PopCount(m) - 1
  {
    CountSetClear(m, b);
  }

  lemma {:induction false} CountSetPositive(m: seq<bool>)
    ensures CountSet(m) > 0 <==> exists i :: 0 <= i < |m| && m[i]
  {
    if m != [] {
      var n := |m| - 1;
      CountSetPositive(m[..n]);
      if exists i :: 0 <= i < n && m[..n][i] {
        var i :| 0 <= i < n && m[..n][i];
        assert m[i];
      }
      if exists i :: 0 <= i < |m| && m[i] {
        var i :| 0 <= i < |m| && m[i];
        if i < n {
          assert m[..n][i];
        }
      }
    }
  }

  /** A mask has a set bit exactly when its population count is positive. */
  lemma PopCountPositive(m: Mask)
    ensures PopCount(m) > 0 <==> exists i :: 0 <= i < 32 && m[i]
  {
    CountSetPositive(m);
  }

  /** `flags` contains every flag of `required`: `(flags & required) == required`. */
  predicate Contains(flags: bv32, required: bv32) {
    flags & required == required
  }
}
