/** Fixed-width machine integers of the C++ source, written out explicitly:
    `uint32` counters wrap modulo 2^32, `size_t` positions modulo 2^64, and
    the bit-flag words are 32-bit vectors. */
module MachineWords {

  const TWO_32: int := 0x1_0000_0000
  const TWO_64: int := 0x1_0000_0000_0000_0000

  /** C++ `uint32`. */
  type UInt32 = x: int | 0 <= x < TWO_32

  /** C++ `size_t` on a 64-bit platform. */
  type SizeT = x: int | 0 <= x < TWO_64

  /** `std::string::npos`, the largest `size_t`. */
  const NPOS: SizeT := TWO_64 - 1

  /** C++ `++x` on a `uint32`. */
  function Inc32(x: UInt32): (r: UInt32)
    ensures (r - x) % TWO_32 == 1
    ensures x < TWO_32 - 1 ==> r == x + 1
  {
    (x + 1) % TWO_32
  }

  /** C++ `--x` on a `uint32`; the inverse of `Inc32`. */
  function Dec32(x: UInt32): (r: UInt32)
    ensures (x - r) % TWO_32 == 1
    ensures Inc32(r) == x
    ensures 0 < x ==> r == x - 1
  {
    (x - 1) % TWO_32
  }

  /** The product of two non-negative integers is non-negative. */
  lemma MulNonNegative(x: int, y: int)
    requires 0 <= x && 0 <= y
    ensures 0 <= x * y
  {
  }

  /** C++ `word ^= mask`. */
  function Toggle(word: bv32, mask: bv32): bv32 {
    word ^ mask
  }

  /** Every bit inside `mask` is inverted, every bit outside it is kept. */
  lemma ToggleFrame(word: bv32, mask: bv32)
    ensures Toggle(word, mask) & !mask == word & !mask
    ensures Toggle(word, mask) & mask == !word & mask
  {
  }

  /** Toggling the same mask twice restores the word. */
  lemma ToggleTwice(word: bv32, mask: bv32)
    ensures Toggle(Toggle(word, mask), mask) == word
  {
  }

  /** Two toggles in a row are one toggle by the combined mask. */
  lemma ToggleCombines(word: bv32, a: bv32, b: bv32)
    ensures Toggle(Toggle(word, a), b) == Toggle(word, a ^ b)
  {
    assert (word ^ a) ^ b == word ^ (a ^ b);
  }

  /** Toggles of two masks commute. */
  lemma ToggleCommutes(word: bv32, a: bv32, b: bv32)
    ensures Toggle(Toggle(word, a), b) == Toggle(Toggle(word, b), a)
  {
    ToggleCombines(word, a, b);
    ToggleCombines(word, b, a);
    assert a ^ b == b ^ a;
  }

  /** Toggling a mask disjoint from `flags` does not change whether `flags`
      are set. */
  lemma ToggleKeepsDisjointFlags(word: bv32, mask: bv32, flags: bv32)
    requires mask & flags == 0
    ensures HasFlags(Toggle(word, mask), flags) == HasFlags(word, flags)
  {
  }

  /** Whether the single-bit (or multi-bit) `mask` is entirely set in `word`. */
  predicate HasFlags(word: bv32, mask: bv32) {
    word & mask == mask
  }

  /** A word with exactly one bit set. */
  predicate IsSingleBit(mask: bv32) {
    mask != 0 && mask & (mask - 1) == 0
  }
}
