/**
 * Addresses on the 64-bit Linux and macOS targets: the arithmetic behind
 * `ptr.offset(n)` on a `*const *const c_char` and behind the iterator's
 * `(end as usize - next as usize) / mem::size_of::<*const c_char>()`.
 */
module Pointers {

  /** `mem::size_of::<*const c_char>()`: the width of one slot of the argument table. */
  const SlotWidth: nat := 8

  /** One past the largest `usize`; every address lies below it. */
  const UsizeLimit: nat := 0x1_0000_0000_0000_0000

  /** The address `count` slots after `p`, as `p.offset(count)` computes it. */
  function Offset(p: nat, count: nat): (r: nat)
    ensures r >= p
    ensures (r - p) % SlotWidth == 0
  {
    p + count * SlotWidth
  }

  /**
   * The number of slots from address `from` to address `to`: their distance in
   * bytes divided by the slot width. The `usize` subtraction cannot wrap
   * because the cursor never passes the end.
   */
  function SlotDistance(from: nat, to: nat): (r: nat)
    requires from <= to < UsizeLimit
    ensures r * SlotWidth <= to - from < (r + 1) * SlotWidth
  {
    (to - from) / SlotWidth
  }

  /** Measured between two offsets from one base, the distance is the difference of the slot counts. */
  lemma {:induction false} SlotDistanceOfOffsets(base: nat, i: nat, j: nat)
    requires i <= j
    requires Offset(base, j) < UsizeLimit
    ensures Offset(base, i) <= Offset(base, j)
    ensures SlotDistance(Offset(base, i), Offset(base, j)) == j - i
  {
    var k := j - i;
    assert Offset(base, j) - Offset(base, i) == k * SlotWidth;
    assert k * SlotWidth / SlotWidth == k;
  }
}
