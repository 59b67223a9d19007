/** Fixed-width unsigned integers as the route compiler uses them: a word is its
    bits, most significant first, so `u32` is a word of 32 bits and `u128` one of 128. */
module Words {

  type Word = seq<bool>

  function Zero(width: nat): (w: Word)
    ensures |w| == width
  {
    seq(width, _ => false)
  }

  function AllOnes(width: nat): (w: Word)
    ensures |w| == width
  {
    seq(width, _ => true)
  }

  function And(a: Word, b: Word): (r: Word)
    requires |a| == |b|
    ensures |r| == |a| && forall i | 0 <= i < |a| :: r[i] == (a[i] && b[i])
  {
    seq(|a|, i requires 0 <= i < |a| => a[i] && b[i])
  }

  function Or(a: Word, b: Word): (r: Word)
    requires |a| == |b|
    ensures |r| == |a| && forall i | 0 <= i < |a| :: r[i] == (a[i] || b[i])
  {
    seq(|a|, i requires 0 <= i < |a| => a[i] || b[i])
  }

  /** `w << n` on a fixed width: the top `n` bits are lost. */
  function ShiftLeft(w: Word, n: nat): (r: Word)
    requires n <= |w|
    ensures |r| == |w|
  {
    w[n..] + Zero(n)
  }

  function One(width: nat): (r: Word)
    requires width > 0
    ensures |r| == width
  {
    Zero(width - 1) + [true]
  }

  /** `prefix_mask_v4` and `prefix_mask_v6`: the shift amount must stay below
      the width, hence the separate case for a zero-length prefix. */
  function PrefixMask(width: nat, bits: nat): (mask: Word)
    requires bits <= width
    ensures |mask| == width
    ensures forall i | 0 <= i < width :: mask[i] == (i < bits)
  {
    if bits == 0 then Zero(width) else ShiftLeft(AllOnes(width), width - bits)
  }

  /** Numeric order: the first differing bit decides. */
  ghost predicate Less(a: Word, b: Word) {
    exists k :: 0 <= k < |a| && k < |b| && DiffersFirstAt(a, b, k)
  }

  ghost predicate DiffersFirstAt(a: Word, b: Word, k: nat)
    requires k < |a| && k < |b|
  {
    a[..k] == b[..k] && !a[k] && b[k]
  }

  // ---- words and numbers ----

  function Pow2(n: nat): (p: nat)
    ensures p > 0
  {
    if n == 0 then 1 else 2 * Pow2(n - 1)
  }

  lemma Pow2Of8()
    ensures Pow2(8) == 256
  {
    assert Pow2(4) == 16;
    assert Pow2(8) == 16 * Pow2(4);
  }

  /** The low `k` bits of `n`. */
  function Bits(n: nat, k: nat): (w: Word)
    ensures |w| == k
  {
    if k == 0 then [] else Bits(n / 2, k - 1) + [n % 2 == 1]
  }

  function Value(w: Word): (n: nat)
    ensures n < Pow2(|w|)
  {
    if w == [] then 0 else 2 * Value(w[..|w| - 1]) + if w[|w| - 1] then 1 else 0
  }

  lemma {:induction false} BitsOfValue(w: Word)
    ensures Bits(Value(w), |w|) == w
  {
    if w != [] {
      BitsOfValue(w[..|w| - 1]);
    }
  }

  /** `u32::from_be_bytes` */
  function FromOctets(a: nat, b: nat, c: nat, d: nat): (w: Word)
    ensures |w| == 32
  {
    Bits(a, 8) + Bits(b, 8) + Bits(c, 8) + Bits(d, 8)
  }
}
