module TaggedWords {
  // The tagged 64-bit words of the benchmark's free list: a 16-byte aligned address whose four
  // low bits count updates.
  //
  // A word is kept as its upper 60 and its lower four bits.  The lemmas say that the operations
  // on the parts are the code's mask arithmetic on `uint64_t`.

  datatype Word = Word(upper: bv60, low: bv4)

  const NULL: Word := Word(0, 0)

  function Join(upper: bv60, low: bv4): bv64 {
    ((upper as bv64) << 4) | (low as bv64)
  }

  function Value(w: Word): bv64 {
    Join(w.upper, w.low)
  }

  function OfValue(v: bv64): Word {
    Word((v >> 4) as bv60, (v & 0xF) as bv4)
  }

  function Pack(up: Word, tag: bv4): Word {
    Word(up.upper, up.low | tag)
  }

  function PtrFrom(v: Word): Word {
    Word(v.upper, 0)
  }

  function TagFrom(v: Word): bv4 {
    v.low
  }

  predicate Aligned(p: Word) {
    p.low == 0
  }

  predicate PowerOfTwo(a: bv64) {
    a != 0 && a & (a - 1) == 0
  }

  /** The address `p` is a multiple of the power of two `a`. */
  predicate MultipleOf(p: bv64, a: bv64) {
    p & (a - 1) == 0
  }

  lemma JoinSplits(upper: bv60, low: bv4)
    ensures (Join(upper, low) >> 4) as bv60 == upper
    ensures (Join(upper, low) & 0xF) as bv4 == low
    ensures Join(upper, low) & 0xF == low as bv64
  {
  }

  lemma JoinMasked(upper: bv60, low: bv4)
    ensures Join(upper, low) & !(0xF as bv64) == Join(upper, 0)
  {
  }

  lemma JoinOr(upper: bv60, low: bv4, tag: bv4)
    ensures Join(upper, low) | ((tag as bv64) & 0xF) == Join(upper, low | tag)
  {
  }

  /** The tag increment, on the 64-bit values. */
  lemma NextTagValue(tag: bv4)
    ensures ((tag as bv64) + 1) & 0xF == (tag + 1) as bv64
  {
  }

  /** Two words compare equal in a compare-and-swap exactly when both parts agree. */
  lemma ValueInjective(v: Word, w: Word)
    ensures Value(v) == Value(w) <==> v == w
    ensures OfValue(Value(v)) == v
  {
    JoinSplits(v.upper, v.low);
    JoinSplits(w.upper, w.low);
  }

  /** Every 64-bit value is a word. */
  lemma EveryValueIsAWord(v: bv64)
    ensures Value(OfValue(v)) == v
  {
    assert Join((v >> 4) as bv60, (v & 0xF) as bv4) == v;
  }

  /** `pack`, on the 64-bit values. */
  lemma PackIsMask(v: Word, tag: bv4)
    ensures Value(v) | ((tag as bv64) & 0xF) == Value(Pack(v, tag))
  {
    JoinOr(v.upper, v.low, tag);
  }

  /** `ptr_from`, on the 64-bit values. */
  lemma PtrIsMask(v: Word)
    ensures Value(v) & !(0xF as bv64) == Value(PtrFrom(v))
  {
    JoinMasked(v.upper, v.low);
  }

  /** `tag_from`, on the 64-bit values. */
  lemma TagIsMask(v: Word)
    ensures Value(v) & 0xF == TagFrom(v) as bv64
  {
    JoinSplits(v.upper, v.low);
  }

  /** Packing loses neither part exactly when the address leaves the tag bits free. */
  lemma PackRoundTrip(p: Word)
    ensures Aligned(p) <==> forall tag :: PtrFrom(Pack(p, tag)) == p && TagFrom(Pack(p, tag)) == tag
  {
    if !Aligned(p) {
      assert PtrFrom(Pack(p, 0)) != p;
    }
  }

  lemma LowBitsFree(p: bv64, a: bv64)
    requires PowerOfTwo(a) && a >= 16 && MultipleOf(p, a)
    ensures p & 0xF == 0
  {
    assert a & 0xF == 0;
  }

  /** Every multiple of an alignment that is a power of two and at least 16 leaves the tag bits free. */
  lemma AlignmentLeavesTagBits(p: Word, a: bv64)
    requires PowerOfTwo(a) && a >= 16 && MultipleOf(Value(p), a)
    ensures Aligned(p)
  {
    LowBitsFree(Value(p), a);
    JoinSplits(p.upper, p.low);
  }

  /** The alignment that the constructor settles on. */
  function Normalised(align: bv64): (a: bv64)
    ensures PowerOfTwo(a) && a >= 16
    ensures a == align <==> PowerOfTwo(align) && align >= 16
    ensures a != align ==> a == 16
  {
    var raised := if align < 16 then 16 else align;
    if raised & (raised - 1) != 0 then 16 else raised
  }

  /** The tag after `n` updates. */
  function NthTag(n: nat): bv4 {
    if n == 0 then 0 else NthTag(n - 1) + 1
  }

  lemma {:induction false} NthTagIsModulo(n: nat)
    ensures NthTag(n) as int == n % 16
  {
    if n > 0 {
      NthTagIsModulo(n - 1);
    }
  }

  /** Two update counts have the same tag exactly when they differ by a multiple of 16. */
  lemma SameTag(m: nat, n: nat)
    requires m <= n
    ensures NthTag(m) == NthTag(n) <==> (n - m) % 16 == 0
  {
    NthTagIsModulo(m);
    NthTagIsModulo(n);
  }
}
