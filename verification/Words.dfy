module Words {
  // The 64-bit atomic words of the library, as a pair of 32-bit halves.
  //
  // Every atomic word of atomsnap.c is two packed 32-bit fields: a control block is
  // [references | handle], an inner state is [counter | flags], an arena top is
  // [depth | handle].  `Word` keeps the halves apart; the lemmas below say that each
  // operation on the halves is the 64-bit unsigned operation that the code performs.

  datatype Option<+T> = None | Some(value: T)

  const MOD32: int := 0x1_0000_0000
  const MOD64: int := 0x1_0000_0000_0000_0000

  type U32 = x: int | 0 <= x < 0x1_0000_0000

  const HANDLE_NULL: U32 := 0xFFFF_FFFF

  const DETACHED: U32 := 1
  const FINALIZED: U32 := 2

  datatype Word = Word(hi: U32, lo: U32)

  function Value(w: Word): (v: int)
    ensures 0 <= v < MOD64
  {
    w.hi * MOD32 + w.lo
  }

  /** The pair whose halves are `(uint32_t)(v >> 32)` and `(uint32_t)(v & 0xFFFFFFFF)`. */
  function OfValue(v: int): (w: Word)
    requires 0 <= v < MOD64
    ensures Value(w) == v
  {
    Word(v / MOD32, v % MOD32)
  }

  /** Conversion of an unbounded count to `uint32_t`. */
  function Wrap(n: int): U32 {
    n % MOD32
  }

  /** `uint32_t` subtraction. */
  function Sub32(x: U32, y: U32): U32 {
    Wrap(x - y)
  }

  /** Adding `1 << 32` to the packed word: only the upper half moves. */
  function AddUpper(w: Word): Word {
    Word(Wrap(w.hi + 1), w.lo)
  }

  predicate HasDetached(flags: U32) {
    flags % 2 == 1
  }

  predicate HasFinalized(flags: U32) {
    flags / 2 % 2 == 1
  }

  function SetDetached(flags: U32): U32 {
    if HasDetached(flags) then flags else flags + 1
  }

  function SetFinalized(flags: U32): U32 {
    if HasFinalized(flags) then flags else flags + 2
  }

  /** Two words compare equal in a compare-and-swap exactly when both halves agree. */
  lemma ValueInjective(v: Word, w: Word)
    ensures Value(v) == Value(w) <==> v == w
  {
    assert OfValue(Value(v)) == v && OfValue(Value(w)) == w;
  }

  /** A 64-bit `fetch_add` of `1 << 32` wraps the upper half and never carries into the lower one. */
  lemma AddUpperIsUnsignedAdd(w: Word)
    ensures Value(AddUpper(w)) == (Value(w) + MOD32) % MOD64
    ensures AddUpper(w).lo == w.lo
  {
    if w.hi + 1 < MOD32 {
      assert Value(w) + MOD32 == (w.hi + 1) * MOD32 + w.lo < MOD64;
    } else {
      assert Value(w) + MOD32 == MOD64 + w.lo;
    }
  }

  /** Subtracting one wrapped count from another gives the wrapped difference. */
  lemma SubWrapped(a: int, b: int)
    ensures Sub32(Wrap(a), Wrap(b)) == Wrap(a - b)
  {
    assert a == MOD32 * (a / MOD32) + Wrap(a);
    assert b == MOD32 * (b / MOD32) + Wrap(b);
    WrapShift(Wrap(a) - Wrap(b), a / MOD32 - b / MOD32);
  }

  lemma WrapShift(x: int, k: int)
    ensures Wrap(x + MOD32 * k) == Wrap(x)
  {
    assert x + MOD32 * k == MOD32 * (x / MOD32 + k) + x % MOD32;
  }

  lemma WrapSmall(n: nat)
    requires n < MOD32
    ensures Wrap(n) == n
  {
  }

  lemma IncWrapped(n: int)
    ensures Wrap(Wrap(n) + 1) == Wrap(n + 1)
  {
    assert n == MOD32 * (n / MOD32) + Wrap(n);
    WrapShift(Wrap(n) + 1, n / MOD32);
  }

  /** A wrapped negated count is zero exactly when the count is a multiple of 2^32. */
  lemma WrapZero(n: nat)
    ensures Wrap(0 - n) == 0 <==> n % MOD32 == 0
    ensures n < MOD32 ==> (Wrap(0 - n) == 0 <==> n == 0)
  {
  }
}
