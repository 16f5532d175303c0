/**
 * The pair functors keyed on unordered pairs: QBroadPhase::NumericPairHash /
 * NumericPairEqual (pairs of int ids) and QWorld::bodyPairHash / bodyPairEqual
 * (pairs of body pointers). `std::hash` of an int or a pointer is the value
 * itself widened to the 64-bit `size_t`; the combination wraps modulo 2^64.
 */
module BodyPairs {
  newtype Int32 = x: int | -0x8000_0000 <= x < 0x8000_0000
  /** A pointer value (the body's address). */
  newtype Address = x: int | 0 <= x < 0x1_0000_0000_0000_0000

  type Pair<T> = (T, T)

  /** The equality functors: the same pair in either order. */
  predicate PairEqual<T(==)>(p1: Pair<T>, p2: Pair<T>)
  {
    (p1.0 == p2.0 && p1.1 == p2.1) || (p1.0 == p2.1 && p1.1 == p2.0)
  }

  /** PairEqual is an equivalence relation that identifies a pair with its swap. */
  lemma PairEqualIsEquivalence<T>(p: Pair<T>, q: Pair<T>, r: Pair<T>)
    ensures PairEqual(p, p)
    ensures PairEqual(p, (p.1, p.0))
    ensures PairEqual(p, q) ==> PairEqual(q, p)
    ensures PairEqual(p, q) && PairEqual(q, r) ==> PairEqual(p, r)
  {
  }

  /** std::hash<int>: the value sign-extended to 64 bits. */
  function HashInt(v: Int32): bv64
  {
    if v < 0 then (v as int + 0x1_0000_0000_0000_0000) as bv64 else v as int as bv64
  }

  /** std::hash<QBody*>: the address itself. */
  function HashAddress(a: Address): bv64
  {
    a as int as bv64
  }

  /** The shared mixing step h1 ^ (h2 + 0x9e3779b9 + (h1 << 6) + (h1 >> 2)) on size_t. */
  function Mix(h1: bv64, h2: bv64): bv64
  {
    h1 ^ (h2 + 0x9e3779b9 + (h1 << 6) + (h1 >> 2))
  }

  /** QBroadPhase::NumericPairHash as written. */
  function NumericPairHash(p: Pair<Int32>): bv64
  {
    Mix(HashInt(p.0), HashInt(p.1))
  }

  /** QWorld::bodyPairHash as written. */
  function BodyPairHash(p: Pair<Address>): bv64
  {
    Mix(HashAddress(p.0), HashAddress(p.1))
  }

  /**
   * The hashes are not symmetric: (0, 1) and (1, 0) are equal under the
   * equality functors but hash to 0x9e3779ba and 0x9e3779f8, so a hash set
   * using these functors may hold both.
   */
  lemma PairHashesAreOrderDependent()
    ensures PairEqual<Int32>((0, 1), (1, 0)) && NumericPairHash((0, 1)) == 0x9e3779ba && NumericPairHash((1, 0)) == 0x9e3779f8
    ensures PairEqual<Address>((0, 1), (1, 0)) && BodyPairHash((0, 1)) == 0x9e3779ba && BodyPairHash((1, 0)) == 0x9e3779f8
  {
  }

  /** The canonical representative of an unordered pair: smaller element first (std::less order). */
  function Canonical<T>(p: Pair<T>, less: (T, T) -> bool): (c: Pair<T>)
    ensures c == p || c == (p.1, p.0)
  {
    if less(p.0, p.1) then p else (p.1, p.0)
  }

  function CanonicalAddresses(p: Pair<Address>): (c: Pair<Address>)
    ensures c == p || c == (p.1, p.0)
    ensures c.0 <= c.1
  {
    Canonical(p, (a: Address, b: Address) => a < b)
  }

  function CanonicalInts(p: Pair<Int32>): (c: Pair<Int32>)
    ensures c == p || c == (p.1, p.0)
    ensures c.0 <= c.1
  {
    Canonical(p, (a: Int32, b: Int32) => a < b)
  }

  /** Hashing the canonical pair: the form the hash set needs. */
  function SymmetricBodyPairHash(p: Pair<Address>): bv64
  {
    BodyPairHash(CanonicalAddresses(p))
  }

  function SymmetricNumericPairHash(p: Pair<Int32>): bv64
  {
    NumericPairHash(CanonicalInts(p))
  }

  /** Equal keys have equal hashes once the pair is canonicalised. */
  lemma {:induction false} SymmetricHashRespectsEquality(p: Pair<Address>, q: Pair<Address>, m: Pair<Int32>, n: Pair<Int32>)
    ensures PairEqual(p, q) ==> SymmetricBodyPairHash(p) == SymmetricBodyPairHash(q)
    ensures PairEqual(m, n) ==> SymmetricNumericPairHash(m) == SymmetricNumericPairHash(n)
  {
    if PairEqual(p, q) {
      assert CanonicalAddresses(p) == CanonicalAddresses(q);
    }
    if PairEqual(m, n) {
      assert CanonicalInts(m) == CanonicalInts(n);
    }
  }

  /**
   * On canonical pairs (as QWorld builds them before every insert, erase and
   * find on its exception set) the equality functor is plain equality, so the
   * order-dependent hash is harmless there.
   */
  lemma CanonicalPairsNeedNoSwap(p: Pair<Address>, q: Pair<Address>)
    requires p.0 <= p.1 && q.0 <= q.1
    ensures PairEqual(p, q) <==> p == q
  {
  }
}
