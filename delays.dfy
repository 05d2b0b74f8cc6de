/** Doubling delays with a cap, as the retry loops of the synchronisers
    compute them (`d *= 2; if d > max { d = max }`). */
module Delays {
  function Pow2(k: nat): (r: nat)
    ensures r >= 1
  {
    if k == 0 then 1 else 2 * Pow2(k - 1)
  }

  function Min(a: nat, b: nat): nat
  {
    if a <= b then a else b
  }

  /** Doubling and capping a delay of `2^k` capped gives `2^(k+1)` capped. */
  lemma CapStep(k: nat, cap: nat)
    ensures Min(Min(Pow2(k), cap) * 2, cap) == Min(Pow2(k + 1), cap)
  {
    assert Pow2(k + 1) == 2 * Pow2(k);
  }

  /** Capping after each doubling is capping once at the end. */
  lemma CapDouble(delay: nat, i: nat, cap: nat)
    ensures Min(Min(delay * 2, cap) * Pow2(i + 1), cap) == Min(delay * Pow2(i + 2), cap)
  {
    assert Pow2(i + 2) == 2 * Pow2(i + 1);
    assert delay * Pow2(i + 2) == (delay * 2) * Pow2(i + 1);
    if delay * 2 > cap {
      assert cap * Pow2(i + 1) >= cap;
      assert (delay * 2) * Pow2(i + 1) >= delay * 2;
    }
  }
}
