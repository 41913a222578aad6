/**
 The mask of probing parsers that have given up, as a number and its binary digits.
 */
module ProbeMask {
  import opened Common

  /** mask & (1 << k) is not zero. */
  predicate Masked(mask: nat, k: nat) {
    if k == 0 then mask % 2 == 1 else Masked(mask / 2, k - 1)
  }

  /** mask | (1 << k). */
  function WithBit(mask: nat, k: nat): nat {
    if Masked(mask, k) then mask else mask + Pow2(k)
  }

  lemma {:induction false} MaskedOr(mask: nat, k: nat, i: nat)
    ensures Masked(WithBit(mask, k), i) <==> Masked(mask, i) || i == k
  {
    if k > 0 && !Masked(mask, k) {
      assert (mask + Pow2(k)) % 2 == mask % 2 && (mask + Pow2(k)) / 2 == mask / 2 + Pow2(k - 1);
    }
    if k > 0 && i > 0 {
      MaskedOr(mask / 2, k - 1, i - 1);
    }
  }

  /** A bit below n does not carry beyond n. */
  lemma {:induction false} WithBitBelow(mask: nat, k: nat, n: nat)
    requires k < n && mask < Pow2(n)
    ensures WithBit(mask, k) < Pow2(n)
  {
    if k > 0 && !Masked(mask, k) {
      assert mask / 2 < Pow2(n - 1);
      WithBitBelow(mask / 2, k - 1, n - 1);
      assert Pow2(k) == 2 * Pow2(k - 1);
    }
  }

  lemma {:induction false} NotMaskedBeyond(mask: nat, n: nat, i: nat)
    requires mask < Pow2(n) && n <= i
    ensures !Masked(mask, i)
  {
    if n > 0 {
      NotMaskedBeyond(mask / 2, n - 1, i - 1);
    } else if i > 0 {
      NotMaskedBeyond(0, 0, i - 1);
    }
  }

  ghost predicate AllMasked(mask: nat, n: nat) {
    forall i :: 0 <= i < n ==> Masked(mask, i)
  }

  /** A mask of n bits is (1 << n) - 1 exactly when all of them are set. */
  lemma {:induction false} FullIff(mask: nat, n: nat)
    requires mask < Pow2(n)
    ensures mask == Pow2(n) - 1 <==> AllMasked(mask, n)
  {
    if n > 0 {
      FullIff(mask / 2, n - 1);
      AllSplit(mask, n);
    }
  }

  lemma AllSplit(mask: nat, n: nat)
    requires n > 0
    ensures AllMasked(mask, n) <==> mask % 2 == 1 && AllMasked(mask / 2, n - 1)
  {
    assert Masked(mask, 0) <==> mask % 2 == 1;
    if AllMasked(mask, n) {
      forall i | 0 <= i < n - 1 ensures Masked(mask / 2, i) {
        assert Masked(mask, i + 1);
      }
    }
    if mask % 2 == 1 && AllMasked(mask / 2, n - 1) {
      forall i | 0 <= i < n ensures Masked(mask, i) {
        assert i > 0 ==> Masked(mask / 2, i - 1);
      }
    }
  }
}
