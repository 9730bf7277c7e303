// Decimal numbers as the guardian reads them from its lines and replies.
module Decimals {
  const UINT64_MAX: nat := 0xffff_ffff_ffff_ffff

  predicate Digital(word: string) { forall i :: 0 <= i < |word| ==> '0' <= word[i] <= '9' }

  function Decimal(word: string): nat
    requires Digital(word)
  {
    if word == "" then 0 else 10 * Decimal(word[..|word| - 1]) + (word[|word| - 1] as nat - '0' as nat)
  }

  lemma {:induction false} DecimalGrows(word: string, i: nat)
    requires Digital(word) && i <= |word|
    ensures Digital(word[..i]) && Decimal(word[..i]) <= Decimal(word)
    decreases |word|
  {
    if i < |word| {
      assert word[..|word| - 1][..i] == word[..i];
      DecimalGrows(word[..|word| - 1], i);
    } else {
      assert word[..i] == word;
    }
  }
}
