/** 32-bit words: natural numbers below 2^32 whose addition wraps. */
module Words {

  const WRAP := 0x1_0000_0000

  function Add(a: nat, b: nat): nat
  {
    if a + b < WRAP then a + b else a + b - WRAP
  }

  lemma AddWraps(a: nat, b: nat)
    requires a < WRAP && b < WRAP
    ensures Add(a, b) == (a + b) % WRAP
  {
  }
}
