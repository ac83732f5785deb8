/** Sums, the number of a truth value, and products that grow with a factor. */
module Numbers {

  function One(b: bool): nat
  {
    if b then 1 else 0
  }

  function Sum(s: seq<nat>): nat
  {
    if s == [] then 0 else Sum(s[..|s| - 1]) + s[|s| - 1]
  }

  lemma MulMono(p: nat, a: nat, b: nat)
    ensures a <= b ==> p * a <= p * b
  {
  }
}
