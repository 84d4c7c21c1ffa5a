/** Integer powers, for the growing delays of the retrier and the poll loop. */
module Arith {

  function Pow(base: nat, exp: nat): nat {
    if exp == 0 then 1 else base * Pow(base, exp - 1)
  }

  /** With a base of at least 2, each further power is at least twice the previous. */
  lemma {:induction false} PowStep(base: nat, exp: nat)
    requires base >= 2
    ensures Pow(base, exp + 1) >= 2 * Pow(base, exp) && Pow(base, exp) >= 1
  {
    if exp > 0 {
      PowStep(base, exp - 1);
    }
  }
}
