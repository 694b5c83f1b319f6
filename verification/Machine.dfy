/** Numbers as the machine has them, and the arithmetic the other modules share. */
module Machine {
  /** The largest size, offset or address: 64 bits. */
  const MAX_SIZE: nat := 0xFFFF_FFFF_FFFF_FFFF

  /** How many values an `unsigned` has. */
  const UNSIGNED: nat := 0x1_0000_0000

  /** What a product, or any other result, leaves in 64 bits. */
  function Wrap64(a: nat): nat {
    a % (MAX_SIZE + 1)
  }

  function Add64(a: nat, b: nat): nat {
    Wrap64(a + b)
  }

  function Min(a: nat, b: nat): nat { if a < b then a else b }

  function Max(a: nat, b: nat): nat { if a > b then a else b }

  function Power2(n: nat): (p: nat)
    ensures p >= 1
  {
    if n == 0 then 1 else 2 * Power2(n - 1)
  }

  lemma {:induction false} DivMod(x: nat, d: nat)
    requires d > 0
    ensures x == (x / d) * d + x % d && x % d < d
  {
  }

  lemma {:induction false} Gap(p: nat, q: nat, d: nat)
    ensures p < q ==> p * d + d <= q * d
    ensures p <= q ==> p * d <= q * d
  {
    if p < q { assert q * d == (p + 1) * d + (q - p - 1) * d; }
  }

  lemma {:induction false} Distribute(q: nat, p: nat, d: nat)
    ensures (q + p) * d == q * d + p * d
  {
  }

  /** The remainder is the only way to split a number. */
  lemma {:induction false} RemainderUnique(x: nat, d: nat, q: nat, r: nat)
    requires d > 0 && x == q * d + r && r < d
    ensures x % d == r && x / d == q
  {
    DivMod(x, d);
    Gap(x / d, q, d);
    Gap(q, x / d, d);
  }

  lemma {:induction false} Associate(q: nat, m: nat, e: nat)
    ensures q * (m * e) == (q * m) * e
  {
  }
}
