/** Adler-32 of section 2.2 of RFC 1950. */
module Adler32 {
  import opened Texts

  const MODULUS := 65521

  /** 1 plus the octets, modulo 65521. */
  function Low(s: Text): (a: nat)
    ensures a < MODULUS
  {
    if s == [] then 1 else (Low(s[..|s| - 1]) + s[|s| - 1] as int) % MODULUS
  }

  /** The running totals of Low, summed modulo 65521. */
  function High(s: Text): (b: nat)
    ensures b < MODULUS
  {
    if s == [] then 0 else (High(s[..|s| - 1]) + Low(s)) % MODULUS
  }

  function Sum(s: Text): (c: nat)
    ensures c < 0x1_0000_0000
  {
    High(s) * 0x1_0000 + Low(s)
  }
}
