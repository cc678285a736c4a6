/** Machine integers of mip_types.h. Values are mathematical integers; where the C code can wrap or truncate, the model
    says so with one of these functions. */
module Bytes {
  type byte = b: int | 0 <= b < 256

  /** What an 8-bit, a 16-bit and a 32-bit unsigned integer keep of a number. */
  function Low8(n: nat): byte { n % 0x100 }

  function Low16(n: nat): nat { n % 0x1_0000 }

  function Low32(n: nat): nat { n % 0x1_0000_0000 }

  lemma Low32Add(a: nat, n: nat)
    ensures Low32(Low32(a) + n) == Low32(a + n)
  {
    var q := a / 0x1_0000_0000;
    assert Low32(a) + n == a + n - q * 0x1_0000_0000;
  }
}
