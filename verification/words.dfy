/** The fixed-width machine integers the plugin uses: bytes of instruction
    encodings and the 64-bit words it writes to the dump file. */
module Words {
  const U64_MODULUS: int := 0x1_0000_0000_0000_0000

  newtype u8 = x: int | 0 <= x < 0x100

  newtype u64 = x: int | 0 <= x < 0x1_0000_0000_0000_0000

  /** `x++` on a `uint64_t`: wraps around to 0 after the largest value. */
  function Inc64(x: u64): (r: u64)
    ensures r as int == (x as int + 1) % U64_MODULUS
  {
    if x as int == U64_MODULUS - 1 then 0 else x + 1
  }

  /** Definition: the low 64 bits of a natural number, as a `uint64_t`
      would hold it; a number that fits is kept as it is. */
  function Trunc64(n: nat): (r: u64)
    ensures n < U64_MODULUS ==> r as int == n
  {
    (n % U64_MODULUS) as u64
  }
}
