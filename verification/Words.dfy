/** Machine numbers: bytes and the bounds of the word sizes that the programs compute in. */
module Words {

  type byte = x: int | 0 <= x < 256

  const TWO32: nat := 0x1_0000_0000
  const TWO63: nat := 0x8000_0000_0000_0000
  const TWO64: nat := 0x1_0000_0000_0000_0000
}
