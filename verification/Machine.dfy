/** The machine arithmetic the modelled C++ relies on: unsigned 64-bit values with silent wrap-around. */
module Machine {

  const TWO64: int := 0x1_0000_0000_0000_0000

  /** Both the largest representable value and the sources' "no route yet" sentinel. */
  const INFINITE: int := TWO64 - 1

  type u64 = x: int | 0 <= x < TWO64

  function WrapAdd(a: u64, b: u64): u64 {
    if a + b < TWO64 then a + b else a + b - TWO64
  }

  function WrapSub(a: u64, b: u64): u64 {
    if b <= a then a - b else a - b + TWO64
  }

  /** The 64-bit word an unbounded integer is stored as. */
  function Word(x: int): (w: u64) {
    x % TWO64
  }
}
