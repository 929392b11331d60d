/** Java's 32-bit `int` with its two's-complement wrap-around. */
module Int32 {

  const MIN: int := -0x8000_0000
  const MAX: int := 0x7fff_ffff

  newtype i32 = x: int | -0x8000_0000 <= x <= 0x7fff_ffff

  /** The 32-bit value congruent to `x` modulo 2^32. */
  function Wrap(x: int): (r: i32)
    ensures (r as int - x) % 0x1_0000_0000 == 0
    ensures MIN <= x <= MAX ==> r as int == x
  {
    var m := (x - MIN) % 0x1_0000_0000;
    (m + MIN) as i32
  }

  /** Java's `a + b` on `int`. */
  function Add(a: i32, b: i32): (r: i32)
    ensures MIN <= a as int + b as int <= MAX ==> r as int == a as int + b as int
    ensures a as int + b as int > MAX ==> r as int == a as int + b as int - 0x1_0000_0000
  {
    Wrap(a as int + b as int)
  }

  /** Java's `a - b` on `int`. */
  function Sub(a: i32, b: i32): (r: i32)
    ensures MIN <= a as int - b as int <= MAX ==> r as int == a as int - b as int
  {
    Wrap(a as int - b as int)
  }

  /** Adding 1 always changes a 32-bit value: the value after MAX is MIN. */
  lemma AddOneChanges(a: i32)
    ensures Add(a, 1) != a
  {
    if a as int == MAX {
      assert Add(a, 1) as int == MIN;
    }
  }
}
