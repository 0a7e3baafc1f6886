/** Machine words as bounded integers, with the wrap-around of `uint32_t` written out. */
module Words {

  type u8 = x: int | 0 <= x < 0x100
  type u16 = x: int | 0 <= x < 0x1_0000
  type u32 = x: int | 0 <= x < 0x1_0000_0000

  function Min(a: int, b: int): (r: int)
    ensures r <= a && r <= b && (r == a || r == b)
  {
    if a <= b then a else b
  }

  function Max(a: int, b: int): (r: int)
    ensures r >= a && r >= b && (r == a || r == b)
  {
    if a >= b then a else b
  }

  /** Conversion of a size to `uint16_t`. */
  function Wrap16(n: nat): (r: u16)
    ensures n < 0x1_0000 ==> r == n
  {
    n % 0x1_0000
  }

  /** Conversion of an unbounded integer to `uint32_t`. */
  function Wrap(x: int): u32 {
    x % 0x1_0000_0000
  }

  /** `a += w` on `uint32_t`. */
  function Add32(a: u32, w: u16): (r: u32)
    ensures a + w < 0x1_0000_0000 ==> r == a + w
  {
    Wrap(a + w)
  }

  /** `a - b` on `uint32_t`. */
  function Sub32(a: u32, b: u32): u32 {
    Wrap(a - b)
  }

  /** `static_cast<int32_t>(x)`. */
  function Signed32(x: u32): (r: int)
    ensures -0x8000_0000 <= r < 0x8000_0000 && Wrap(r) == x
  {
    if x < 0x8000_0000 then x else x - 0x1_0000_0000
  }

  /** The wrapped distance between two positions is their true distance modulo 2^32. */
  lemma SubOfWraps(base: int, a: int, b: int)
    ensures Sub32(Wrap(base + a), Wrap(base + b)) == Wrap(a - b)
  {
  }

  lemma WrapSmall(x: int)
    requires 0 <= x < 0x1_0000_0000
    ensures Wrap(x) == x
  {
  }

  lemma WrapPlus(x: int, n: int)
    ensures Wrap(Wrap(x) + n) == Wrap(x + n)
  {
  }

  /** Two positions less than 2^32 apart share a sequence number only when they are equal. */
  lemma WrapInjective(a: int, b: int)
    requires -0x1_0000_0000 < a - b < 0x1_0000_0000
    requires Wrap(a) == Wrap(b)
    ensures a == b
  {
  }

  /**
   * Exactly when the code's signed test on the wrapped difference says "newer": the true
   * distance reduced modulo 2^32 lies strictly between 0 and 2^31.
   */
  lemma SignedTest(base: int, k: int, u: int)
    ensures Signed32(Sub32(Wrap(base + k), Wrap(base + u))) > 0 <==> 0 < (k - u) % 0x1_0000_0000 < 0x8000_0000
  {
    SubOfWraps(base, k, u);
  }
}
