/** The 4-byte reversal used to turn little-endian image words into the
    big-endian order FITS readers expect.

    The argument is a C long; its bytes are taken with arithmetic shifts
    and a mask 255, which on two's complement values is floor division by
    a power of 256 followed by a non-negative remainder, exactly Dafny's
    Euclidean / and %. The result is the 32-bit pattern that the sum of the
    shifted bytes forms. */
module ByteSwap {

  /** Byte k (0 = least significant) of x in two's complement, as (x >> 8k) & 255. */
  function ByteOf(x: int, k: nat): (r: nat)
    ensures r < 256
    decreases k
  {
    if k == 0 then x % 256 else ByteOf(x / 256, k - 1)
  }

  /** The word whose bytes, most significant first, are b3 b2 b1 b0. */
  function Word(b3: nat, b2: nat, b1: nat, b0: nat): nat
    requires b3 < 256 && b2 < 256 && b1 < 256 && b0 < 256
  {
    b3 * 0x100_0000 + b2 * 0x1_0000 + b1 * 0x100 + b0
  }

  /** byteswap: byte 0 moves to the top, byte 3 to the bottom. */
  function Swap(x: int): (r: nat)
    ensures r < 0x1_0000_0000
  {
    Word(ByteOf(x, 0), ByteOf(x, 1), ByteOf(x, 2), ByteOf(x, 3))
  }

  /** The bytes of a word built by Word are the bytes it was built from. */
  lemma WordBytes(b3: nat, b2: nat, b1: nat, b0: nat)
    requires b3 < 256 && b2 < 256 && b1 < 256 && b0 < 256
    ensures var w := Word(b3, b2, b1, b0);
      ByteOf(w, 0) == b0 && ByteOf(w, 1) == b1 && ByteOf(w, 2) == b2 && ByteOf(w, 3) == b3
  {
    var w := Word(b3, b2, b1, b0);
    var w1 := b3 * 0x1_0000 + b2 * 0x100 + b1;
    var w2 := b3 * 0x100 + b2;
    assert w == w1 * 256 + b0;
    assert w1 == w2 * 256 + b1;
    assert w2 == b3 * 256 + b2;
    DivModOf(w, w1, b0);
    DivModOf(w1, w2, b1);
    DivModOf(w2, b3, b2);
    assert ByteOf(w, 1) == ByteOf(w1, 0);
    assert ByteOf(w, 2) == ByteOf(w1, 1) == ByteOf(w2, 0);
    assert ByteOf(w, 3) == ByteOf(w1, 2) == ByteOf(w2, 1) == ByteOf(b3, 0);
  }

  lemma DivModOf(w: int, q: int, r: nat)
    requires r < 256 && w == q * 256 + r
    ensures w / 256 == q && w % 256 == r
  {
  }

  /** A word in [0, 2^32) is rebuilt from its four bytes. */
  lemma WordOfBytes(x: int)
    requires 0 <= x < 0x1_0000_0000
    ensures x == Word(ByteOf(x, 3), ByteOf(x, 2), ByteOf(x, 1), ByteOf(x, 0))
  {
    var x1 := x / 256;
    var x2 := x1 / 256;
    var x3 := x2 / 256;
    Split(x, 0x100_0000);
    Split(x1, 0x1_0000);
    Split(x2, 0x100);
    DivModOf(x3, 0, x3);
    assert ByteOf(x, 1) == ByteOf(x1, 0);
    assert ByteOf(x, 2) == ByteOf(x1, 1) == ByteOf(x2, 0);
    assert ByteOf(x, 3) == ByteOf(x1, 2) == ByteOf(x2, 1) == ByteOf(x3, 0) == x3;
    Compose(x, x1, x2, x3, x % 256, x1 % 256, x2 % 256);
  }

  lemma Compose(x: int, x1: int, x2: int, x3: int, b0: int, b1: int, b2: int)
    requires x == x1 * 256 + b0 && x1 == x2 * 256 + b1 && x2 == x3 * 256 + b2
    ensures x == x3 * 0x100_0000 + b2 * 0x1_0000 + b1 * 0x100 + b0
  {
  }

  /** x is 256 times its quotient plus its low byte; below 256 * k the
      quotient is below k. */
  lemma Split(x: int, k: nat)
    requires 0 <= x < 256 * k
    ensures x == (x / 256) * 256 + x % 256 && 0 <= x / 256 < k
  {
  }

  /** Byte k of the result is byte 3 - k of the argument. */
  lemma SwapBytes(x: int, k: nat)
    requires k < 4
    ensures ByteOf(Swap(x), k) == ByteOf(x, 3 - k)
  {
    WordBytes(ByteOf(x, 0), ByteOf(x, 1), ByteOf(x, 2), ByteOf(x, 3));
  }

  /** 256^m. */
  function Pow256(m: nat): (r: nat)
    ensures r > 0
  {
    if m == 0 then 1 else 256 * Pow256(m - 1)
  }

  /** Adding a multiple of 256^m leaves the bytes below m alone. */
  lemma {:induction false} ByteOfShift(x: int, c: int, m: nat, k: nat)
    requires k < m
    ensures ByteOf(x + c * Pow256(m), k) == ByteOf(x, k)
    decreases k
  {
    var p := Pow256(m - 1);
    assert x + c * Pow256(m) == (x / 256 + c * p) * 256 + x % 256;
    DivModOf(x + c * Pow256(m), x / 256 + c * p, x % 256);
    if k > 0 {
      ByteOfShift(x / 256, c, m - 1, k - 1);
    }
  }

  /** Only the low 32 bits of the argument matter. */
  lemma SwapLow32(x: int, y: int)
    requires (x - y) % 0x1_0000_0000 == 0
    ensures Swap(x) == Swap(y)
  {
    assert Pow256(4) == 0x1_0000_0000;
    var c := (x - y) / 0x1_0000_0000;
    assert x == y + c * Pow256(4);
    ByteOfShift(y, c, 4, 0);
    ByteOfShift(y, c, 4, 1);
    ByteOfShift(y, c, 4, 2);
    ByteOfShift(y, c, 4, 3);
  }

  /** On 32-bit words the swap is its own inverse. */
  lemma SwapSwap(x: int)
    requires 0 <= x < 0x1_0000_0000
    ensures Swap(Swap(x)) == x
  {
    WordBytes(ByteOf(x, 0), ByteOf(x, 1), ByteOf(x, 2), ByteOf(x, 3));
    WordOfBytes(x);
  }

  /** x's bytes in memory order on a little-endian machine. */
  function LittleEndian(x: int): (r: seq<nat>)
    ensures |r| == 4
  {
    [ByteOf(x, 0), ByteOf(x, 1), ByteOf(x, 2), ByteOf(x, 3)]
  }

  /** x's bytes in memory order on a big-endian machine (the FITS order). */
  function BigEndian(x: int): (r: seq<nat>)
    ensures |r| == 4
  {
    [ByteOf(x, 3), ByteOf(x, 2), ByteOf(x, 1), ByteOf(x, 0)]
  }

  /** Written big-endian, the swapped word has the bytes x has little-endian. */
  lemma SwapEndianness(x: int)
    ensures BigEndian(Swap(x)) == LittleEndian(x)
  {
    WordBytes(ByteOf(x, 0), ByteOf(x, 1), ByteOf(x, 2), ByteOf(x, 3));
  }
}
