/** Shared value types: optional values, results with an error, the
    unsigned 32-bit arithmetic used by the frame buffers and lookup tables,
    the exceptions of the ingest scripts, decimal digit characters, and
    facts about Euclidean division. */
module Common {

  datatype Option<+T> = None | Some(value: T)

  datatype Result<+T, +E> = Ok(value: T) | Err(error: E)

  /** The Python exceptions the ingest scripts can raise. */
  datatype PyError = ValueError | IndexError | KeyError | TypeError | OverflowError

  predicate IsDigit(c: char) {
    '0' <= c <= '9'
  }

  function DigitValue(c: char): (r: nat)
    requires IsDigit(c)
    ensures r < 10
  {
    c as int - '0' as int
  }

  function DigitChar(d: nat): (c: char)
    requires d < 10
    ensures IsDigit(c) && DigitValue(c) == d
  {
    ('0' as int + d) as char
  }

  /** The decimal digits of n, without leading zeros. */
  function Decimal(n: nat): (r: seq<char>)
    ensures |r| >= 1
    decreases n
  {
    if n < 10 then [DigitChar(n)] else Decimal(n / 10) + [DigitChar(n % 10)]
  }

  /** The number a string of digits denotes. */
  function DigitsValue(s: seq<char>): nat
    requires forall i :: 0 <= i < |s| ==> IsDigit(s[i])
  {
    if s == [] then 0 else DigitsValue(s[..|s| - 1]) * 10 + DigitValue(s[|s| - 1])
  }

  /** Reading back the decimal digits of n gives n. */
  lemma {:induction false} DecimalRoundTrip(n: nat)
    ensures forall i :: 0 <= i < |Decimal(n)| ==> IsDigit(Decimal(n)[i])
    ensures DigitsValue(Decimal(n)) == n
    decreases n
  {
    if n >= 10 {
      DecimalRoundTrip(n / 10);
      var s := Decimal(n);
      assert s[..|s| - 1] == Decimal(n / 10);
    }
  }

  /** 2^32, the modulus of the unsigned 32-bit element types. */
  const TWO32: int := 0x1_0000_0000

  predicate IsU32(x: int) {
    0 <= x < TWO32
  }

  /** Every value of a sequence fits in 32 unsigned bits. */
  predicate AllU32(s: seq<int>) {
    forall i :: 0 <= i < |s| ==> IsU32(s[i])
  }

  /** Conversion of an integer to uint32: keep the low 32 bits. */
  function WrapU32(x: int): (r: nat)
    ensures IsU32(r)
    ensures (x - r) % TWO32 == 0
    ensures IsU32(x) ==> r == x
  {
    x % TWO32
  }

  /** Wrapping after every addition gives the same value as wrapping once at the end. */
  lemma WrapU32Add(x: int, y: int)
    ensures WrapU32(WrapU32(x) + y) == WrapU32(x + y)
  {
    assert x == (x / TWO32) * TWO32 + WrapU32(x);
  }

  /** WrapU32Add with the sum named. */
  lemma WrapU32AddTo(x: int, y: int, z: int)
    requires z == x + y
    ensures WrapU32(WrapU32(x) + y) == WrapU32(z)
  {
    WrapU32Add(x, y);
  }

  /** Wrapping a factor before multiplying gives the same low 32 bits. */
  lemma WrapU32Mul(x: int, y: int)
    ensures WrapU32(WrapU32(x) * y) == WrapU32(x * y)
  {
    var q, w := x / TWO32, WrapU32(x);
    assert x == q * TWO32 + w;
    assert x * y == (q * y) * TWO32 + w * y;
    ModMultipleAdd(q * y, TWO32, w * y);
  }

  /** Multiplying both sides of a <= b by a non-negative n keeps the order. */
  lemma MulMonotone(a: int, b: int, n: nat)
    ensures a <= b ==> a * n <= b * n
  {
  }

  /** Euclidean division is unique: a = q * w + r with 0 <= r < w fixes q and r. */
  lemma DivModUnique(a: int, w: int, q: int, r: int)
    requires w > 0 && 0 <= r < w && a == q * w + r
    ensures a / w == q && a % w == r
  {
    var q', r' := a / w, a % w;
    assert a == q' * w + r';
    assert (q - q') * w == r' - r;
    MulMonotone(1, q - q', w);
    MulMonotone(1, q' - q, w);
  }

  /** Adding a multiple of w does not change the remainder modulo w. */
  lemma ModMultipleAdd(k: int, w: int, a: int)
    requires w > 0
    ensures (k * w + a) % w == a % w
  {
    var q := a / w;
    assert a == q * w + a % w;
    assert k * w + a == (k + q) * w + a % w;
    DivModUnique(k * w + a, w, k + q, a % w);
  }
}
