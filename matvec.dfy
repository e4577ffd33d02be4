/** Batched matrix-vector products on IDL arrays of integer element type:
    for each block i, the m x n row-major matrix at offset n * m * i times
    the n-vector at offset n * i, accumulated into the m results at offset
    m * i, each addition wrapping in the element type. */
module MatVec {
  import opened Common

  /** The IDL type codes an array can carry, in code order. */
  datatype IdlType =
    | Undefined | Byte | Int | Long | Float | Double | Complex | String | Struct
    | DComplex | Pointer | ObjRef | UInt | ULong | Long64 | ULong64

  /** The element types the products are modelled for. */
  predicate IsInteger(t: IdlType) {
    t == Byte || t == Int || t == Long || t == UInt || t == ULong || t == Long64 || t == ULong64
  }

  /** The element types the source has a product for. */
  predicate HasProduct(t: IdlType) {
    IsInteger(t) || t == Float || t == Double
  }

  /** 2 to the width of the type. */
  function Modulus(t: IdlType): (r: nat)
    requires IsInteger(t)
    ensures r >= 256
  {
    match t
    case Byte => 0x100
    case Int => 0x1_0000
    case UInt => 0x1_0000
    case Long => 0x1_0000_0000
    case ULong => 0x1_0000_0000
    case _ => 0x1_0000_0000_0000_0000
  }

  predicate Signed(t: IdlType) {
    t == Int || t == Long || t == Long64
  }

  /** The least value of the type. */
  function Low(t: IdlType): int
    requires IsInteger(t)
  {
    if Signed(t) then -(Modulus(t) / 2) else 0
  }

  predicate InRange(t: IdlType, x: int)
    requires IsInteger(t)
  {
    Low(t) <= x < Low(t) + Modulus(t)
  }

  /** Storing x in an element of type t: a value of the type, x itself when
      it fits. WrapCongruent adds that it is congruent to x modulo 2^width
      (two's complement for the signed types). */
  function Wrap(t: IdlType, x: int): (r: int)
    requires IsInteger(t)
    ensures InRange(t, r)
    ensures InRange(t, x) ==> r == x
  {
    WindowMod(Low(t), Modulus(t), x);
    ModWindow(x, Low(t), Modulus(t));
    Window(Low(t), Modulus(t), x)
  }

  /** The stored value differs from x by a multiple of 2^width. */
  lemma WrapCongruent(t: IdlType, x: int)
    requires IsInteger(t)
    ensures (x - Wrap(t, x)) % Modulus(t) == 0
  {
    WindowMod(Low(t), Modulus(t), x);
    ModWindow(x, Low(t), Modulus(t));
  }

  /** The value of [L, L + M) reached from x by steps of M. */
  function Window(L: int, M: int, x: int): int
    requires M > 0
    decreases if x < L then L - x + M else x - L
  {
    if x < L then Window(L, M, x + M)
    else if x >= L + M then Window(L, M, x - M)
    else x
  }

  /** The steps of M land on L + (x - L) % M. */
  lemma {:induction false} WindowMod(L: int, M: int, x: int)
    requires M > 0
    ensures Window(L, M, x) == L + (x - L) % M
    decreases if x < L then L - x + M else x - L
  {
    if x < L {
      WindowMod(L, M, x + M);
      ModMultipleAdd(1, M, x - L);
    } else if x >= L + M {
      WindowMod(L, M, x - M);
      ModMultipleAdd(-1, M, x - L);
    } else {
      DivModUnique(x - L, M, 0, x - L);
    }
  }

  /** L + (x - L) % M is the one value of [L, L + M) congruent to x. */
  lemma ModWindow(x: int, L: int, M: int)
    requires M > 0
    ensures var r := L + (x - L) % M;
      L <= r < L + M && (x - r) % M == 0 && (L <= x < L + M ==> r == x)
  {
    var q, r := (x - L) / M, L + (x - L) % M;
    assert x - L == q * M + (x - L) % M;
    assert x - r == q * M;
    DivModUnique(x - r, M, q, 0);
    if L <= x < L + M {
      DivModUnique(x - L, M, 0, x - L);
    }
  }

  lemma ModWindowAdd(x: int, y: int, L: int, M: int)
    requires M > 0
    ensures Window(L, M, Window(L, M, x) + y) == Window(L, M, x + y)
  {
    WindowMod(L, M, x);
    WindowMod(L, M, Window(L, M, x) + y);
    WindowMod(L, M, x + y);
    var q, z := (x - L) / M, x + y - L;
    assert x - L == q * M + (x - L) % M;
    assert (L + (x - L) % M) + y - L == (-q) * M + z;
    ModMultipleAdd(-q, M, z);
  }

  /** Wrapping after every addition is wrapping once at the end. */
  lemma WrapAdd(t: IdlType, x: int, y: int)
    requires IsInteger(t)
    ensures Wrap(t, Wrap(t, x) + y) == Wrap(t, x + y)
  {
    ModWindowAdd(x, y, Low(t), Modulus(t));
  }

  /** The sum of a[ao + col] * b[bo + col] over col < n. */
  function Dot(a: seq<int>, ao: nat, b: seq<int>, bo: nat, n: nat): int
    requires ao + n <= |a| && bo + n <= |b|
  {
    if n == 0 then 0 else Dot(a, ao, b, bo, n - 1) + a[ao + n - 1] * b[bo + n - 1]
  }

  /** The dot product reads only the n entries from each offset. */
  lemma {:induction false} DotDepends(a1: seq<int>, a2: seq<int>, ao: nat, b1: seq<int>, b2: seq<int>, bo: nat, n: nat)
    requires ao + n <= |a1| && ao + n <= |a2| && bo + n <= |b1| && bo + n <= |b2|
    requires forall k :: ao <= k < ao + n ==> a1[k] == a2[k]
    requires forall k :: bo <= k < bo + n ==> b1[k] == b2[k]
    ensures Dot(a1, ao, b1, bo, n) == Dot(a2, ao, b2, bo, n)
  {
    if n > 0 {
      DotDepends(a1, a2, ao, b1, b2, bo, n - 1);
    }
  }

  /** Row row of an m x n row-major matrix starts at row * n and ends
      within the matrix. */
  lemma RowInMatrix(row: nat, m: nat, n: nat)
    requires row < m
    ensures 0 <= row * n && row * n + n <= m * n
  {
    MulMonotone(0, row, n);
    MulMonotone(row + 1, m, n);
    assert (row + 1) * n == row * n + n;
  }

  /** The in-place product result[ro + row] += A[row] . b for row < m,
      every other element kept. */
  function MultiplyInto(t: IdlType, a: seq<int>, ao: nat, b: seq<int>, bo: nat, r: seq<int>, ro: nat, n: nat, m: nat)
    : (out: seq<int>)
    requires IsInteger(t) && ao + m * n <= |a| && bo + n <= |b| && ro + m <= |r|
    ensures |out| == |r|
  {
    seq(|r|, k requires 0 <= k < |r| =>
      if ro <= k < ro + m then Wrap(t, r[k] + RowDot(a, ao, b, bo, n, m, k - ro)) else r[k])
  }

  /** Row row of the m x n matrix at ao times the vector at bo. */
  function RowDot(a: seq<int>, ao: nat, b: seq<int>, bo: nat, n: nat, m: nat, row: nat): int
    requires ao + m * n <= |a| && bo + n <= |b| && row < m
  {
    RowInMatrix(row, m, n);
    Dot(a, ao + row * n, b, bo, n)
  }

  /** Block i of a and of b lies inside the arrays. */
  predicate BlockFits(aLength: nat, bLength: nat, n: nat, m: nat, i: nat) {
    n * m * i + m * n <= aLength && n * i + n <= bLength
  }

  /** The m wrapped dot products of the m x n matrix at ao with the vector at bo. */
  function Products(t: IdlType, a: seq<int>, ao: nat, b: seq<int>, bo: nat, n: nat, m: nat): (r: seq<int>)
    requires IsInteger(t) && ao + m * n <= |a| && bo + n <= |b|
    ensures |r| == m
  {
    seq(m, row requires 0 <= row < m => Wrap(t, RowDot(a, ao, b, bo, n, m, row)))
  }

  /** Accumulating into zeros stores the products and keeps every other element. */
  lemma MultiplyIntoZeros(t: IdlType, a: seq<int>, ao: nat, b: seq<int>, bo: nat, p: seq<int>, n: nat, m: nat, z: nat)
    requires IsInteger(t) && ao + m * n <= |a| && bo + n <= |b|
    ensures MultiplyInto(t, a, ao, b, bo, p + Zeros(m + z), |p|, n, m) == p + Products(t, a, ao, b, bo, n, m) + Zeros(z)
  {
    var out := MultiplyInto(t, a, ao, b, bo, p + Zeros(m + z), |p|, n, m);
    var want := p + Products(t, a, ao, b, bo, n, m) + Zeros(z);
    forall k | 0 <= k < |out|
      ensures out[k] == want[k]
    {
      ZerosEntry(t, a, ao, b, bo, p, n, m, z, k);
    }
    assert out == want;
  }

  lemma ZerosMiddle(t: IdlType, a: seq<int>, ao: nat, b: seq<int>, bo: nat, p: seq<int>, n: nat, m: nat, z: nat, k: nat)
    requires IsInteger(t) && ao + m * n <= |a| && bo + n <= |b| && |p| <= k < |p| + m
    ensures MultiplyInto(t, a, ao, b, bo, p + Zeros(m + z), |p|, n, m)[k] == Products(t, a, ao, b, bo, n, m)[k - |p|]
  {
    assert (p + Zeros(m + z))[k] == 0;
  }

  lemma ZerosEntry(t: IdlType, a: seq<int>, ao: nat, b: seq<int>, bo: nat, p: seq<int>, n: nat, m: nat, z: nat, k: nat)
    requires IsInteger(t) && ao + m * n <= |a| && bo + n <= |b| && k < |p| + m + z
    ensures MultiplyInto(t, a, ao, b, bo, p + Zeros(m + z), |p|, n, m)[k]
      == (p + Products(t, a, ao, b, bo, n, m) + Zeros(z))[k]
  {
    var out := MultiplyInto(t, a, ao, b, bo, p + Zeros(m + z), |p|, n, m);
    var want := p + Products(t, a, ao, b, bo, n, m) + Zeros(z);
    var r := p + Zeros(m + z);
    if k < |p| {
      assert out[k] == r[k] == p[k];
    } else if k < |p| + m {
      ZerosMiddle(t, a, ao, b, bo, p, n, m, z, k);
    } else {
      assert out[k] == r[k] == 0;
    }
  }

  /** The m results of block i. */
  function Block(t: IdlType, a: seq<int>, b: seq<int>, n: nat, m: nat, i: nat): (r: seq<int>)
    requires IsInteger(t) && BlockFits(|a|, |b|, n, m, i)
    ensures |r| == m
  {
    Products(t, a, n * m * i, b, n * i, n, m)
  }

  /** Entry row of the products is that row's dot product with the vector
      modulo 2^width, and exactly that dot product when it fits the type. */
  lemma ProductsEntry(t: IdlType, a: seq<int>, ao: nat, b: seq<int>, bo: nat, n: nat, m: nat, row: nat)
    requires IsInteger(t) && ao + m * n <= |a| && bo + n <= |b| && row < m
    ensures 0 <= row * n && ao + row * n + n <= |a|
    ensures var d := Dot(a, ao + row * n, b, bo, n);
      var e := Products(t, a, ao, b, bo, n, m)[row];
      InRange(t, e) && (d - e) % Modulus(t) == 0 && (InRange(t, d) ==> e == d)
  {
    RowInMatrix(row, m, n);
    WrapCongruent(t, Dot(a, ao + row * n, b, bo, n));
  }

  /** Each block's results depend only on that block of a and of b. */
  lemma BlockIndependence(t: IdlType, a1: seq<int>, a2: seq<int>, b1: seq<int>, b2: seq<int>, n: nat, m: nat, i: nat)
    requires IsInteger(t) && BlockFits(|a1|, |b1|, n, m, i) && BlockFits(|a2|, |b2|, n, m, i)
    requires forall k :: n * m * i <= k < n * m * i + m * n ==> a1[k] == a2[k]
    requires forall k :: n * i <= k < n * i + n ==> b1[k] == b2[k]
    ensures Block(t, a1, b1, n, m, i) == Block(t, a2, b2, n, m, i)
  {
    forall row | 0 <= row < m
      ensures Block(t, a1, b1, n, m, i)[row] == Block(t, a2, b2, n, m, i)[row]
    {
      BlockRowIndependence(t, a1, a2, b1, b2, n, m, i, row);
    }
  }

  lemma BlockRowIndependence(t: IdlType, a1: seq<int>, a2: seq<int>, b1: seq<int>, b2: seq<int>, n: nat, m: nat, i: nat, row: nat)
    requires IsInteger(t) && BlockFits(|a1|, |b1|, n, m, i) && BlockFits(|a2|, |b2|, n, m, i) && row < m
    requires forall k :: n * m * i <= k < n * m * i + m * n ==> a1[k] == a2[k]
    requires forall k :: n * i <= k < n * i + n ==> b1[k] == b2[k]
    ensures Block(t, a1, b1, n, m, i)[row] == Block(t, a2, b2, n, m, i)[row]
  {
    Blocks(n, m, i, row);
    DotDepends(a1, a2, n * m * i + row * n, b1, b2, n * i, n);
  }

  lemma Blocks(n: nat, m: nat, i: nat, row: nat)
    requires row < m
    ensures 0 <= n * m * i && 0 <= row * n
    ensures n * m * i + row * n + n <= n * m * i + m * n
  {
    RowInMatrix(row, m, n);
    Succ(n, m, i);
    MulMonotone(0, row, n);
  }

  /** Block i fits when it is one of the first nMul blocks of arrays holding nMul blocks. */
  lemma BlockFitsBelow(aLength: nat, bLength: nat, n: nat, m: nat, i: nat, nMul: nat)
    requires i < nMul && n * m * nMul <= aLength && n * nMul <= bLength
    ensures BlockFits(aLength, bLength, n, m, i)
  {
    Prefix(n, m, i + 1, nMul);
    Succ(n, m, i);
  }

  /** Offsets of block i + 1 from those of block i. */
  lemma Succ(n: nat, m: nat, i: nat)
    ensures 0 <= n * m * i && 0 <= n * i && 0 <= m * i
    ensures n * m * (i + 1) == n * m * i + m * n && n * (i + 1) == n * i + n && m * (i + 1) == m * i + m
  {
  }

  /** Offsets of block k - 1 from those of block k. */
  lemma Pred(n: nat, m: nat, k: nat)
    requires k > 0
    ensures 0 <= n * m * (k - 1) && 0 <= n * (k - 1) && 0 <= m * (k - 1)
    ensures n * m * k == n * m * (k - 1) + m * n && n * k == n * (k - 1) + n && m * k == m * (k - 1) + m
  {
    var j := k - 1;
    Succ(n, m, j);
    assert j + 1 == k;
  }

  /** The first i blocks are within the first nMul. */
  lemma Prefix(n: nat, m: nat, i: nat, nMul: nat)
    requires i <= nMul
    ensures n * m * i <= n * m * nMul && n * i <= n * nMul && m * i <= m * nMul
  {
    MulMonotone(i, nMul, n * m);
    MulMonotone(i, nMul, n);
    MulMonotone(i, nMul, m);
  }

  /** The results of the first k blocks, block after block. */
  function Batched(t: IdlType, a: seq<int>, b: seq<int>, n: nat, m: nat, k: nat): (r: seq<int>)
    requires IsInteger(t) && n * m * k <= |a| && n * k <= |b|
    ensures |r| == m * k
  {
    if k == 0 then []
    else
      Pred(n, m, k);
      Batched(t, a, b, n, m, k - 1) + Block(t, a, b, n, m, k - 1)
  }

  /** Result m * i + row of the batch is entry row of block i. */
  lemma {:induction false} BatchedEntry(t: IdlType, a: seq<int>, b: seq<int>, n: nat, m: nat, k: nat, i: nat, row: nat)
    requires IsInteger(t) && n * m * k <= |a| && n * k <= |b| && i < k && row < m
    ensures BlockFits(|a|, |b|, n, m, i) && m * i + row < m * k
    ensures Batched(t, a, b, n, m, k)[m * i + row] == Block(t, a, b, n, m, i)[row]
  {
    BatchPrev(t, a, b, n, m, k);
    if i < k - 1 {
      BatchedEntry(t, a, b, n, m, k - 1, i, row);
    }
  }

  /** The batch of k blocks is that of k - 1 blocks followed by block k - 1. */
  lemma BatchPrev(t: IdlType, a: seq<int>, b: seq<int>, n: nat, m: nat, k: nat)
    requires IsInteger(t) && n * m * k <= |a| && n * k <= |b| && k > 0
    ensures n * m * (k - 1) <= |a| && n * (k - 1) <= |b| && BlockFits(|a|, |b|, n, m, k - 1)
    ensures m * k == m * (k - 1) + m
    ensures Batched(t, a, b, n, m, k) == Batched(t, a, b, n, m, k - 1) + Block(t, a, b, n, m, k - 1)
  {
    Pred(n, m, k);
  }

  function Zeros(k: nat): (r: seq<int>)
    ensures |r| == k && forall j :: 0 <= j < k ==> r[j] == 0
  {
    seq(k, _ => 0)
  }

  lemma DotNext(a: seq<int>, ao: nat, b: seq<int>, bo: nat, col: nat, p: int)
    requires ao + col < |a| && bo + col < |b| && p == a[ao + col] * b[bo + col]
    ensures Dot(a, ao, b, bo, col + 1) == Dot(a, ao, b, bo, col) + p
  {
  }

  /** After col steps of row k: entry k holds the wrapped sum of its start and
      the first col products, every other entry is as it was. */
  predicate RowPartial(t: IdlType, s0: seq<int>, s: seq<int>, a: seq<int>, ao: nat, b: seq<int>, bo: nat,
                       k: nat, col: nat)
    requires IsInteger(t) && ao + col <= |a| && bo + col <= |b|
  {
    k < |s0| && s == s0[k := Wrap(t, s0[k] + Dot(a, ao, b, bo, col))]
  }

  /** One more product added to a wrapped partial sum is the wrapped longer sum. */
  lemma RowStep(t: IdlType, s0: seq<int>, s: seq<int>, s1: seq<int>, a: seq<int>, ao: nat, b: seq<int>, bo: nat,
                k: nat, col: nat, p: int, v: int)
    requires IsInteger(t) && ao + col < |a| && bo + col < |b| && p == a[ao + col] * b[bo + col]
    requires RowPartial(t, s0, s, a, ao, b, bo, k, col)
    requires v == Wrap(t, s[k] + p) && s1 == s[k := v]
    ensures RowPartial(t, s0, s1, a, ao, b, bo, k, col + 1)
  {
    var d := Dot(a, ao, b, bo, col);
    DotNext(a, ao, b, bo, col, p);
    WrapAddTo(t, s0[k] + d, p, s0[k] + Dot(a, ao, b, bo, col + 1));
    assert s1 == s0[k := v];
  }

  lemma WrapAddTo(t: IdlType, x: int, y: int, z: int)
    requires IsInteger(t) && z == x + y
    ensures Wrap(t, Wrap(t, x) + y) == Wrap(t, z)
  {
    WrapAdd(t, x, y);
  }

  /** One row: result[k] += a[ao + col] * b[bo + col] for col < n. */
  method MultiplyRow(t: IdlType, a: array<int>, ao: nat, b: array<int>, bo: nat, result: array<int>, k: nat, n: nat)
    requires IsInteger(t) && ao + n <= a.Length && bo + n <= b.Length && k < result.Length
    requires InRange(t, result[k])
    requires result != a && result != b
    modifies result
    ensures result[..] == old(result[..])[k := Wrap(t, old(result[k]) + Dot(a[..], ao, b[..], bo, n))]
  {
    ghost var s0, sa, sb := result[..], a[..], b[..];
    assert s0 == s0[k := s0[k]];
    for col := 0 to n
      invariant RowPartial(t, s0, result[..], sa, ao, sb, bo, k, col)
    {
      var x, y := a[ao + col], b[bo + col];
      assert x == sa[ao + col] && y == sb[bo + col];
      var p := x * y;
      var v := Wrap(t, result[k] + p);
      ghost var before := result[..];
      result[k] := v;
      assert result[..] == before[k := v];
      RowStep(t, s0, before, result[..], sa, ao, sb, bo, k, col, p, v);
    }
    assert sa == a[..] && sb == b[..];
  }

  /** IDL_kcor_matrix_vector_multiply_TYPE on the arrays at the given offsets. */
  method MatrixVectorMultiply(t: IdlType, a: array<int>, ao: nat, b: array<int>, bo: nat,
                              result: array<int>, ro: nat, n: nat, m: nat)
    requires IsInteger(t) && ao + m * n <= a.Length && bo + n <= b.Length && ro + m <= result.Length
    requires forall k :: ro <= k < ro + m ==> InRange(t, result[k])
    requires result != a && result != b
    modifies result
    ensures result[..] == MultiplyInto(t, a[..], ao, b[..], bo, old(result[..]), ro, n, m)
  {
    for row := 0 to m
      invariant result[..] == MultiplyInto(t, a[..], ao, b[..], bo, old(result[..]), ro, n, row)
    {
      RowInMatrix(row, m, n);
      ghost var before := result[..];
      MultiplyRow(t, a, ao + row * n, b, bo, result, ro + row, n);
      MultiplyIntoNext(t, a[..], ao, b[..], bo, old(result[..]), ro, n, row, before, result[..]);
    }
  }

  lemma MultiplyIntoNext(t: IdlType, a: seq<int>, ao: nat, b: seq<int>, bo: nat, r: seq<int>, ro: nat, n: nat,
                         row: nat, before: seq<int>, after: seq<int>)
    requires IsInteger(t) && ao + (row + 1) * n <= |a| && bo + n <= |b| && ro + row + 1 <= |r|
    requires before == MultiplyInto(t, a, ao, b, bo, r, ro, n, row)
    requires after == before[ro + row := Wrap(t, before[ro + row] + Dot(a, ao + row * n, b, bo, n))]
    ensures after == MultiplyInto(t, a, ao, b, bo, r, ro, n, row + 1)
  {
    RowInMatrix(row, row + 1, n);
  }

  /** IDL_kcor_batch_matrix_vector_multiply_TYPE: a zeroed m x nMul result,
      then one in-place product per block. */
  method BatchMultiply(t: IdlType, a: array<int>, b: array<int>, n: nat, m: nat, nMul: nat)
    returns (result: array<int>)
    requires IsInteger(t) && n * m * nMul <= a.Length && n * nMul <= b.Length
    ensures fresh(result)
    ensures result[..] == Batched(t, a[..], b[..], n, m, nMul)
  {
    result := new int[m * nMul](_ => 0);
    BatchStart(t, a[..], b[..], n, m, nMul, result[..]);
    for i := 0 to nMul
      invariant result.Length == m * nMul
      invariant BatchPrefix(t, a[..], b[..], n, m, nMul, i, result[..])
    {
      MultiplyBlock(t, a, b, n, m, i, nMul, result);
    }
    BatchDone(t, a[..], b[..], n, m, nMul, result[..]);
  }

  /** The first i blocks of the batch are done and the rest of the result is zero. */
  predicate BatchPrefix(t: IdlType, a: seq<int>, b: seq<int>, n: nat, m: nat, nMul: nat, i: nat, s: seq<int>) {
    IsInteger(t) && i <= nMul && n * m * i <= |a| && n * i <= |b| && m * i <= m * nMul
    && s == Batched(t, a, b, n, m, i) + Zeros(m * nMul - m * i)
  }

  lemma BatchStart(t: IdlType, a: seq<int>, b: seq<int>, n: nat, m: nat, nMul: nat, s: seq<int>)
    requires IsInteger(t) && s == Zeros(m * nMul)
    ensures BatchPrefix(t, a, b, n, m, nMul, 0, s)
  {
    Succ(n, m, 0);
    Prefix(n, m, 0, nMul);
  }

  lemma BatchDone(t: IdlType, a: seq<int>, b: seq<int>, n: nat, m: nat, nMul: nat, s: seq<int>)
    requires BatchPrefix(t, a, b, n, m, nMul, nMul, s)
    ensures n * m * nMul <= |a| && n * nMul <= |b| && s == Batched(t, a, b, n, m, nMul)
  {
  }

  /** Block i of the batch, into a result whose blocks from i on are zero. */
  method MultiplyBlock(t: IdlType, a: array<int>, b: array<int>, n: nat, m: nat, i: nat, nMul: nat, result: array<int>)
    requires i < nMul && n * m * nMul <= a.Length && n * nMul <= b.Length
    requires result != a && result != b && result.Length == m * nMul
    requires BatchPrefix(t, a[..], b[..], n, m, nMul, i, result[..])
    modifies result
    ensures BatchPrefix(t, a[..], b[..], n, m, nMul, i + 1, result[..])
  {
    BlockFitsBelow(a.Length, b.Length, n, m, i, nMul);
    Succ(n, m, i);
    Prefix(n, m, i + 1, nMul);
    var ao, bo, ro := n * m * i, n * i, m * i;
    ghost var z: nat := m * nMul - m * (i + 1);
    ghost var before := result[..];
    MatrixVectorMultiply(t, a, ao, b, bo, result, ro, n, m);
    BatchStep(t, a[..], b[..], n, m, i, ao, bo, ro, z, before, result[..]);
  }

  /** Block i accumulated into zeros is the next block of the batch; ao, bo
      and ro are block i's offsets n * m * i, n * i and m * i. */
  lemma BatchStep(t: IdlType, a: seq<int>, b: seq<int>, n: nat, m: nat, i: nat, ao: nat, bo: nat, ro: nat,
                  z: nat, before: seq<int>, after: seq<int>)
    requires IsInteger(t) && n * m * (i + 1) <= |a| && n * (i + 1) <= |b|
    requires ao == n * m * i && bo == n * i && ro == m * i
    requires ao <= |a| && bo <= |b| && ao + m * n <= |a| && bo + n <= |b|
    requires before == Batched(t, a, b, n, m, i) + Zeros(m + z)
    requires after == MultiplyInto(t, a, ao, b, bo, before, ro, n, m)
    ensures after == Batched(t, a, b, n, m, i + 1) + Zeros(z)
  {
    var p := Batched(t, a, b, n, m, i);
    MultiplyIntoZeros(t, a, ao, b, bo, p, n, m, z);
    BatchPrev(t, a, b, n, m, i + 1);
  }

  datatype DispatchError = UnsupportedType | FloatingPoint

  /** IDL_kcor_batched_matrix_vector_multiply: the product routine is chosen
      by a's type alone; any type without one is an error. Float and double
      products are outside this model. */
  method BatchedMatrixVectorMultiply(t: IdlType, a: array<int>, b: array<int>, n: nat, m: nat, nMul: nat)
    returns (r: Result<array<int>, DispatchError>)
    requires IsInteger(t) ==> n * m * nMul <= a.Length && n * nMul <= b.Length
    ensures r.Err? <==> !IsInteger(t)
    ensures r == Err(UnsupportedType) <==> !HasProduct(t)
    ensures r.Ok? ==> fresh(r.value) && r.value[..] == Batched(t, a[..], b[..], n, m, nMul)
  {
    match t {
      case Byte | Int | Long | UInt | ULong | Long64 | ULong64 =>
        var result := BatchMultiply(t, a, b, n, m, nMul);
        r := Ok(result);
      case Float | Double =>
        r := Err(FloatingPoint);
      case _ =>
        r := Err(UnsupportedType);
    }
  }
}
