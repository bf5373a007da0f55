/**
 Comparing and storing embedding vectors (server/src/embeddings.rs). Comparing is done over the
 reals, with a square root that is only known to be one; stored vectors are 32-bit patterns.
 */
module Embeddings {
  // ----- cosine similarity -----

  /** A square root: nothing else is known of it. */
  ghost predicate SquareRoot(sqrt: real -> real) {
    forall x :: x >= 0.0 ==> sqrt(x) >= 0.0 && sqrt(x) * sqrt(x) == x
  }

  function Dot(a: seq<real>, b: seq<real>): real
    requires |a| == |b|
  {
    if a == [] then 0.0 else Dot(a[..|a| - 1], b[..|b| - 1]) + a[|a| - 1] * b[|b| - 1]
  }

  function Times(x: real, y: real): real {
    x * y
  }

  function Ratio(x: real, y: real): real {
    if y == 0.0 then 0.0 else x / y
  }

  function Cosine(a: seq<real>, b: seq<real>, sqrt: real -> real): real {
    if |a| != |b| || Dot(a, a) == 0.0 || Dot(b, b) == 0.0 then 0.0
    else Ratio(Dot(a, b), Times(sqrt(Dot(a, a)), sqrt(Dot(b, b))))
  }

  lemma NormsArePositive(a: seq<real>, b: seq<real>, sqrt: real -> real)
    requires SquareRoot(sqrt) && Dot(a, a) != 0.0 && Dot(b, b) != 0.0
    ensures sqrt(Dot(a, a)) * sqrt(Dot(b, b)) > 0.0
  {
    NotNegative(a);
    NotNegative(b);
    hide Dot;
    RootPositive(Dot(a, a), sqrt);
    RootPositive(Dot(b, b), sqrt);
    ProductPositive(sqrt(Dot(a, a)), sqrt(Dot(b, b)));
  }

  lemma RootPositive(x: real, sqrt: real -> real)
    requires SquareRoot(sqrt) && x > 0.0
    ensures sqrt(x) > 0.0
  {
    SquareNotNegative(sqrt(x));
  }

  lemma ProductPositive(x: real, y: real)
    requires x > 0.0 && y > 0.0
    ensures x * y > 0.0
  {
  }

  lemma EmptyDot(a: seq<real>, b: seq<real>)
    requires |a| == |b| == 0
    ensures Dot(a, b) == 0.0
  {
  }

  lemma DotGrows(a: seq<real>, b: seq<real>, i: nat)
    requires |a| == |b| && i < |a|
    ensures Dot(a[..i + 1], b[..i + 1]) == Dot(a[..i], b[..i]) + a[i] * b[i]
  {
    assert a[..i + 1][..i] == a[..i] && b[..i + 1][..i] == b[..i];
  }

  lemma CosineFromNorms(a: seq<real>, b: seq<real>, sqrt: real -> real)
    requires SquareRoot(sqrt)
    ensures if |a| != |b| || Dot(a, a) == 0.0 || Dot(b, b) == 0.0 then Cosine(a, b, sqrt) == 0.0
            else sqrt(Dot(a, a)) * sqrt(Dot(b, b)) != 0.0
                 && Cosine(a, b, sqrt) == Dot(a, b) / (sqrt(Dot(a, a)) * sqrt(Dot(b, b)))
  {
    if |a| == |b| && Dot(a, a) != 0.0 && Dot(b, b) != 0.0 {
      NormsArePositive(a, b, sqrt);
    }
    hide Dot;
  }

  method CosineSimilarity(a: seq<real>, b: seq<real>, sqrt: real -> real) returns (r: real)
    requires SquareRoot(sqrt)
    ensures r == Cosine(a, b, sqrt)
    ensures -1.0 <= r <= 1.0
  {
    CosineInRange(a, b, sqrt);
    CosineFromNorms(a, b, sqrt);
    hide Dot, Cosine;
    if |a| != |b| {
      return 0.0;
    }
    var dot, na, nb := 0.0, 0.0, 0.0;
    EmptyDot(a[..0], b[..0]);
    EmptyDot(a[..0], a[..0]);
    EmptyDot(b[..0], b[..0]);
    for i := 0 to |a|
      invariant dot == Dot(a[..i], b[..i]) && na == Dot(a[..i], a[..i]) && nb == Dot(b[..i], b[..i])
    {
      DotGrows(a, b, i);
      DotGrows(a, a, i);
      DotGrows(b, b, i);
      dot := dot + a[i] * b[i];
      na := na + a[i] * a[i];
      nb := nb + b[i] * b[i];
    }
    assert a[..|a|] == a && b[..|a|] == b;
    if na == 0.0 || nb == 0.0 {
      return 0.0;
    }
    return dot / (sqrt(na) * sqrt(nb));
  }

  lemma {:induction false} NotNegative(a: seq<real>)
    ensures Dot(a, a) >= 0.0
  {
    if a != [] {
      var n := |a| - 1;
      NotNegative(a[..n]);
      SquareNotNegative(a[n]);
    }
  }

  predicate AllZeros(a: seq<real>) {
    forall i :: 0 <= i < |a| ==> a[i] == 0.0
  }

  lemma TimesSign(x: real, y: real)
    ensures x > 0.0 && y > 0.0 ==> Times(x, y) > 0.0
    ensures x < 0.0 && y < 0.0 ==> Times(x, y) > 0.0
  {
    if x < 0.0 && y < 0.0 {
      NegativeProduct(x, y);
    }
  }

  lemma NegativeProduct(x: real, y: real)
    requires x < 0.0 && y < 0.0
    ensures Times(x, y) > 0.0
  {
  }

  lemma ZeroTimes(x: real, y: real)
    requires x == 0.0
    ensures Times(x, y) == 0.0
  {
  }

  lemma ZeroSquare(x: real)
    ensures Times(x, x) >= 0.0 && (Times(x, x) == 0.0 <==> x == 0.0)
  {
    TimesSign(x, x);
    hide Times;
    if x == 0.0 {
      ZeroTimes(x, x);
    }
  }

  lemma {:induction false} ZeroNorm(a: seq<real>)
    ensures Dot(a, a) == 0.0 <==> AllZeros(a)
  {
    if a != [] {
      var n := |a| - 1;
      ZeroNorm(a[..n]);
      NotNegative(a[..n]);
      assert Dot(a, a) == Dot(a[..n], a[..n]) + Times(a[n], a[n]);
      assert AllZeros(a) <==> AllZeros(a[..n]) && a[n] == 0.0;
      hide Dot, AllZeros, Times;
      ZeroSquare(a[n]);
    }
  }

  lemma SquareNotNegative(x: real)
    ensures x * x >= 0.0 && (x != 0.0 ==> x * x > 0.0)
  {
    if x > 0.0 {
      ProductPositive(x, x);
    } else if x < 0.0 {
      NegativeSquare(x);
    }
  }

  lemma NegativeSquare(x: real)
    requires x < 0.0
    ensures x * x > 0.0
  {
  }

  lemma SmallerSquare(x: real, y: real)
    requires x * x <= y * y && y >= 0.0
    ensures -y <= x <= y
  {
    assert (x - y) * (x + y) == x * x - y * y == (-x - y) * (-x + y);
    if x > y {
      ProductPositive(x - y, x + y);
    }
    if -x > y {
      ProductPositive(-x - y, -x + y);
    }
  }

  predicate Dominated(d: real, n: real, m: real) {
    d * d <= n * m
  }

  /** One more coordinate does not break the inequality. */
  lemma CauchyStep(p: real, q: real, r: real, x: real, y: real, d: real, n: real, m: real)
    requires q >= 0.0 && r >= 0.0 && Dominated(p, q, r)
    requires d == p + x * y && n == q + x * x && m == r + y * y
    ensures Dominated(d, n, m)
  {
    MixedTerm(p, q, r, x, y);
    var xy, xx, yy := x * y, x * x, y * y;
    assert xy * xy == xx * yy by { Rearranged(x, y); }
    assert (p + xy) * (p + xy) == p * p + 2.0 * p * xy + xy * xy;
    assert (q + xx) * (r + yy) == q * r + q * yy + r * xx + xx * yy;
  }

  lemma MixedTerm(p: real, q: real, r: real, x: real, y: real)
    requires q >= 0.0 && r >= 0.0 && p * p <= q * r
    ensures 2.0 * p * (x * y) <= q * (y * y) + r * (x * x)
  {
    var u, v, t := q * (y * y), r * (x * x), p * (x * y);
    SquareNotNegative(x);
    SquareNotNegative(y);
    SquareNotNegative(x * y);
    SquareNotNegative(u - v);
    ProductNotNegative(q, y * y);
    ProductNotNegative(r, x * x);
    ProductGrows(p * p, q * r, (x * y) * (x * y));
    Rearranged(p, x * y);
    RearrangedToo(q, r, x, y);
    assert t * t <= u * v;
    assert (2.0 * t) * (2.0 * t) <= (u + v) * (u + v);
    SmallerSquare(2.0 * t, u + v);
    assert 2.0 * p * (x * y) == 2.0 * t;
  }

  lemma ProductNotNegative(x: real, y: real)
    requires x >= 0.0 && y >= 0.0
    ensures x * y >= 0.0
  {
  }

  lemma ProductGrows(x: real, y: real, z: real)
    requires x <= y && z >= 0.0
    ensures x * z <= y * z
  {
  }

  lemma Rearranged(p: real, m: real)
    ensures (p * m) * (p * m) == (p * p) * (m * m)
  {
  }

  lemma RearrangedToo(q: real, r: real, x: real, y: real)
    ensures (q * r) * ((x * y) * (x * y)) == (q * (y * y)) * (r * (x * x))
  {
    Rearranged(x, y);
    var xx, yy := x * x, y * y;
    assert (q * r) * (xx * yy) == (q * yy) * (r * xx);
  }

  lemma DotStep(a: seq<real>, b: seq<real>, n: nat)
    requires |a| == |b| == n + 1
    ensures Dot(a, b) == Dot(a[..n], b[..n]) + a[n] * b[n]
  {
  }

  /** The Cauchy-Schwarz inequality. */
  lemma {:induction false} CauchySchwarz(a: seq<real>, b: seq<real>)
    requires |a| == |b|
    ensures Dominated(Dot(a, b), Dot(a, a), Dot(b, b))
  {
    if a == [] {
      assert Dot(a, b) == Dot(a, a) == 0.0;
    } else {
      hide Dot, Dominated;
      var n := |a| - 1;
      CauchySchwarz(a[..n], b[..n]);
      NotNegative(a[..n]);
      NotNegative(b[..n]);
      DotStep(a, b, n);
      DotStep(a, a, n);
      DotStep(b, b, n);
      CauchyStep(Dot(a[..n], b[..n]), Dot(a[..n], a[..n]), Dot(b[..n], b[..n]), a[n], b[n], Dot(a, b), Dot(a, a), Dot(b, b));
    }
  }

  lemma CosineInRange(a: seq<real>, b: seq<real>, sqrt: real -> real)
    requires SquareRoot(sqrt)
    ensures -1.0 <= Cosine(a, b, sqrt) <= 1.0
  {
    if |a| == |b| && Dot(a, a) != 0.0 && Dot(b, b) != 0.0 {
      CauchySchwarz(a, b);
      NotNegative(a);
      NotNegative(b);
      NormsArePositive(a, b, sqrt);
      var x, y := sqrt(Dot(a, a)), sqrt(Dot(b, b));
      assert Cosine(a, b, sqrt) == Ratio(Dot(a, b), x * y);
      hide Cosine, Dot, Ratio, Dominated;
      Bounded(Dot(a, b), Dot(a, a), Dot(b, b), x, y);
    }
  }

  lemma Bounded(d: real, n: real, m: real, x: real, y: real)
    requires x * x == n && y * y == m && x * y > 0.0 && Dominated(d, n, m)
    ensures -1.0 <= Ratio(d, x * y) <= 1.0
  {
    var norm := x * y;
    Rearranged(x, y);
    assert norm * norm == n * m;
    SmallerSquare(d, norm);
    QuotientInRange(d, norm);
  }

  lemma QuotientInRange(d: real, n: real)
    requires n > 0.0 && -n <= d <= n
    ensures -1.0 <= Ratio(d, n) <= 1.0
  {
  }

  lemma {:induction false} DotCommutes(a: seq<real>, b: seq<real>)
    requires |a| == |b|
    ensures Dot(a, b) == Dot(b, a)
  {
    if a != [] {
      DotCommutes(a[..|a| - 1], b[..|b| - 1]);
    }
  }

  lemma CosineSymmetric(a: seq<real>, b: seq<real>, sqrt: real -> real)
    ensures Cosine(a, b, sqrt) == Cosine(b, a, sqrt)
  {
    if |a| == |b| {
      DotCommutes(a, b);
      hide Dot;
      assert Times(sqrt(Dot(a, a)), sqrt(Dot(b, b))) == Times(sqrt(Dot(b, b)), sqrt(Dot(a, a)));
    }
  }

  lemma WholeRatio(n: real)
    requires n != 0.0
    ensures Ratio(n, n) == 1.0
  {
    assert 1.0 * n == n;
    assert (1.0 * n) / n == 1.0;
  }

  /** A vector is most similar to itself, unless it is all zeros. */
  lemma CosineOfItself(a: seq<real>, sqrt: real -> real)
    requires SquareRoot(sqrt)
    ensures Cosine(a, a, sqrt) == if AllZeros(a) then 0.0 else 1.0
  {
    hide Dot, Times, SquareRoot, Ratio, AllZeros;
    ZeroNorm(a);
    NotNegative(a);
    if Dot(a, a) != 0.0 {
      RootTimes(Dot(a, a), sqrt);
      WholeRatio(Dot(a, a));
    }
  }

  lemma RootTimes(x: real, sqrt: real -> real)
    requires SquareRoot(sqrt) && x >= 0.0
    ensures Times(sqrt(x), sqrt(x)) == x
  {
  }

  function Scaled(k: real, a: seq<real>): (s: seq<real>)
    ensures |s| == |a|
  {
    seq(|a|, i requires 0 <= i < |a| => k * a[i])
  }

  lemma ScaledPrefix(k: real, a: seq<real>, n: nat)
    requires n <= |a|
    ensures Scaled(k, a)[..n] == Scaled(k, a[..n])
  {
    forall i | 0 <= i < n
      ensures Scaled(k, a)[..n][i] == Scaled(k, a[..n])[i]
    {
      assert a[..n][i] == a[i];
    }
  }

  lemma {:induction false} DotScaled(k: real, a: seq<real>, b: seq<real>)
    requires |a| == |b|
    ensures Dot(Scaled(k, a), b) == k * Dot(a, b)
  {
    if a != [] {
      var n := |a| - 1;
      DotScaled(k, a[..n], b[..n]);
      ScaledPrefix(k, a, n);
      assert (k * a[n]) * b[n] == k * (a[n] * b[n]);
    }
  }

  lemma NormScaled(k: real, a: seq<real>, sqrt: real -> real)
    requires SquareRoot(sqrt) && k > 0.0
    ensures sqrt(Dot(Scaled(k, a), Scaled(k, a))) == k * sqrt(Dot(a, a))
    ensures Dot(Scaled(k, a), Scaled(k, a)) == 0.0 <==> Dot(a, a) == 0.0
  {
    DotScaled(k, a, Scaled(k, a));
    DotCommutes(a, Scaled(k, a));
    DotScaled(k, a, a);
    NotNegative(a);
    hide Dot, Scaled;
    RootScaled(k, Dot(a, a), Dot(a, Scaled(k, a)), Dot(Scaled(k, a), Scaled(k, a)), sqrt);
  }

  lemma RootScaled(k: real, n: real, m: real, l: real, sqrt: real -> real)
    requires SquareRoot(sqrt) && k > 0.0 && n >= 0.0 && m == k * n && l == k * m
    ensures sqrt(l) == k * sqrt(n)
    ensures l == 0.0 <==> n == 0.0
  {
    ProductNotNegative(k, n);
    ProductNotNegative(k, m);
    if n > 0.0 {
      ProductPositive(k, n);
      ProductPositive(k, m);
    } else {
      assert m == k * 0.0 && l == k * 0.0;
    }
    var x, y, r := sqrt(l), k * sqrt(n), sqrt(n);
    ProductNotNegative(k, r);
    Rearranged(k, r);
    assert y * y == (k * k) * n == k * (k * n);
    assert x * x == l;
    SmallerSquare(x, y);
    SmallerSquare(y, x);
  }

  lemma ScaledParts(k: real, a: seq<real>, b: seq<real>, sqrt: real -> real)
    requires |a| == |b| && SquareRoot(sqrt) && k > 0.0
    ensures Dot(Scaled(k, a), b) == Times(k, Dot(a, b))
    ensures sqrt(Dot(Scaled(k, a), Scaled(k, a))) == Times(k, sqrt(Dot(a, a)))
    ensures Dot(Scaled(k, a), Scaled(k, a)) == 0.0 <==> Dot(a, a) == 0.0
  {
    hide Dot, Scaled, SquareRoot;
    NormScaled(k, a, sqrt);
    DotScaled(k, a, b);
  }

  /** Only the direction counts: positive scaling changes nothing. */
  lemma CosineOfScaled(k: real, a: seq<real>, b: seq<real>, sqrt: real -> real)
    requires SquareRoot(sqrt) && k > 0.0
    ensures Cosine(Scaled(k, a), b, sqrt) == Cosine(a, b, sqrt)
  {
    hide Dot, Scaled, Ratio, Times, SquareRoot;
    if |a| == |b| {
      ScaledParts(k, a, b, sqrt);
      if Dot(a, a) != 0.0 && Dot(b, b) != 0.0 {
        NormsAreApart(a, b, sqrt);
        CancelScale(k, Dot(a, b), sqrt(Dot(a, a)), sqrt(Dot(b, b)));
      }
    }
  }

  lemma NormsAreApart(a: seq<real>, b: seq<real>, sqrt: real -> real)
    requires SquareRoot(sqrt) && Dot(a, a) != 0.0 && Dot(b, b) != 0.0
    ensures Times(sqrt(Dot(a, a)), sqrt(Dot(b, b))) > 0.0
  {
    NormsArePositive(a, b, sqrt);
    hide Dot, SquareRoot;
  }

  lemma CancelScale(k: real, d: real, x: real, y: real)
    requires k > 0.0 && Times(x, y) > 0.0
    ensures Ratio(Times(k, d), Times(Times(k, x), y)) == Ratio(d, Times(x, y))
  {
    var n := x * y;
    assert (k * x) * y == k * n;
    ProductPositive(k, n);
    Cancel(k, d, n);
  }

  lemma Cancel(k: real, d: real, n: real)
    requires k > 0.0 && n > 0.0 && k * n > 0.0
    ensures Ratio(k * d, k * n) == Ratio(d, n)
  {
    var q := d / n;
    assert d == q * n;
    assert k * (q * n) == q * (k * n);
    assert (q * (k * n)) / (k * n) == q;
  }

  // ----- storing -----

  newtype Byte = x: int | 0 <= x < 256

  newtype Word = x: int | 0 <= x < 0x1_0000_0000

  /** A 32-bit pattern, least significant byte first. */
  function LittleEndian(w: Word): (b: seq<Byte>)
    ensures |b| == 4
  {
    var w1 := w / 256;
    var w2 := w1 / 256;
    [(w % 256) as Byte, (w1 % 256) as Byte, (w2 % 256) as Byte, (w2 / 256) as Byte]
  }

  function FromLittleEndian(b: seq<Byte>): Word
    requires |b| == 4
  {
    b[0] as Word + 256 * (b[1] as Word + 256 * (b[2] as Word + 256 * b[3] as Word))
  }

  lemma FirstDigit(n: int, d: int, rest: int)
    requires n == d + 256 * rest && 0 <= d < 256
    ensures n % 256 == d && n / 256 == rest
  {
  }

  lemma WordRoundTrip(w: Word)
    ensures FromLittleEndian(LittleEndian(w)) == w
  {
  }

  lemma LittleEndianRoundTrip(b: seq<Byte>)
    requires |b| == 4
    ensures LittleEndian(FromLittleEndian(b)) == b
  {
    var b0, b1, b2, b3 := b[0] as int, b[1] as int, b[2] as int, b[3] as int;
    var w := FromLittleEndian(b);
    FirstDigit(w as int, b0, b1 + 256 * (b2 + 256 * b3));
    FirstDigit(b1 + 256 * (b2 + 256 * b3), b1, b2 + 256 * b3);
    FirstDigit(b2 + 256 * b3, b2, b3);
  }

  function Packed(v: seq<Word>): (b: seq<Byte>)
    ensures |b| == 4 * |v|
  {
    if v == [] then [] else Packed(v[..|v| - 1]) + LittleEndian(v[|v| - 1])
  }

  /** Whole words; what is left over at the end is dropped. */
  function BytesToVec(b: seq<Byte>): (v: seq<Word>)
    ensures |v| == |b| / 4
  {
    if |b| < 4 then [] else [FromLittleEndian(b[..4])] + BytesToVec(b[4..])
  }

  method VecToBytes(v: seq<Word>) returns (out: seq<Byte>)
    ensures out == Packed(v)
  {
    out := [];
    for i := 0 to |v|
      invariant out == Packed(v[..i])
    {
      assert v[..i + 1][..i] == v[..i];
      out := out + LittleEndian(v[i]);
    }
    assert v[..|v|] == v;
  }

  lemma {:induction false} WordAt(b: seq<Byte>, k: nat)
    requires k < |b| / 4
    ensures BytesToVec(b)[k] == FromLittleEndian(b[4 * k..4 * k + 4])
  {
    if k > 0 {
      WordAt(b[4..], k - 1);
      assert b[4..][4 * (k - 1)..4 * (k - 1) + 4] == b[4 * k..4 * k + 4];
    }
  }

  lemma {:induction false} PackedAt(v: seq<Word>, k: nat)
    requires k < |v|
    ensures Packed(v)[4 * k..4 * k + 4] == LittleEndian(v[k])
  {
    var n := |v| - 1;
    if k < n {
      PackedAt(v[..n], k);
      assert Packed(v)[4 * k..4 * k + 4] == Packed(v[..n])[4 * k..4 * k + 4];
    }
  }

  /** A stored vector comes back bit for bit, whatever up to three stray bytes follow it. */
  lemma StoredVectorComesBack(v: seq<Word>, stray: seq<Byte>)
    requires |stray| < 4
    ensures BytesToVec(Packed(v) + stray) == v
  {
    hide Packed, BytesToVec, LittleEndian, FromLittleEndian;
    var b := Packed(v) + stray;
    forall k | 0 <= k < |v|
      ensures BytesToVec(b)[k] == v[k]
    {
      WordAt(b, k);
      PackedAt(v, k);
      assert b[4 * k..4 * k + 4] == Packed(v)[4 * k..4 * k + 4];
      WordRoundTrip(v[k]);
    }
  }

  lemma WordComesBack(b: seq<Byte>, k: nat)
    requires k < |b| / 4
    ensures Packed(BytesToVec(b))[4 * k..4 * k + 4] == b[4 * k..4 * k + 4]
  {
    var v := BytesToVec(b);
    hide Packed, BytesToVec, LittleEndian, FromLittleEndian;
    WordAt(b, k);
    PackedAt(v, k);
    LittleEndianRoundTrip(b[4 * k..4 * k + 4]);
  }

  lemma SameWords(p: seq<Byte>, q: seq<Byte>, n: nat)
    requires |p| == |q| == 4 * n && forall k: nat :: k < n ==> p[4 * k..4 * k + 4] == q[4 * k..4 * k + 4]
    ensures p == q
  {
    forall i | 0 <= i < |p|
      ensures p[i] == q[i]
    {
      var k, j := i / 4, i % 4;
      assert p[4 * k..4 * k + 4] == q[4 * k..4 * k + 4];
      assert p[4 * k..4 * k + 4][j] == p[i] && q[4 * k..4 * k + 4][j] == q[i];
    }
  }

  /** ...and a stored row holds nothing else: reading and packing again gives its whole words. */
  lemma StoredBytesComeBack(b: seq<Byte>)
    ensures Packed(BytesToVec(b)) == b[..|b| / 4 * 4]
  {
    hide Packed, BytesToVec;
    var p, q, n := Packed(BytesToVec(b)), b[..|b| / 4 * 4], |b| / 4;
    forall k: nat | k < n
      ensures p[4 * k..4 * k + 4] == q[4 * k..4 * k + 4]
    {
      WordInside(b, p, n, k);
    }
    SameWords(p, q, n);
  }

  lemma SliceOfPrefix(b: seq<Byte>, m: nat, i: nat, j: nat)
    requires i <= j <= m <= |b|
    ensures b[..m][i..j] == b[i..j]
  {
  }

  lemma WordInside(b: seq<Byte>, p: seq<Byte>, n: nat, k: nat)
    requires p == Packed(BytesToVec(b)) && |p| == 4 * n && n == |b| / 4 && k < n
    ensures p[4 * k..4 * k + 4] == b[..4 * n][4 * k..4 * k + 4]
  {
    hide Packed, BytesToVec;
    WordComesBack(b, k);
    SliceOfPrefix(b, 4 * n, 4 * k, 4 * k + 4);
  }
}
