/** What the rotary position encoding means, for functions that are those of the circle. */
module RotaryLaws {
  import opened Arithmetic
  import opened TransformerMath

  /** The circle and the addition formulas. */
  ghost predicate Trigonometric(f: Maths) {
    && (forall a :: Times(f.cos(a), f.cos(a)) + Times(f.sin(a), f.sin(a)) == 1.0)
    && (forall a, b :: CosOfSum(f, a, b) && SinOfSum(f, a, b))
  }

  ghost predicate CosOfSum(f: Maths, a: real, b: real) {
    f.cos(a + b) == Times(f.cos(a), f.cos(b)) - Times(f.sin(a), f.sin(b))
  }

  ghost predicate SinOfSum(f: Maths, a: real, b: real) {
    f.sin(a + b) == Times(f.sin(a), f.cos(b)) + Times(f.cos(a), f.sin(b))
  }

  /** No rotation at angle zero. */
  lemma AtZero(f: Maths)
    requires Trigonometric(f)
    ensures f.cos(0.0) == 1.0 && f.sin(0.0) == 0.0
  {
    var c, s := f.cos(0.0), f.sin(0.0);
    assert Times(c, c) + Times(s, s) == 1.0;
    assert CosOfSum(f, 0.0, 0.0) && SinOfSum(f, 0.0, 0.0);
    ZeroOfCircle(c, s);
  }

  lemma ZeroOfCircle(c: real, s: real)
    requires c * c + s * s == 1.0 && c == c * c - s * s && s == s * c + c * s
    ensures c == 1.0 && s == 0.0
  {
    assert s * (1.0 - 2.0 * c) == 0.0;
    assert s != 0.0 ==> c == 0.5 && s * s == -0.25;
  }

  /** Turning back. */
  lemma Opposite(f: Maths, a: real)
    requires Trigonometric(f)
    ensures f.cos(-a) == f.cos(a) && f.sin(-a) == -f.sin(a)
  {
    AtZero(f);
    assert CosOfSum(f, a, -a) && SinOfSum(f, a, -a);
    assert a + -a == 0.0;
    assert Times(f.cos(a), f.cos(a)) + Times(f.sin(a), f.sin(a)) == 1.0;
    OppositeOnCircle(f.cos(a), f.sin(a), f.cos(-a), f.sin(-a));
  }

  lemma OppositeOnCircle(c: real, s: real, c': real, s': real)
    requires c * c + s * s == 1.0 && c * c' - s * s' == 1.0 && s * c' + c * s' == 0.0
    ensures c' == c && s' == -s
  {
    assert c * (c * c' - s * s') + s * (s * c' + c * s') == (c * c + s * s) * c';
    assert c * (s * c' + c * s') - s * (c * c' - s * s') == (c * c + s * s) * s';
  }

  /** The formulas for a difference. */
  lemma Difference(f: Maths, a: real, b: real)
    requires Trigonometric(f)
    ensures f.cos(a - b) == f.cos(a) * f.cos(b) + f.sin(a) * f.sin(b)
    ensures f.sin(a - b) == f.sin(a) * f.cos(b) - f.cos(a) * f.sin(b)
  {
    Opposite(f, b);
    assert CosOfSum(f, a, -b) && SinOfSum(f, a, -b);
    assert a + -b == a - b;
  }

  // ---------------------------------------------------------------------------------------------
  // One pair
  // ---------------------------------------------------------------------------------------------

  /** What a pair turned by a and a pair turned by b have in common depends on a - b. */
  lemma PairsAreRelative(f: Maths, x: real, y: real, x': real, y': real, a: real, b: real)
    requires Trigonometric(f)
    ensures Times(TurnedX(f, x, y, a), TurnedX(f, x', y', b)) + Times(TurnedY(f, x, y, a), TurnedY(f, x', y', b))
         == Relative(f, x, y, x', y', a - b)
  {
    Difference(f, a, b);
    Products(x, y, f.cos(a), f.sin(a), x', y', f.cos(b), f.sin(b));
  }

  function Relative(f: Maths, x: real, y: real, x': real, y': real, angle: real): real {
    (x * x' + y * y') * f.cos(angle) + (x * y' - y * x') * f.sin(angle)
  }

  lemma Products(x: real, y: real, c: real, s: real, x': real, y': real, c': real, s': real)
    ensures (x * c - y * s) * (x' * c' - y' * s') + (x * s + y * c) * (x' * s' + y' * c')
         == (x * x' + y * y') * (c * c' + s * s') + (x * y' - y * x') * (s * c' - c * s')
  {
    Expand(x, c, y, s, x', c', y', s');
    Expand(x, s, -y, c, x', s', -y', c');
    Expand(x, x', -y, y', c, c', -s, s');
    Expand(x, y', y, x', s, c', c, s');
  }

  lemma Expand(a: real, b: real, c: real, d: real, a': real, b': real, c': real, d': real)
    ensures (a * b - c * d) * (a' * b' - c' * d')
         == a * b * (a' * b') - a * b * (c' * d') - c * d * (a' * b') + c * d * (c' * d')
  {
  }

  // ---------------------------------------------------------------------------------------------
  // Angles
  // ---------------------------------------------------------------------------------------------

  /** The base can be raised to any power and divided by. */
  ghost predicate Powers(f: Maths, base: real) {
    forall x :: f.pow(base, x) > 0.0
  }

  ghost predicate Rotary(f: Maths, base: real) {
    Genuine(f) && Trigonometric(f) && Powers(f, base)
  }

  /** How fast pair i turns. */
  function Frequency(f: Maths, i: nat, headDim: nat, base: real): real
    requires headDim > 0 && f.pow(base, (2 * i) as real / headDim as real) > 0.0
  {
    1.0 / f.pow(base, (2 * i) as real / headDim as real)
  }

  /** How far pair i turns over a distance. */
  function Turn(f: Maths, i: nat, headDim: nat, distance: int, base: real): real
    requires headDim > 0 && f.pow(base, (2 * i) as real / headDim as real) > 0.0
  {
    distance as real * Frequency(f, i, headDim, base)
  }

  /** Angles at two positions are as far apart as the positions, times the frequency. */
  lemma AnglesApart(f: Maths, i: nat, headDim: nat, p: nat, p': nat, base: real)
    requires headDim > 0 && Genuine(f) && Powers(f, base)
    ensures Angle(f, i, headDim, p, base) == Turn(f, i, headDim, p, base)
    ensures Angle(f, i, headDim, p, base) - Angle(f, i, headDim, p', base) == Turn(f, i, headDim, p - p', base)
  {
    var w := Frequency(f, i, headDim, base);
    assert f.div(1.0, f.pow(base, (2 * i) as real / headDim as real)) == w;
    assert (p - p') as real == p as real - p' as real;
    assert (p as real - p' as real) * w == p as real * w - p' as real * w;
  }

  // ---------------------------------------------------------------------------------------------
  // One head
  // ---------------------------------------------------------------------------------------------

  /** The first n pairs of two heads compared at a distance. */
  ghost function RelativeDot(f: Maths, q: Vec, k: Vec, distance: int, base: real, n: nat): real
    requires |q| == |k| && |q| % 2 == 0 && n <= |q| / 2 && Powers(f, base)
  {
    if n == 0 then 0.0
    else
      var i, half := n - 1, |q| / 2;
      RelativeDot(f, q, k, distance, base, i)
        + Relative(f, q[i], q[i + half], k[i], k[i + half], Turn(f, i, |q|, distance, base))
  }

  lemma {:induction false} DotSplit(a: Vec, b: Vec, m: nat, n: nat)
    requires m + n <= |a| == |b|
    ensures Dot(a, 0, b, 0, m + n) == Dot(a, 0, b, 0, m) + Dot(a, m, b, m, n)
  {
    if n > 0 {
      DotSplit(a, b, m, n - 1);
    }
  }

  lemma RotatedPair(f: Maths, v: Vec, i: nat, pos: nat, base: real)
    requires |v| % 2 == 0 && i < |v| / 2
    ensures var y, half, a := RotateHead(f, v, pos, base), |v| / 2, Angle(f, i, |v|, pos, base);
      y[i] == TurnedX(f, v[i], v[i + half], a) && y[i + half] == TurnedY(f, v[i], v[i + half], a)
  {
    hide TurnedX, TurnedY, Angle;
  }

  /** One pair of two rotated heads. */
  lemma PairDot(f: Maths, q: Vec, k: Vec, p: nat, p': nat, base: real, i: nat)
    requires Rotary(f, base) && |q| == |k| && |q| % 2 == 0 && i < |q| / 2
    ensures var y, z, half := RotateHead(f, q, p, base), RotateHead(f, k, p', base), |q| / 2;
      Times(y[i], z[i]) + Times(y[i + half], z[i + half])
        == Relative(f, q[i], q[i + half], k[i], k[i + half], Turn(f, i, |q|, p - p', base))
  {
    hide Genuine, Trigonometric, TurnedX, TurnedY, Relative, Angle, Turn, RotateHead, Times;
    RotatedPair(f, q, i, p, base);
    RotatedPair(f, k, i, p', base);
    AnglesApart(f, i, |q|, p, p', base);
    var half, a, b := |q| / 2, Angle(f, i, |q|, p, base), Angle(f, i, |q|, p', base);
    PairsAreRelative(f, q[i], q[i + half], k[i], k[i + half], a, b);
  }

  /** The dot product of two heads, pair by pair. */
  function PairSum(y: Vec, z: Vec, half: nat, n: nat): real
    requires n <= half && |y| == |z| == half + half
  {
    if n == 0 then 0.0
    else PairSum(y, z, half, n - 1) + (Times(y[n - 1], z[n - 1]) + Times(y[n - 1 + half], z[n - 1 + half]))
  }

  lemma {:induction false} DotIsPairs(y: Vec, z: Vec, half: nat, n: nat)
    requires n <= half && |y| == |z| == half + half
    ensures Dot(y, 0, z, 0, n) + Dot(y, half, z, half, n) == PairSum(y, z, half, n)
  {
    if n > 0 {
      DotIsPairs(y, z, half, n - 1);
    }
  }

  lemma {:induction false} PairsAreRelativeDot(f: Maths, q: Vec, k: Vec, p: nat, p': nat, base: real, n: nat)
    requires Rotary(f, base) && |q| == |k| && |q| % 2 == 0 && n <= |q| / 2
    ensures PairSum(RotateHead(f, q, p, base), RotateHead(f, k, p', base), |q| / 2, n)
         == RelativeDot(f, q, k, p - p', base, n)
  {
    hide Genuine, Trigonometric, Relative, Turn, RotateHead, Times;
    if n > 0 {
      PairsAreRelativeDot(f, q, k, p, p', base, n - 1);
      PairDot(f, q, k, p, p', base, n - 1);
    }
  }

  /** The dot product of a head turned at p and one turned at p' depends on the distance alone. */
  lemma RotatedDot(f: Maths, q: Vec, k: Vec, p: nat, p': nat, base: real)
    requires Rotary(f, base) && |q| == |k| && |q| % 2 == 0
    ensures Dot(RotateHead(f, q, p, base), 0, RotateHead(f, k, p', base), 0, |q|)
         == RelativeDot(f, q, k, p - p', base, |q| / 2)
  {
    hide RotateHead, RelativeDot, Dot, PairSum;
    PairsAreRelativeDot(f, q, k, p, p', base, |q| / 2);
    WholeDot(RotateHead(f, q, p, base), RotateHead(f, k, p', base), |q| / 2);
  }

  lemma WholeDot(y: Vec, z: Vec, half: nat)
    requires |y| == |z| == half + half
    ensures Dot(y, 0, z, 0, half + half) == PairSum(y, z, half, half)
  {
    DotSplit(y, z, half, half);
    DotIsPairs(y, z, half, half);
  }

  /** At position 0 nothing turns. */
  lemma StartIsUnturned(f: Maths, v: Vec, base: real)
    requires Rotary(f, base) && |v| % 2 == 0
    ensures RotateHead(f, v, 0, base) == v
  {
    AtZero(f);
    forall d: nat | d < |v| ensures Rotated(f, v, d, 0, base) == v[d] {
      AnglesApart(f, d % (|v| / 2), |v|, 0, 0, base);
    }
  }

  /** Turning keeps the sum of squares. */
  lemma RotationKeepsLength(f: Maths, v: Vec, pos: nat, base: real)
    requires Rotary(f, base) && |v| % 2 == 0
    ensures var y := RotateHead(f, v, pos, base);
      Dot(y, 0, y, 0, |v|) == Dot(v, 0, v, 0, |v|)
  {
    hide RotateHead, Rotary;
    RotatedDot(f, v, v, pos, pos, base);
    RotatedDot(f, v, v, 0, 0, base);
    StartIsUnturned(f, v, base);
  }

  /** The first axis of pair i, (1, 0), goes to (cos a, sin a), and the second, (0, 1), to (-sin a, cos a). */
  lemma AxesTurn(f: Maths, v: Vec, i: nat, pos: nat, base: real)
    requires Rotary(f, base) && |v| % 2 == 0 && i < |v| / 2
    ensures var y, half := RotateHead(f, v, pos, base), |v| / 2;
      var a := pos as real / f.pow(base, (2 * i) as real / |v| as real);
      && (v[i] == 1.0 && v[i + half] == 0.0 ==> y[i] == f.cos(a) && y[i + half] == f.sin(a))
      && (v[i] == 0.0 && v[i + half] == 1.0 ==> y[i] == -f.sin(a) && y[i + half] == f.cos(a))
  {
    RotatedPair(f, v, i, pos, base);
    hide Genuine, Trigonometric, Angle, RotateHead, Powers;
    AnglesApart(f, i, |v|, pos, 0, base);
    Reciprocal(pos as real, f.pow(base, (2 * i) as real / |v| as real));
    var x, y, a := v[i], v[i + |v| / 2], Angle(f, i, |v|, pos, base);
    assert a == pos as real / f.pow(base, (2 * i) as real / |v| as real);
    assert x == 1.0 && y == 0.0 ==> TurnedX(f, x, y, a) == f.cos(a) && TurnedY(f, x, y, a) == f.sin(a);
    assert x == 0.0 && y == 1.0 ==> TurnedX(f, x, y, a) == -f.sin(a) && TurnedY(f, x, y, a) == f.cos(a);
    hide TurnedX, TurnedY;
  }

  lemma Reciprocal(x: real, y: real)
    requires y != 0.0
    ensures x * (1.0 / y) == x / y
  {
  }

  // ---------------------------------------------------------------------------------------------
  // All heads
  // ---------------------------------------------------------------------------------------------

  /** Every head turns on its own. */
  lemma {:induction false} HeadTurns(f: Maths, v: Vec, h: nat, heads: nat, headDim: nat, pos: nat, base: real)
    requires h < heads && |v| == heads * headDim && headDim % 2 == 0
    ensures Head(Rope(f, v, heads, headDim, pos, base), h, heads, headDim)
         == RotateHead(f, Head(v, h, heads, headDim), pos, base)
  {
    hide RotateHead;
    RowFits(h, heads, headDim);
    RowFits(heads - 1, heads, headDim);
    var cut := (heads - 1) * headDim;
    if h < heads - 1 {
      HeadTurns(f, v[..cut], h, heads - 1, headDim, pos, base);
      RowFits(h, heads - 1, headDim);
      assert v[..cut][h * headDim..h * headDim + headDim] == v[h * headDim..h * headDim + headDim];
    } else {
      assert v[cut..] == v[cut..cut + headDim];
    }
  }

  /** At position 0 no head turns. */
  lemma {:induction false} RopeAtStart(f: Maths, v: Vec, heads: nat, headDim: nat, base: real)
    requires Rotary(f, base) && |v| == heads * headDim
    ensures Rope(f, v, heads, headDim, 0, base) == v
  {
    hide RotateHead, Rotary;
    if headDim % 2 == 0 && heads > 0 {
      RowFits(heads - 1, heads, headDim);
      var cut := (heads - 1) * headDim;
      RopeAtStart(f, v[..cut], heads - 1, headDim, base);
      StartIsUnturned(f, v[cut..], base);
    }
  }

  /** What attention compares, a query head at p and a key head at p', it compares at their distance. */
  lemma ScoresAreRelative(f: Maths, q: Vec, heads: nat, h: nat, k: Vec, kvHeads: nat, g: nat, headDim: nat,
                          p: nat, p': nat, base: real)
    requires Rotary(f, base) && headDim % 2 == 0
    requires h < heads && |q| == heads * headDim && g < kvHeads && |k| == kvHeads * headDim
    ensures h * headDim + headDim <= |q|
    ensures Dot(Rope(f, q, heads, headDim, p, base), h * headDim,
                Head(Rope(f, k, kvHeads, headDim, p', base), g, kvHeads, headDim), 0, headDim)
         == RelativeDot(f, Head(q, h, heads, headDim), Head(k, g, kvHeads, headDim), p - p', base, headDim / 2)
  {
    var row := Head(Rope(f, k, kvHeads, headDim, p', base), g, kvHeads, headDim);
    HeadDot(Rope(f, q, heads, headDim, p, base), h, heads, headDim, row);
    hide Rope, RotateHead, Rotary, RelativeDot, Dot, Head;
    HeadTurns(f, q, h, heads, headDim, p, base);
    HeadTurns(f, k, g, kvHeads, headDim, p', base);
    RotatedDot(f, Head(q, h, heads, headDim), Head(k, g, kvHeads, headDim), p, p', base);
  }

  /** A dot product with a head, read where the head stands. */
  lemma HeadDot(v: Vec, h: nat, heads: nat, headDim: nat, row: Vec)
    requires h < heads && |v| == heads * headDim && |row| == headDim
    ensures h * headDim + headDim <= |v|
    ensures Dot(v, h * headDim, row, 0, headDim) == Dot(Head(v, h, heads, headDim), 0, row, 0, headDim)
  {
    hide Dot;
    RowFits(h, heads, headDim);
    DotFrom(v, h * headDim, row, headDim);
  }

  lemma {:induction false} DotFrom(a: Vec, at: nat, b: Vec, n: nat)
    requires at + n <= |a| && n <= |b|
    ensures Dot(a, at, b, 0, n) == Dot(a[at..at + n], 0, b, 0, n)
  {
    if n > 0 {
      DotFrom(a, at, b, n - 1);
      DotPrefix(a[at..at + n], b, n - 1);
      assert a[at..at + n][..n - 1] == a[at..at + n - 1];
    }
  }

  lemma {:induction false} DotPrefix(a: Vec, b: Vec, n: nat)
    requires n <= |a| && n <= |b|
    ensures Dot(a, 0, b, 0, n) == Dot(a[..n], 0, b, 0, n)
    decreases n
  {
    if n > 0 {
      DotPrefix(a, b, n - 1);
      DotPrefix(a[..n], b, n - 1);
      assert a[..n][..n - 1] == a[..n - 1];
    }
  }
}
