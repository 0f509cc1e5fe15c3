/** The scalar operators, in place over buffers, against the functions of TransformerMath. */
module HydroXLOps {
  import opened Arithmetic
  import opened TransformerMath

  // ---------------------------------------------------------------------------------------------
  // Matrix-vector product
  // ---------------------------------------------------------------------------------------------

  lemma DotFour(a: Vec, i: nat, b: Vec, n: nat)
    requires i + n + 4 <= |a| && n + 4 <= |b|
    ensures Dot(a, i, b, 0, n + 4) == Dot(a, i, b, 0, n)
      + a[i + n] * b[n] + a[i + n + 1] * b[n + 1] + a[i + n + 2] * b[n + 2] + a[i + n + 3] * b[n + 3]
  {
    assert Dot(a, i, b, 0, n + 3) == Dot(a, i, b, 0, n + 2) + a[i + n + 2] * b[n + 2];
    assert Dot(a, i, b, 0, n + 2) == Dot(a, i, b, 0, n + 1) + a[i + n + 1] * b[n + 1];
  }

  /** One row, four products at a time and then the rest. */
  method RowProduct(a: Vec, row: nat, x: array<real>) returns (acc: real)
    requires row + x.Length <= |a|
    ensures acc == Dot(a, row, x[..], 0, x.Length)
  {
    var acc0, acc1, acc2, acc3 := 0.0, 0.0, 0.0, 0.0;
    var k := 0;
    while k + 4 <= x.Length
      invariant 0 <= k <= x.Length
      invariant acc0 + acc1 + acc2 + acc3 == Dot(a, row, x[..], 0, k)
    {
      DotFour(a, row, x[..], k);
      acc0 := acc0 + a[row + k] * x[k];
      acc1 := acc1 + a[row + k + 1] * x[k + 1];
      acc2 := acc2 + a[row + k + 2] * x[k + 2];
      acc3 := acc3 + a[row + k + 3] * x[k + 3];
      k := k + 4;
    }
    acc := (acc0 + acc1) + (acc2 + acc3);
    while k < x.Length
      invariant 0 <= k <= x.Length
      invariant acc == Dot(a, row, x[..], 0, k)
    {
      acc := acc + a[row + k] * x[k];
      k := k + 1;
    }
  }

  method MatVecInto(a: Vec, x: array<real>, out: array<real>) returns (ok: bool)
    requires |a| == out.Length * x.Length && x != out
    modifies out
    ensures ok <==> out.Length != 0 && x.Length != 0
    ensures out[..] == if ok then MatVec(a, x[..], out.Length) else old(out[..])
  {
    if out.Length == 0 || x.Length == 0 {
      return false;
    }
    ghost var xs := x[..];
    var m := 0;
    while m < out.Length
      invariant 0 <= m <= out.Length && x[..] == xs
      invariant forall j {:trigger out[j]} :: 0 <= j < m ==> out[j] == RowDot(a, xs, j, out.Length)
    {
      hide Dot;
      RowFits(m, out.Length, x.Length);
      out[m] := RowProduct(a, m * x.Length, x);
      m := m + 1;
    }
    return true;
  }

  // ---------------------------------------------------------------------------------------------
  // Embedding, normalisation, residual, activation
  // ---------------------------------------------------------------------------------------------

  method EmbedLookup(table: Vec, token: nat, vocab: nat, dst: array<real>) returns (ok: bool)
    requires |table| == vocab * dst.Length
    modifies dst
    ensures ok <==> dst.Length != 0 && token < vocab
    ensures ok ==> (token * dst.Length + dst.Length <= |table|
                    && dst[..] == table[token * dst.Length..token * dst.Length + dst.Length])
    ensures !ok ==> dst[..] == old(dst[..])
  {
    if dst.Length == 0 || token >= vocab {
      return false;
    }
    RowFits(token, vocab, dst.Length);
    var src := token * dst.Length;
    forall i | 0 <= i < dst.Length {
      dst[i] := table[src + i];
    }
    return true;
  }

  lemma NormedAt(f: Maths, x: Vec, weight: Vec, eps: real, i: nat)
    requires i < |x| == |weight|
    ensures RmsNorm(f, x, weight, eps)[i] == x[i] * InverseRms(f, x, eps) * weight[i]
  {
    hide InverseRms;
  }

  method RmsNormInto(f: Maths, x: array<real>, weight: Vec, out: array<real>, eps: real) returns (ok: bool)
    requires |weight| == x.Length == out.Length && x != out
    modifies out
    ensures ok <==> x.Length != 0
    ensures ok ==> out[..] == RmsNorm(f, x[..], weight, eps)
  {
    if x.Length == 0 {
      return false;
    }
    ghost var xs := x[..];
    var sum := 0.0;
    var i := 0;
    while i < x.Length
      invariant 0 <= i <= x.Length && sum == Dot(xs, 0, xs, 0, i)
    {
      sum := sum + x[i] * x[i];
      i := i + 1;
    }
    var inv := f.div(1.0, f.sqrt(sum / x.Length as real + eps));
    ghost var normed := RmsNorm(f, xs, weight, eps);
    hide Dot, InverseRms, RmsNorm;
    i := 0;
    while i < x.Length
      invariant 0 <= i <= x.Length && x[..] == xs
      invariant forall j :: 0 <= j < i ==> out[j] == normed[j]
    {
      NormedAt(f, xs, weight, eps, i);
      out[i] := x[i] * inv * weight[i];
      i := i + 1;
    }
    return true;
  }

  method ResidualAdd(a: array<real>, b: array<real>)
    requires a.Length == b.Length && a != b
    modifies a
    ensures a[..] == Add(old(a[..]), b[..])
  {
    var i := 0;
    while i < a.Length
      invariant 0 <= i <= a.Length
      invariant forall j :: 0 <= j < i ==> a[j] == old(a[j]) + b[j]
      invariant forall j :: i <= j < a.Length ==> a[j] == old(a[j])
    {
      a[i] := a[i] + b[i];
      i := i + 1;
    }
  }

  method AddBiasInto(a: array<real>, bias: Vec)
    requires bias == [] || |bias| == a.Length
    modifies a
    ensures a[..] == AddBias(old(a[..]), bias)
  {
    if bias != [] {
      var i := 0;
      while i < a.Length
        invariant 0 <= i <= a.Length
        invariant forall j :: 0 <= j < i ==> a[j] == old(a[j]) + bias[j]
        invariant forall j :: i <= j < a.Length ==> a[j] == old(a[j])
      {
        a[i] := a[i] + bias[i];
        i := i + 1;
      }
    }
  }

  method SwigluInto(f: Maths, gate: array<real>, up: array<real>, out: array<real>)
    requires gate.Length == up.Length == out.Length && out != gate && out != up
    modifies out
    ensures out[..] == Swiglu(f, gate[..], up[..])
  {
    ghost var all := Swiglu(f, gate[..], up[..]);
    var i := 0;
    while i < out.Length
      invariant 0 <= i <= out.Length
      invariant forall j :: 0 <= j < i ==> out[j] == all[j]
    {
      assert all[i] == Silu(f, gate[i]) * up[i];
      var g := gate[i];
      var activated := f.div(g, 1.0 + f.exp(-g));
      out[i] := activated * up[i];
      i := i + 1;
    }
  }

  // ---------------------------------------------------------------------------------------------
  // Rotary position encoding, in place
  // ---------------------------------------------------------------------------------------------

  /** A head with its first i pairs rotated. */
  function Turning(f: Maths, head: Vec, i: nat, pos: nat, base: real): (y: Vec)
    requires |head| % 2 == 0 && i <= |head| / 2
    ensures |y| == |head|
  {
    var half := |head| / 2;
    seq(|head|, d requires 0 <= d < |head| && |head| % 2 == 0 =>
      if d < i || half <= d < half + i then Rotated(f, head, d, pos, base) else head[d])
  }

  lemma TurningEnds(f: Maths, head: Vec, pos: nat, base: real)
    requires |head| % 2 == 0
    ensures Turning(f, head, 0, pos, base) == head
    ensures Turning(f, head, |head| / 2, pos, base) == RotateHead(f, head, pos, base)
  {
    hide Rotated;
  }

  lemma TurningStep(f: Maths, head: Vec, i: nat, pos: nat, base: real)
    requires |head| % 2 == 0 && i < |head| / 2
    ensures var half, a, y := |head| / 2, Angle(f, i, |head|, pos, base), Turning(f, head, i, pos, base);
      && y[i] == head[i] && y[i + half] == head[i + half]
      && Turning(f, head, i + 1, pos, base)
           == y[i := TurnedX(f, head[i], head[i + half], a)][i + half := TurnedY(f, head[i], head[i + half], a)]
  {
    hide Angle, TurnedX, TurnedY;
  }

  /** Updating the middle of a sequence. */
  lemma UpdateMiddle(a: Vec, y: Vec, b: Vec, i: nat, x: real)
    requires i < |y|
    ensures (a + y + b)[|a| + i] == y[i]
    ensures (a + y + b)[|a| + i := x] == a + y[i := x] + b
  {
  }

  /** One pair turned, in the whole buffer. */
  lemma TurnStep(f: Maths, left: Vec, head: Vec, right: Vec, v: Vec, i: nat, pos: nat, base: real)
    requires |head| % 2 == 0 && i < |head| / 2 && v == left + Turning(f, head, i, pos, base) + right
    ensures var at, half, a := |left| + i, |head| / 2, Angle(f, i, |head|, pos, base);
      v[at := TurnedX(f, v[at], v[at + half], a)][at + half := TurnedY(f, v[at], v[at + half], a)]
        == left + Turning(f, head, i + 1, pos, base) + right
  {
    hide Turning, Angle, TurnedX, TurnedY;
    var half, a, y := |head| / 2, Angle(f, i, |head|, pos, base), Turning(f, head, i, pos, base);
    var x := TurnedX(f, head[i], head[i + half], a);
    TurningStep(f, head, i, pos, base);
    UpdateMiddle(left, y, right, i, x);
    UpdateMiddle(left, y, right, i + half, x);
    UpdateMiddle(left, y[i := x], right, i + half, TurnedY(f, head[i], head[i + half], a));
  }

  method TurnPair(f: Maths, v0: real, v1: real, i: nat, headDim: nat, pos: nat, base: real) returns (x: real, y: real)
    requires headDim > 0
    ensures x == TurnedX(f, v0, v1, Angle(f, i, headDim, pos, base))
    ensures y == TurnedY(f, v0, v1, Angle(f, i, headDim, pos, base))
  {
    var theta := f.div(1.0, f.pow(base, (2 * i) as real / headDim as real));
    var angle := pos as real * theta;
    assert angle == Angle(f, i, headDim, pos, base);
    x := v0 * f.cos(angle) - v1 * f.sin(angle);
    y := v0 * f.sin(angle) + v1 * f.cos(angle);
  }

  /** A buffer with the head that starts at `at` rotated. */
  function RotatedAt(f: Maths, v: Vec, at: nat, headDim: nat, pos: nat, base: real): Vec
    requires headDim % 2 == 0 && at + headDim <= |v|
  {
    v[..at] + RotateHead(f, v[at..at + headDim], pos, base) + v[at + headDim..]
  }

  /** Rotate the head that starts at `at`, pair by pair. */
  method RotateHeadAt(f: Maths, v: array<real>, at: nat, headDim: nat, pos: nat, base: real)
    requires headDim > 0 && headDim % 2 == 0 && at + headDim <= v.Length
    modifies v
    ensures v[..] == RotatedAt(f, old(v[..]), at, headDim, pos, base)
  {
    hide Turning, RotateHead, Angle, TurnedX, TurnedY;
    ghost var before := v[..];
    ghost var left, head, right := before[..at], before[at..at + headDim], before[at + headDim..];
    TurningEnds(f, head, pos, base);
    var half := headDim / 2;
    var i := 0;
    while i < half
      invariant 0 <= i <= half
      invariant v[..] == left + Turning(f, head, i, pos, base) + right
    {
      TurnStep(f, left, head, right, v[..], i, pos, base);
      var x, y := TurnPair(f, v[at + i], v[at + i + half], i, headDim, pos, base);
      v[at + i] := x;
      v[at + i + half] := y;
      i := i + 1;
    }
  }

  method RotateAll(f: Maths, v: array<real>, heads: nat, headDim: nat, pos: nat, base: real)
    requires headDim > 0 && headDim % 2 == 0 && v.Length == heads * headDim
    modifies v
    ensures v[..] == RotateHeads(f, old(v[..]), heads, headDim, pos, base)
  {
    hide RotatedAt, RotatedHeads;
    ghost var before := v[..];
    RotatedHeadsEnds(f, before, heads, headDim, pos, base);
    var h := 0;
    while h < heads
      invariant 0 <= h <= heads && v[..] == RotatedHeads(f, before, heads, h, headDim, pos, base)
    {
      RotatedHeadsStep(f, before, heads, h, headDim, pos, base);
      RotateHeadAt(f, v, h * headDim, headDim, pos, base);
      h := h + 1;
    }
  }

  /** A buffer with its first h heads rotated. */
  function RotatedHeads(f: Maths, v: Vec, heads: nat, h: nat, headDim: nat, pos: nat, base: real): (y: Vec)
    requires headDim % 2 == 0 && |v| == heads * headDim && h <= heads
    ensures |y| == |v|
  {
    MulMonotone(h, heads, headDim);
    RotateHeads(f, v[..h * headDim], h, headDim, pos, base) + v[h * headDim..]
  }

  lemma RotatedHeadsEnds(f: Maths, v: Vec, heads: nat, headDim: nat, pos: nat, base: real)
    requires headDim % 2 == 0 && |v| == heads * headDim
    ensures RotatedHeads(f, v, heads, 0, headDim, pos, base) == v
    ensures RotatedHeads(f, v, heads, heads, headDim, pos, base) == RotateHeads(f, v, heads, headDim, pos, base)
  {
    assert v[..|v|] == v;
  }

  lemma RotatedHeadsStep(f: Maths, v: Vec, heads: nat, h: nat, headDim: nat, pos: nat, base: real)
    requires headDim > 0 && headDim % 2 == 0 && |v| == heads * headDim && h < heads
    ensures h * headDim + headDim <= |v|
    ensures RotatedAt(f, RotatedHeads(f, v, heads, h, headDim, pos, base), h * headDim, headDim, pos, base)
         == RotatedHeads(f, v, heads, h + 1, headDim, pos, base)
  {
    hide RotateHead;
    RowFits(h, heads, headDim);
    var at, y := h * headDim, RotatedHeads(f, v, heads, h, headDim, pos, base);
    assert v[..at + headDim][..at] == v[..at] && v[..at + headDim][at..] == v[at..at + headDim];
    assert y[..at] == RotateHeads(f, v[..at], h, headDim, pos, base);
    assert y[at..at + headDim] == v[at..at + headDim] && y[at + headDim..] == v[at + headDim..];
  }

  /** Rotate queries and keys; an odd or empty head, or no heads, is refused and leaves both as they were. */
  method RopeApply(f: Maths, q: array<real>, heads: nat, k: array<real>, kvHeads: nat, headDim: nat, pos: nat,
                   base: real)
    returns (ok: bool)
    requires q.Length == heads * headDim && k.Length == kvHeads * headDim && q != k
    modifies q, k
    ensures ok <==> heads > 0 && kvHeads > 0 && headDim > 0 && headDim % 2 == 0
    ensures ok ==> q[..] == RotateHeads(f, old(q[..]), heads, headDim, pos, base)
    ensures ok ==> k[..] == RotateHeads(f, old(k[..]), kvHeads, headDim, pos, base)
    ensures !ok ==> q[..] == old(q[..]) && k[..] == old(k[..])
  {
    hide RotateHeads;
    if headDim == 0 || headDim % 2 != 0 {
      return false;
    }
    if heads == 0 || kvHeads == 0 {
      return false;
    }
    RotateAll(f, q, heads, headDim, pos, base);
    RotateAll(f, k, kvHeads, headDim, pos, base);
    return true;
  }

  // ---------------------------------------------------------------------------------------------
  // Softmax, in place
  // ---------------------------------------------------------------------------------------------

  method MaxElement(x: array<real>, n: nat) returns (mx: real)
    requires 0 < n <= x.Length
    ensures mx == MaxOf(x[..n])
  {
    mx := x[0];
    var i := 1;
    assert x[..1] == [x[0]];
    while i < n
      invariant 1 <= i <= n && mx == MaxOf(x[..i])
    {
      assert x[..i + 1][..i] == x[..i];
      if mx < x[i] {
        mx := x[i];
      }
      i := i + 1;
    }
  }

  lemma SumStep(s: Vec, i: nat)
    requires i < |s|
    ensures Sum(s[..i + 1]) == Sum(s[..i]) + s[i]
  {
    assert s[..i + 1][..i] == s[..i];
  }

  method ExpInPlace(f: Maths, x: array<real>, n: nat, mx: real) returns (sum: real)
    requires n <= x.Length
    modifies x
    ensures x[..n] == Exps(f, old(x[..n]), mx) && sum == Sum(x[..n])
    ensures x[n..] == old(x[n..])
  {
    ghost var e := Exps(f, x[..n], mx);
    sum := 0.0;
    var i := 0;
    while i < n
      invariant 0 <= i <= n && sum == Sum(e[..i])
      invariant forall j :: 0 <= j < i ==> x[j] == e[j]
      invariant forall j :: i <= j < x.Length ==> x[j] == old(x[j])
    {
      hide Sum;
      SumStep(e, i);
      x[i] := f.exp(x[i] - mx);
      sum := sum + x[i];
      i := i + 1;
    }
    assert e[..n] == e == x[..n];
  }

  method SoftmaxInPlace(f: Maths, x: array<real>, n: nat)
    requires n <= x.Length
    modifies x
    ensures n > 0 ==> x[..n] == Softmax(f, old(x[..n]))
    ensures x[n..] == old(x[n..])
  {
    hide Exps, Sum, MaxOf;
    if n == 0 {
      return;
    }
    var mx := MaxElement(x, n);
    var sum := ExpInPlace(f, x, n, mx);
    ghost var e, rest := x[..n], x[n..];
    if sum > 0.0 {
      var i := 0;
      while i < n
        invariant 0 <= i <= n
        invariant forall j :: 0 <= j < i ==> x[j] == e[j] / sum
        invariant forall j :: i <= j < n ==> x[j] == e[j]
        invariant x[n..] == rest
      {
        x[i] := x[i] / sum;
        i := i + 1;
      }
    }
  }
}
