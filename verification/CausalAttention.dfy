/** Grouped-query attention over the flat cache, exactly as far as the reader's layout goes. */
module CausalAttention {
  import opened Arithmetic
  import opened TransformerMath
  import opened KvLayout
  import opened Incremental
  import opened HydroXLOps

  // ---------------------------------------------------------------------------------------------
  // Scores
  // ---------------------------------------------------------------------------------------------

  method CachedDot(q: array<real>, at: nat, flat: Vec, off: nat, n: nat) returns (dot: real)
    requires at + n <= q.Length && off + n <= |flat|
    ensures dot == Dot(q[..], at, flat, off, n)
  {
    dot := 0.0;
    var d := 0;
    while d < n
      invariant 0 <= d <= n && dot == Dot(q[..], at, flat, off, d)
    {
      dot := dot + q[at + d] * flat[off + d];
      d := d + 1;
    }
  }

  /** The cache rows seen for one more position. */
  lemma SeenOneMore(flat: Vec, d: Dims, t: nat)
    requires Flat(flat, d) && t < d.maxSeq
    ensures SeenRows(flat, d, t + 1) == SeenRows(flat, d, t) + [Seen(flat, d, t)]
  {
    hide Seen;
  }

  lemma ScoresSnoc(q: Vec, at: nat, rows: seq<Row>, row: Row, g: nat, headDim: nat, scale: real)
    requires at + headDim <= |q| && g < |row| && |row[g]| == headDim
    requires forall t :: 0 <= t < |rows| ==> g < |rows[t]| && |rows[t][g]| == headDim
    ensures Scores(q, at, rows + [row], g, headDim, scale)
         == Scores(q, at, rows, g, headDim, scale) + [Times(Dot(q, at, row[g], 0, headDim), scale)]
  {
    hide Dot, Times;
    assert (rows + [row])[..|rows|] == rows;
  }

  lemma ScoreStep(q: Vec, at: nat, flat: Vec, d: Dims, g: nat, t: nat, scale: real)
    requires Flat(flat, d) && t < d.maxSeq && g < d.kvHeads && at + d.headDim <= |q|
    ensures d.ReadAt(g, t) + d.headDim <= |flat|
    ensures Scores(q, at, SeenRows(flat, d, t + 1), g, d.headDim, scale)
         == Scores(q, at, SeenRows(flat, d, t), g, d.headDim, scale)
           + [Times(Dot(q, at, flat, d.ReadAt(g, t), d.headDim), scale)]
  {
    hide Dot, Scores, SeenRows, Times;
    ReadFits(d, g, t);
    SeenOneMore(flat, d, t);
    var head := SeenHead(flat, d, t, g);
    ScoresSnoc(q, at, SeenRows(flat, d, t), Seen(flat, d, t), g, d.headDim, scale);
    assert head[0..0 + d.headDim] == head;
    DotWindow(q, at, flat, d.ReadAt(g, t), head, 0, d.headDim);
  }

  lemma ScoresNone(q: Vec, at: nat, flat: Vec, d: Dims, g: nat, scale: real)
    requires Flat(flat, d) && g < d.kvHeads && at + d.headDim <= |q|
    ensures Scores(q, at, SeenRows(flat, d, 0), g, d.headDim, scale) == []
  {
  }

  method ScoreHead(q: array<real>, at: nat, flat: Vec, d: Dims, g: nat, n: nat, scale: real, scores: array<real>)
    requires Flat(flat, d) && n <= d.maxSeq && n <= scores.Length && g < d.kvHeads
    requires at + d.headDim <= q.Length && q != scores
    modifies scores
    ensures scores[..n] == Scores(q[..], at, SeenRows(flat, d, n), g, d.headDim, scale)
  {
    hide Dot, SeenRows, Scores;
    ghost var qs := q[..];
    ScoresNone(qs, at, flat, d, g, scale);
    var t := 0;
    while t < n
      invariant 0 <= t <= n && q[..] == qs
      invariant scores[..t] == Scores(qs, at, SeenRows(flat, d, t), g, d.headDim, scale)
    {
      ScoreStep(qs, at, flat, d, g, t, scale);
      var dot := CachedDot(q, at, flat, d.ReadAt(g, t), d.headDim);
      scores[t] := dot * scale;
      assert scores[t] == Times(dot, scale);
      assert scores[..t + 1] == scores[..t] + [scores[t]];
      t := t + 1;
    }
  }

  // ---------------------------------------------------------------------------------------------
  // Weighted sum of the values
  // ---------------------------------------------------------------------------------------------

  /** A vector plus s times a window of the cache. */
  function Plus(y: Vec, s: real, flat: Vec, off: nat): (z: Vec)
    requires off + |y| <= |flat|
    ensures |z| == |y|
  {
    seq(|y|, i requires 0 <= i < |y| && off + |y| <= |flat| => y[i] + Times(s, flat[off + i]))
  }

  /** Add s times a window of the cache to a window of the output. */
  method Accumulate(out: array<real>, at: nat, s: real, flat: Vec, off: nat, n: nat)
    requires at + n <= out.Length && off + n <= |flat|
    modifies out
    ensures out[..] == old(out[..at]) + Plus(old(out[at..at + n]), s, flat, off) + old(out[at + n..])
  {
    ghost var sum := Plus(out[at..at + n], s, flat, off);
    var d := 0;
    while d < n
      invariant 0 <= d <= n
      invariant forall j :: 0 <= j < at || at + d <= j < out.Length ==> out[j] == old(out[j])
      invariant forall j :: at <= j < at + d ==> out[j] == sum[j - at]
    {
      assert sum[d] == old(out[at + d]) + s * flat[off + d];
      out[at + d] := out[at + d] + s * flat[off + d];
      d := d + 1;
    }
  }

  lemma MixSnoc(weights: Vec, w: real, rows: seq<Row>, row: Row, g: nat, i: nat)
    requires |weights| == |rows| && g < |row| && i < |row[g]|
    requires forall t :: 0 <= t < |rows| ==> g < |rows[t]| && i < |rows[t][g]|
    ensures Mix(weights + [w], rows + [row], g, i) == Mix(weights, rows, g, i) + Times(w, row[g][i])
  {
    hide Times;
    assert (rows + [row])[..|rows|] == rows && (weights + [w])[..|rows|] == weights;
  }

  /** One more position in the weighted sum. */
  lemma MixStep(weights: Vec, flat: Vec, d: Dims, g: nat, t: nat)
    requires Flat(flat, d) && t < d.maxSeq && g < d.kvHeads && t < |weights|
    ensures d.ReadAt(g, t) + d.headDim <= |flat|
    ensures Mixed(weights[..t + 1], SeenRows(flat, d, t + 1), g, d.headDim)
         == Plus(Mixed(weights[..t], SeenRows(flat, d, t), g, d.headDim), weights[t], flat, d.ReadAt(g, t))
  {
    hide Times, Mix, SeenRows;
    ReadFits(d, g, t);
    SeenOneMore(flat, d, t);
    var rows, row := SeenRows(flat, d, t), Seen(flat, d, t);
    assert weights[..t + 1] == weights[..t] + [weights[t]];
    var head := SeenHead(flat, d, t, g);
    assert row[g] == head;
    forall i: nat | i < d.headDim
      ensures Mix(weights[..t + 1], rows + [row], g, i)
           == Mix(weights[..t], rows, g, i) + Times(weights[t], flat[d.ReadAt(g, t) + i])
    {
      MixSnoc(weights[..t], weights[t], rows, row, g, i);
      assert head[i] == flat[d.ReadAt(g, t) + i];
    }
  }

  lemma MixNone(flat: Vec, d: Dims, g: nat, weights: Vec)
    requires Flat(flat, d) && g < d.kvHeads
    ensures Mixed(weights[..0], SeenRows(flat, d, 0), g, d.headDim) == Zeros(d.headDim)
  {
  }

  lemma Parts(a: Vec, b: Vec, c: Vec)
    ensures var s := a + b + c; s[..|a|] == a && s[|a|..|a| + |b|] == b && s[|a| + |b|..] == c
  {
  }

  method MixHead(scores: array<real>, flat: Vec, d: Dims, g: nat, n: nat, out: array<real>, at: nat)
    requires Flat(flat, d) && n <= d.maxSeq && n <= scores.Length && g < d.kvHeads
    requires at + d.headDim <= out.Length && scores != out
    modifies out
    ensures out[..] ==
      old(out[..at]) + Mixed(scores[..n], SeenRows(flat, d, n), g, d.headDim) + old(out[at + d.headDim..])
  {
    hide Mixed, SeenRows, Plus, Zeros;
    ghost var ws, left, right := scores[..], out[..at], out[at + d.headDim..];
    MixNone(flat, d, g, ws);
    FillZero(out, at, d.headDim);
    var t := 0;
    while t < n
      invariant 0 <= t <= n && scores[..] == ws
      invariant out[..] == left + Mixed(ws[..t], SeenRows(flat, d, t), g, d.headDim) + right
    {
      MixStep(ws, flat, d, g, t);
      Parts(left, Mixed(ws[..t], SeenRows(flat, d, t), g, d.headDim), right);
      assert out[..at] == out[..][..at] && out[at..at + d.headDim] == out[..][at..at + d.headDim]
          && out[at + d.headDim..] == out[..][at + d.headDim..];
      Accumulate(out, at, scores[t], flat, d.ReadAt(g, t), d.headDim);
      t := t + 1;
    }
    assert ws[..n] == scores[..n];
  }

  method FillZero(out: array<real>, at: nat, n: nat)
    requires at + n <= out.Length
    modifies out
    ensures out[..] == old(out[..at]) + Zeros(n) + old(out[at + n..])
  {
    forall j | at <= j < at + n {
      out[j] := 0.0;
    }
  }

  // ---------------------------------------------------------------------------------------------
  // All heads
  // ---------------------------------------------------------------------------------------------

  predicate Attends(seqLen: nat, heads: nat, d: Dims) {
    0 < seqLen <= d.maxSeq && heads > 0 && d.kvHeads > 0 && d.headDim > 0 && heads % d.kvHeads == 0
  }

  /** The first h heads of attention over the cache, followed by what was there. */
  function Attended(f: Maths, q: Vec, k: Vec, v: Vec, n: nat, h: nat, heads: nat, d: Dims, scale: real,
                    rest: Vec): (y: Vec)
    requires Attends(n, heads, d) && h <= heads && Flat(k, d) && Flat(v, d) && |q| == |rest| == heads * d.headDim
    ensures |y| == |rest|
  {
    MulMonotone(h, heads, d.headDim);
    Attend(f, q, SeenRows(k, d, n), SeenRows(v, d, n), h, heads, d.kvHeads, d.headDim, scale) + rest[h * d.headDim..]
  }

  lemma AttendedEnds(f: Maths, q: Vec, k: Vec, v: Vec, n: nat, heads: nat, d: Dims, scale: real, rest: Vec)
    requires Attends(n, heads, d) && Flat(k, d) && Flat(v, d) && |q| == |rest| == heads * d.headDim
    ensures Attended(f, q, k, v, n, 0, heads, d, scale, rest) == rest
    ensures Attended(f, q, k, v, n, heads, heads, d, scale, rest)
         == Attend(f, q, SeenRows(k, d, n), SeenRows(v, d, n), heads, heads, d.kvHeads, d.headDim, scale)
  {
    hide SeenRows, AttendHead;
  }

  lemma AttendedStep(f: Maths, q: Vec, k: Vec, v: Vec, n: nat, h: nat, heads: nat, d: Dims, scale: real, rest: Vec)
    requires Attends(n, heads, d) && h < heads && Flat(k, d) && Flat(v, d) && |q| == |rest| == heads * d.headDim
    ensures var at, y := h * d.headDim, Attended(f, q, k, v, n, h, heads, d, scale, rest);
      && at + d.headDim <= |y|
      && Attended(f, q, k, v, n, h + 1, heads, d, scale, rest)
           == y[..at] + AttendHead(f, q, SeenRows(k, d, n), SeenRows(v, d, n), h, heads, d.kvHeads, d.headDim, scale)
              + y[at + d.headDim..]
  {
    hide SeenRows, AttendHead;
    RowFits(h, heads, d.headDim);
    var at, y := h * d.headDim, Attended(f, q, k, v, n, h, heads, d, scale, rest);
    assert y[at + d.headDim..] == rest[at + d.headDim..];
  }

  method AttendHeadInto(f: Maths, q: array<real>, k: Vec, v: Vec, out: array<real>, n: nat, h: nat, heads: nat,
                        d: Dims, scale: real, scores: array<real>)
    requires Attends(n, heads, d) && h < heads && Flat(k, d) && Flat(v, d)
    requires q.Length == out.Length == heads * d.headDim && scores.Length == d.maxSeq
    requires q != out && q != scores && out != scores
    modifies out, scores
    ensures var at := h * d.headDim;
      && at + d.headDim <= out.Length
      && out[..] == old(out[..])[..at]
           + AttendHead(f, q[..], SeenRows(k, d, n), SeenRows(v, d, n), h, heads, d.kvHeads, d.headDim, scale)
           + old(out[..])[at + d.headDim..]
  {
    hide Mixed, SeenRows, Softmax, Scores, Dot;
    RowFits(h, heads, d.headDim);
    GroupFits(h, heads, d.kvHeads);
    var g := h / (heads / d.kvHeads);
    ScoreHead(q, h * d.headDim, k, d, g, n, scale, scores);
    SoftmaxInPlace(f, scores, n);
    MixHead(scores, v, d, g, n, out, h * d.headDim);
  }

  method CausalAttentionInto(f: Maths, q: array<real>, k: Vec, v: Vec, out: array<real>, seqLen: nat, heads: nat,
                             d: Dims, scale: real, scores: array<real>) returns (ok: bool)
    requires Attends(seqLen, heads, d) ==> Flat(k, d) && Flat(v, d)
    requires q.Length == out.Length == heads * d.headDim && scores.Length == d.maxSeq
    requires q != out && q != scores && out != scores
    modifies out, scores
    ensures ok <==> Attends(seqLen, heads, d)
    ensures ok ==>
      out[..] == Attend(f, q[..], SeenRows(k, d, seqLen), SeenRows(v, d, seqLen), heads, heads, d.kvHeads, d.headDim,
                        scale)
  {
    if seqLen == 0 || heads == 0 || d.kvHeads == 0 || d.headDim == 0 {
      return false;
    }
    if heads % d.kvHeads != 0 {
      return false;
    }
    if seqLen > d.maxSeq {
      return false;
    }
    hide Attended, Attend, SeenRows;
    AttendedEnds(f, q[..], k, v, seqLen, heads, d, scale, out[..]);
    AttendAll(f, q, k, v, out, seqLen, heads, d, scale, scores);
    return true;
  }

  method AttendAll(f: Maths, q: array<real>, k: Vec, v: Vec, out: array<real>, n: nat, heads: nat,
                   d: Dims, scale: real, scores: array<real>)
    requires Attends(n, heads, d) && Flat(k, d) && Flat(v, d)
    requires q.Length == out.Length == heads * d.headDim && scores.Length == d.maxSeq
    requires q != out && q != scores && out != scores
    modifies out, scores
    ensures out[..] == Attended(f, q[..], k, v, n, heads, heads, d, scale, old(out[..]))
  {
    hide AttendHead, SeenRows, Attended, Flat, Attends;
    ghost var qs, rest := q[..], out[..];
    AttendedEnds(f, qs, k, v, n, heads, d, scale, rest);
    var h := 0;
    while h < heads
      invariant 0 <= h <= heads && q[..] == qs
      invariant out[..] == Attended(f, qs, k, v, n, h, heads, d, scale, rest)
    {
      AttendedStep(f, qs, k, v, n, h, heads, d, scale, rest);
      AttendHeadInto(f, q, k, v, out, n, h, heads, d, scale, scores);
      h := h + 1;
    }
  }
}
