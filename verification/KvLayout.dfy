/** Where one layer of the cache is written and where attention reads it. */
module KvLayout {
  import opened Arithmetic
  import opened TransformerMath

  datatype Dims = Dims(kvHeads: nat, maxSeq: nat, headDim: nat)
  {
    predicate Positive() { kvHeads > 0 && maxSeq > 0 && headDim > 0 }

    function KvDim(): nat { kvHeads * headDim }

    function LayerSize(): nat { kvHeads * maxSeq * headDim }

    /** The writer goes position by position. */
    function WriteAt(pos: nat): nat { pos * kvHeads * headDim }

    /** The reader goes head by head. */
    function ReadAt(g: nat, t: nat): nat { g * maxSeq * headDim + t * headDim }
  }

  lemma WriteFits(d: Dims, pos: nat)
    requires pos < d.maxSeq
    ensures d.WriteAt(pos) + d.KvDim() <= d.LayerSize()
    ensures d.WriteAt(pos + 1) == d.WriteAt(pos) + d.KvDim()
  {
    var c := d.KvDim();
    assert d.WriteAt(pos) == pos * c && d.WriteAt(pos + 1) == (pos + 1) * c by {
      Reassociate(pos, d.kvHeads, d.headDim);
      Reassociate(pos + 1, d.kvHeads, d.headDim);
    }
    assert d.LayerSize() == d.maxSeq * c by {
      assert d.kvHeads * d.maxSeq == d.maxSeq * d.kvHeads;
      Reassociate(d.maxSeq, d.kvHeads, d.headDim);
    }
    RowFits(pos, d.maxSeq, c);
  }

  lemma Reassociate(a: nat, b: nat, c: nat)
    ensures a * b * c == a * (b * c)
  {
  }

  lemma WritesApart(d: Dims, t: nat, pos: nat)
    requires t < pos <= d.maxSeq
    ensures d.WriteAt(t) + d.KvDim() <= d.WriteAt(pos)
    decreases pos
  {
    if t + 1 == pos {
      WriteFits(d, t);
    } else {
      WritesApart(d, t, pos - 1);
      WriteFits(d, pos - 1);
    }
  }

  lemma ReadFits(d: Dims, g: nat, t: nat)
    requires g < d.kvHeads && t < d.maxSeq
    ensures d.ReadAt(g, t) == (g * d.maxSeq + t) * d.headDim
    ensures d.ReadAt(g, t) + d.headDim <= d.LayerSize()
  {
    RowFits(g, d.kvHeads, d.maxSeq);
    RowFits(g * d.maxSeq + t, d.kvHeads * d.maxSeq, d.headDim);
    assert (g * d.maxSeq + t) * d.headDim == g * d.maxSeq * d.headDim + t * d.headDim;
  }

  predicate Flat(flat: Vec, d: Dims) {
    |flat| == d.LayerSize()
  }

  /** `v` in place of what is there from index `at` on. */
  function Spliced(flat: Vec, at: nat, v: Vec): (flat': Vec)
    requires at + |v| <= |flat|
    ensures |flat'| == |flat|
  {
    flat[..at] + v + flat[at + |v|..]
  }

  function Write(flat: Vec, d: Dims, pos: nat, v: Vec): (flat': Vec)
    requires Flat(flat, d) && pos < d.maxSeq && |v| == d.KvDim()
    ensures Flat(flat', d)
  {
    WriteFits(d, pos);
    Spliced(flat, d.WriteAt(pos), v)
  }

  /** The vector that was written for a position. */
  function Stored(flat: Vec, d: Dims, t: nat): (v: Vec)
    requires Flat(flat, d) && t < d.maxSeq
    ensures |v| == d.KvDim()
  {
    WriteFits(d, t);
    flat[d.WriteAt(t)..d.WriteAt(t) + d.KvDim()]
  }

  /** What attention reads for a position and a head. */
  function SeenHead(flat: Vec, d: Dims, t: nat, g: nat): (v: Vec)
    requires Flat(flat, d) && t < d.maxSeq && g < d.kvHeads
    ensures |v| == d.headDim
  {
    ReadFits(d, g, t);
    flat[d.ReadAt(g, t)..d.ReadAt(g, t) + d.headDim]
  }

  function Seen(flat: Vec, d: Dims, t: nat): (row: Row)
    requires Flat(flat, d) && t < d.maxSeq
    ensures |row| == d.kvHeads && Sized(row, d.headDim)
  {
    seq(d.kvHeads, g requires 0 <= g < d.kvHeads && Flat(flat, d) && t < d.maxSeq => SeenHead(flat, d, t, g))
  }

  /** Writing one position changes that position and no other. */
  lemma StoredWrite(flat: Vec, d: Dims, pos: nat, v: Vec, t: nat)
    requires Flat(flat, d) && pos < d.maxSeq && t < d.maxSeq && |v| == d.KvDim()
    ensures Stored(Write(flat, d, pos, v), d, t) == if t == pos then v else Stored(flat, d, t)
  {
    WriteFits(d, pos);
    WriteFits(d, t);
    if t < pos {
      WritesApart(d, t, pos);
    } else if pos < t {
      WritesApart(d, pos, t);
    }
  }

  /** Writer and reader put every element in the same place exactly with one head or one position. */
  lemma LayoutsAgreeIff(d: Dims)
    requires d.Positive()
    ensures (forall g, t {:trigger d.ReadAt(g, t)} :: 0 <= g < d.kvHeads && 0 <= t < d.maxSeq ==>
               d.WriteAt(t) + g * d.headDim == d.ReadAt(g, t))
       <==> d.kvHeads == 1 || d.maxSeq == 1
  {
    if d.kvHeads == 1 || d.maxSeq == 1 {
      forall g, t | 0 <= g < d.kvHeads && 0 <= t < d.maxSeq
        ensures d.WriteAt(t) + g * d.headDim == d.ReadAt(g, t)
      {
        Agreement(d, g, t);
      }
    } else {
      assert d.ReadAt(1, 0) == d.maxSeq * d.headDim && d.WriteAt(0) == 0;
      RowFits(1, d.maxSeq, d.headDim);
    }
  }

  lemma Agreement(d: Dims, g: nat, t: nat)
    requires d.kvHeads == 1 || d.maxSeq == 1
    requires g < d.kvHeads && t < d.maxSeq
    ensures d.WriteAt(t) + g * d.headDim == d.ReadAt(g, t)
  {
    if d.kvHeads == 1 {
      assert g == 0;
    } else {
      assert t == 0;
    }
  }

  /** Then attention sees what was written, cut into heads. */
  lemma SeenIsStored(flat: Vec, d: Dims, t: nat)
    requires d.kvHeads == 1 || d.maxSeq == 1
    requires Flat(flat, d) && t < d.maxSeq
    ensures Seen(flat, d, t) == Heads(Stored(flat, d, t), d.kvHeads, d.headDim)
  {
    var v := Stored(flat, d, t);
    forall g: nat | g < d.kvHeads ensures SeenHead(flat, d, t, g) == Head(v, g, d.kvHeads, d.headDim) {
      Agreement(d, g, t);
      RowFits(g, d.kvHeads, d.headDim);
      WriteFits(d, t);
      SliceOfSlice(flat, d.WriteAt(t), d.KvDim(), g * d.headDim, d.headDim);
    }
  }

  lemma SliceOfSlice(s: Vec, a: nat, n: nat, b: nat, k: nat)
    requires a + n <= |s| && b + k <= n
    ensures s[a..a + n][b..b + k] == s[a + b..a + b + k]
  {
    var x, y := s[a..a + n][b..b + k], s[a + b..a + b + k];
    forall i | 0 <= i < k ensures x[i] == y[i] {
      assert x[i] == s[a..a + n][b + i] == s[a + b + i] == y[i];
    }
  }

  /** A vector whose second head is ones and whose other heads are zeros. */
  function SecondHead(d: Dims): (v: Vec)
    ensures |v| == d.KvDim()
  {
    seq(d.KvDim(), j => if d.headDim <= j < 2 * d.headDim then 1.0 else 0.0)
  }

  function Zeros(n: nat): Vec {
    seq(n, _ => 0.0)
  }

  /** With several heads and positions, the first write into an empty cache does not come back. */
  lemma SecondHeadIsLost(d: Dims)
    requires d.Positive() && d.kvHeads > 1 && d.maxSeq > 1
    ensures Seen(Write(Zeros(d.LayerSize()), d, 0, SecondHead(d)), d, 0)[1][0] == 0.0
    ensures Seen(Write(Zeros(d.LayerSize()), d, 0, SecondHead(d)), d, 0)
         != Heads(SecondHead(d), d.kvHeads, d.headDim)
  {
    var v := SecondHead(d);
    var flat := Write(Zeros(d.LayerSize()), d, 0, v);
    ReadFits(d, 1, 0);
    RowFits(1, d.kvHeads, d.headDim);
    RowFits(1, d.maxSeq, d.headDim);
    var at := d.ReadAt(1, 0);
    assert d.WriteAt(0) == 0 && at == d.maxSeq * d.headDim >= 2 * d.headDim;
    assert flat[at] == 0.0 && SeenHead(flat, d, 0, 1)[0] == 0.0;
    assert v[d.headDim] == 1.0 && Head(v, 1, d.kvHeads, d.headDim)[0] == 1.0;
    assert Seen(flat, d, 0)[1] != Heads(v, d.kvHeads, d.headDim)[1];
  }

  /** Attention sees every write exactly with one key/value head or one position. */
  lemma ReadsBackIff(d: Dims)
    requires d.Positive()
    ensures (forall flat, pos, v {:trigger Write(flat, d, pos, v)} ::
               Flat(flat, d) && 0 <= pos < d.maxSeq && |v| == d.KvDim() ==>
                 Seen(Write(flat, d, pos, v), d, pos) == Heads(v, d.kvHeads, d.headDim))
       <==> d.kvHeads == 1 || d.maxSeq == 1
  {
    if d.kvHeads == 1 || d.maxSeq == 1 {
      forall flat, pos, v | Flat(flat, d) && 0 <= pos < d.maxSeq && |v| == d.KvDim()
        ensures Seen(Write(flat, d, pos, v), d, pos) == Heads(v, d.kvHeads, d.headDim)
      {
        StoredWrite(flat, d, pos, v, pos);
        SeenIsStored(Write(flat, d, pos, v), d, pos);
      }
    } else {
      SecondHeadIsLost(d);
    }
  }
}
