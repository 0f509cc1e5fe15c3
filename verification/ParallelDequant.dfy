/** Dequantising a tensor in chunks on several threads. */
module ParallelDequant {
  import opened Arithmetic
  import opened TransformerMath
  import opened QuantFormats
  import opened HydroXLDequant

  datatype Format = F16 | FQ4K | FQ3K | FQ6K | FQ50 | FQ51 | FQ80
  {
    /** Elements of a block. */
    function Size(): (n: nat)
      ensures n > 0
    {
      match this
      case F16 => 1
      case FQ50 | FQ51 | FQ80 => 32
      case _ => 256
    }

    /** Bytes of a block. */
    function Bytes(): nat {
      match this
      case F16 => 2
      case FQ4K => 144
      case FQ3K => 110
      case FQ6K => 210
      case FQ50 => 22
      case FQ51 => 24
      case FQ80 => 34
    }

    /** Fewer blocks than this are decoded on the calling thread. */
    function Threshold(): nat {
      if F16? then 131072 else 256
    }
  }

  /** Element i of the block that starts at a byte. */
  function Element(f: Format, h: Half, raw: Raw, at: nat, i: nat): real
    requires at + f.Bytes() <= |raw| && i < f.Size()
  {
    match f
    case F16 => h(raw[at], raw[at + 1])
    case FQ4K => Q4K(h, raw, at, i)
    case FQ3K => Q3K(h, raw, at, i)
    case FQ6K => Q6K(h, raw, at, i)
    case FQ50 => Q50(h, raw, at, i)
    case FQ51 => Q51(h, raw, at, i)
    case FQ80 => Q80(h, raw, at, i)
  }

  /** The bytes hold this many blocks. */
  predicate Holds(f: Format, raw: Raw, blocks: nat) {
    blocks * f.Bytes() <= |raw|
  }

  function BlockValues(f: Format, h: Half, raw: Raw, blocks: nat, b: nat): (v: Vec)
    requires Holds(f, raw, blocks) && b < blocks
    ensures |v| == f.Size()
  {
    RowFits(b, blocks, f.Bytes());
    seq(f.Size(), i requires 0 <= i < f.Size() && b * f.Bytes() + f.Bytes() <= |raw| =>
      Element(f, h, raw, b * f.Bytes(), i))
  }

  // ---------------------------------------------------------------------------------------------
  // One block
  // ---------------------------------------------------------------------------------------------

  /** A buffer with block b put in its place. */
  function Put(out: Vec, f: Format, b: nat, v: Vec): (out': Vec)
    requires b * f.Size() + f.Size() <= |out| && |v| == f.Size()
    ensures |out'| == |out|
  {
    out[..b * f.Size()] + v + out[b * f.Size() + f.Size()..]
  }

  /** Where the k-th store of a decoder goes in its block. */
  function Place(f: Format, k: nat): nat {
    match f
    case FQ6K => Place6(k)
    case FQ50 | FQ51 => Place5(k)
    case _ => k
  }

  function Store5(i: nat): nat {
    i % 16 * 2 + i / 16
  }

  lemma NibblesPermute(nibble: nat, j: nat)
    requires nibble < 2 && j < 16
    ensures Store5(nibble * 16 + j) == j * 2 + nibble && Place5(j * 2 + nibble) == nibble * 16 + j
  {
    if nibble == 0 {
    } else {
      assert (16 + j) % 16 == j && (16 + j) / 16 == 1;
    }
  }

  function Store6(i: nat): nat {
    i / 128 * 128 + i % 32 * 4 + i % 128 / 32
  }

  lemma Store6At(half: nat, quarter: nat, l: nat)
    requires half < 2 && quarter < 4 && l < 32
    ensures Store6(half * 128 + quarter * 32 + l) == half * 128 + l * 4 + quarter
  {
    Split(half, quarter, l);
  }

  /** Which store of a decoder goes to place i. */
  function StoreOf(f: Format, i: nat): nat {
    match f
    case FQ6K => Store6(i)
    case FQ50 | FQ51 => Store5(i)
    case _ => i
  }

  /** A decoder stores to each place of its block exactly once. */
  lemma PlacesPermute(f: Format, i: nat)
    requires i < f.Size()
    ensures Place(f, i) < f.Size() && StoreOf(f, Place(f, i)) == i
    ensures StoreOf(f, i) < f.Size() && Place(f, StoreOf(f, i)) == i
  {
    hide Place5, Store5, Place6, Store6;
    if f.FQ6K? {
      QuartersUndone(i);
      QuartersDone(i);
    } else if f.FQ50? || f.FQ51? {
      assert i == i / 16 * 16 + i % 16 && i == i / 2 * 2 + i % 2;
      NibblesPermute(i / 16, i % 16);
      NibblesPermute(i % 2, i / 2);
    }
  }

  lemma QuartersUndone(i: nat)
    requires i < 256
    ensures Store6(i) < 256 && Place6(Store6(i)) == i
  {
    hide Place6, Store6;
    var half, quarter, l := i / 128, i % 128 / 32, i % 32;
    assert i == half * 128 + quarter * 32 + l;
    Store6At(half, quarter, l);
    Place6At(half, l, quarter);
  }

  lemma QuartersDone(k: nat)
    requires k < 256
    ensures Place6(k) < 256 && Store6(Place6(k)) == k
  {
    hide Place6, Store6;
    var half, l, q := k / 128, k % 128 / 4, k % 4;
    assert k == half * 128 + l * 4 + q;
    Place6At(half, l, q);
    Store6At(half, q, l);
  }

  function BlockStores(f: Format, b: nat): (s: seq<nat>)
    ensures |s| == f.Size() && forall k :: 0 <= k < |s| ==> s[k] == b * f.Size() + Place(f, k)
  {
    seq(f.Size(), k requires 0 <= k => b * f.Size() + Place(f, k))
  }

  method DecodeBlock(f: Format, h: Half, raw: Raw, blocks: nat, b: nat,
                     dst: array<real>) returns (ghost written: seq<nat>)
    requires Holds(f, raw, blocks) && b < blocks && b * f.Size() + f.Size() <= dst.Length
    modifies dst
    ensures written == BlockStores(f, b)
    ensures dst[..] == Put(old(dst[..]), f, b, BlockValues(f, h, raw, blocks, b))
  {
    RowFits(b, blocks, f.Bytes());
    hide Element, Put, BlockValues, Format.Size, Format.Bytes;
    written := DecodeInto(f, h, raw, b * f.Bytes(), dst, b * f.Size());
    PutIs(f, h, raw, blocks, b, old(dst[..]), dst[..]);
    WrittenIs(written, f, b);
  }

  lemma WrittenIs(written: seq<nat>, f: Format, b: nat)
    requires |written| == f.Size() && forall k :: 0 <= k < |written| ==> written[k] == b * f.Size() + Place(f, k)
    ensures written == BlockStores(f, b)
  {
    hide Place;
  }

  /** The decoder of a format, on the block that starts at a byte. */
  method DecodeInto(f: Format, h: Half, raw: Raw, at: nat, dst: array<real>, off: nat) returns (ghost written: seq<nat>)
    requires at + f.Bytes() <= |raw| && off + f.Size() <= dst.Length
    modifies dst
    ensures |written| == f.Size() && forall k :: 0 <= k < |written| ==> written[k] == off + Place(f, k)
    ensures forall i {:trigger Element(f, h, raw, at, i)} :: 0 <= i < f.Size() ==>
      dst[off + i] == Element(f, h, raw, at, i)
    ensures OnlyWindow(dst, off, f.Size())
  {
    hide Q4K, Q3K, Q6K, Q50, Q51, Q80;
    match f
    case F16 => written := Store(dst, off, h(raw[at], raw[at + 1]), []);
    case FQ4K => written := DequantQ4KBlock(h, raw, at, dst, off);
    case FQ3K => written := DequantQ3KBlock(h, raw, at, dst, off);
    case FQ6K => written := DequantQ6KBlock(h, raw, at, dst, off);
    case FQ50 => written := DequantQ50Block(h, raw, at, dst, off);
    case FQ51 => written := DequantQ51Block(h, raw, at, dst, off);
    case FQ80 => written := DequantQ80Block(h, raw, at, dst, off);
  }

  lemma PutIs(f: Format, h: Half, raw: Raw, blocks: nat, b: nat, before: Vec, after: Vec)
    requires Holds(f, raw, blocks) && b < blocks && b * f.Size() + f.Size() <= |before| == |after|
    requires b * f.Bytes() + f.Bytes() <= |raw|
    requires forall i {:trigger Element(f, h, raw, b * f.Bytes(), i)} :: 0 <= i < f.Size() ==>
      after[b * f.Size() + i] == Element(f, h, raw, b * f.Bytes(), i)
    requires forall j :: 0 <= j < |after| && !(b * f.Size() <= j < b * f.Size() + f.Size()) ==> after[j] == before[j]
    ensures after == Put(before, f, b, BlockValues(f, h, raw, blocks, b))
  {
    hide Element;
    var off := b * f.Size();
    forall j | off <= j < off + f.Size() ensures after[j] == BlockValues(f, h, raw, blocks, b)[j - off] {
      assert after[off + (j - off)] == Element(f, h, raw, b * f.Bytes(), j - off);
    }
  }

  /** Block b is decoded. */
  predicate Decoded(out: Vec, f: Format, h: Half, raw: Raw, blocks: nat, b: nat)
    requires Holds(f, raw, blocks) && b < blocks
  {
    && b * f.Size() + f.Size() <= |out|
    && out[b * f.Size()..b * f.Size() + f.Size()] == BlockValues(f, h, raw, blocks, b)
  }

  /** Decoding a block decodes it and leaves every other block as it is. */
  lemma PutDecodes(out: Vec, f: Format, h: Half, raw: Raw, blocks: nat, b: nat, c: nat)
    requires Holds(f, raw, blocks) && b < blocks && c < blocks && blocks * f.Size() <= |out|
    ensures b * f.Size() + f.Size() <= |out| && c * f.Size() + f.Size() <= |out|
    ensures var out' := Put(out, f, b, BlockValues(f, h, raw, blocks, b));
      Decoded(out', f, h, raw, blocks, c) <==> c == b || Decoded(out, f, h, raw, blocks, c)
  {
    hide BlockValues, Put, Format.Size;
    RowFits(b, blocks, f.Size());
    RowFits(c, blocks, f.Size());
    if c == b {
      PutThere(out, f, b, BlockValues(f, h, raw, blocks, b));
    } else {
      PutElsewhere(out, f, blocks, b, BlockValues(f, h, raw, blocks, b), c);
    }
  }

  lemma PutThere(out: Vec, f: Format, b: nat, v: Vec)
    requires b * f.Size() + f.Size() <= |out| && |v| == f.Size()
    ensures Put(out, f, b, v)[b * f.Size()..b * f.Size() + f.Size()] == v
  {
    hide Format.Size;
  }

  lemma PutElsewhere(out: Vec, f: Format, blocks: nat, b: nat, v: Vec, c: nat)
    requires b < blocks && c < blocks && b != c && blocks * f.Size() <= |out| && |v| == f.Size()
    ensures b * f.Size() + f.Size() <= |out| && c * f.Size() + f.Size() <= |out|
    ensures Put(out, f, b, v)[c * f.Size()..c * f.Size() + f.Size()] == out[c * f.Size()..c * f.Size() + f.Size()]
  {
    hide Format.Size;
    RowFits(b, blocks, f.Size());
    RowFits(c, blocks, f.Size());
    if c < b {
      RowFits(c, b, f.Size());
    } else {
      RowFits(b, c, f.Size());
    }
    OutsideKept(out, b * f.Size(), v, c * f.Size(), f.Size());
  }

  /** Putting a window in place leaves every window apart from it. */
  lemma OutsideKept(out: Vec, lo: nat, v: Vec, a: nat, n: nat)
    requires lo + |v| <= |out| && a + n <= |out| && (a + n <= lo || lo + |v| <= a)
    ensures (out[..lo] + v + out[lo + |v|..])[a..a + n] == out[a..a + n]
  {
    var put := out[..lo] + v + out[lo + |v|..];
    forall j | a <= j < a + n ensures put[j] == out[j] {
      if j < lo {
      } else {
        assert put[j] == out[lo + |v|..][j - lo - |v|];
      }
    }
  }

  // ---------------------------------------------------------------------------------------------
  // Chunks
  // ---------------------------------------------------------------------------------------------

  function PerThread(n: nat, threads: nat): nat
    requires threads > 0
  {
    (n + threads - 1) / threads
  }

  function Start(n: nat, threads: nat, t: nat): nat
    requires threads > 0
  {
    t * PerThread(n, threads)
  }

  function End(n: nat, threads: nat, t: nat): nat
    requires threads > 0
  {
    var end := Start(n, threads, t) + PerThread(n, threads);
    if end < n then end else n
  }

  predicate InChunk(n: nat, threads: nat, t: nat, b: nat)
    requires threads > 0
  {
    Start(n, threads, t) <= b < End(n, threads, t)
  }

  /** The thread whose chunk a block is in. */
  function Owner(n: nat, threads: nat, b: nat): (t: nat)
    requires threads > 0 && b < n
    ensures t < threads && t * PerThread(n, threads) <= b < (t + 1) * PerThread(n, threads)
  {
    PerThreadSuffices(n, threads);
    hide PerThread;
    SlotFits(n, threads, PerThread(n, threads), b);
    Slot(b, PerThread(n, threads))
  }

  /** Which of the slots of a size something is in. */
  function Slot(b: nat, size: nat): (s: nat)
    requires size > 0
    ensures s * size <= b < (s + 1) * size
  {
    assert b == b / size * size + b % size && (b / size + 1) * size == b / size * size + size;
    b / size
  }

  lemma SlotFits(n: nat, threads: nat, per: nat, b: nat)
    requires per > 0 && per * threads >= n > b
    ensures Slot(b, per) < threads
  {
    var s := Slot(b, per);
    hide Slot;
    if s >= threads {
      MulMonotone(threads, s, per);
      assert false;
    }
  }

  /** The chunks cover every block exactly once: each block is in its owner's chunk and in no other. */
  lemma ChunksPartition(n: nat, threads: nat, b: nat, t: nat)
    requires threads > 0 && b < n && t < threads
    ensures InChunk(n, threads, t, b) <==> t == Owner(n, threads, b)
  {
    var per, o := PerThread(n, threads), Owner(n, threads, b);
    hide PerThread, Owner;
    assert (o + 1) * per == o * per + per && (t + 1) * per == t * per + per;
    if t < o {
      MulMonotone(t + 1, o, per);
    } else if o < t {
      MulMonotone(o + 1, t, per);
    }
  }

  lemma PerThreadSuffices(n: nat, threads: nat)
    requires threads > 0
    ensures PerThread(n, threads) * threads >= n
    ensures n > 0 ==> PerThread(n, threads) > 0
  {
    var x := n + threads - 1;
    assert x == x / threads * threads + x % threads;
    if n > 0 && PerThread(n, threads) == 0 {
      assert false;
    }
  }

  // ---------------------------------------------------------------------------------------------
  // Any interleaving of single writes
  // ---------------------------------------------------------------------------------------------

  /** What the threads still have to write, each in its own order, and the output so far. */
  datatype Race = Race(out: Vec, todo: seq<seq<nat>>)

  /** Thread t makes its next write. */
  function WriteNext(r: Race, target: Vec, t: nat): (r': Race)
    requires t < |r.todo| && r.todo[t] != [] && r.todo[t][0] < |target| == |r.out|
    ensures |r'.out| == |r.out| && |r'.todo| == |r.todo|
  {
    Race(r.out[r.todo[t][0] := target[r.todo[t][0]]], r.todo[t := r.todo[t][1..]])
  }

  /** A finished thread does nothing more. */
  function Interleave(r: Race, target: Vec, schedule: seq<nat>): Race
    requires Writable(r, target)
    decreases |schedule|
  {
    if schedule == [] then r
    else if schedule[0] < |r.todo| && r.todo[schedule[0]] != [] then
      StaysWritable(r, target, schedule[0]);
      Interleave(WriteNext(r, target, schedule[0]), target, schedule[1..])
    else Interleave(r, target, schedule[1..])
  }

  ghost predicate Writable(r: Race, target: Vec) {
    && |r.out| == |target|
    && forall t, k {:trigger r.todo[t][k]} :: 0 <= t < |r.todo| && 0 <= k < |r.todo[t]| ==> r.todo[t][k] < |target|
  }

  lemma StaysWritable(r: Race, target: Vec, t: nat)
    requires Writable(r, target) && t < |r.todo| && r.todo[t] != []
    ensures r.todo[t][0] < |target| && Writable(WriteNext(r, target, t), target)
  {
    var r' := WriteNext(r, target, t);
    forall u, k | 0 <= u < |r'.todo| && 0 <= k < |r'.todo[u]| ensures r'.todo[u][k] < |target| {
      assert r'.todo[u][k] == if u == t then r.todo[t][k + 1] else r.todo[u][k];
    }
  }

  /** Each element is right already, or some thread still has it to write. */
  ghost predicate Covered(r: Race, target: Vec, e: nat)
    requires |r.out| == |target| && e < |target|
  {
    r.out[e] == target[e] || exists t :: 0 <= t < |r.todo| && e in r.todo[t]
  }

  predicate Finished(r: Race) {
    forall t :: 0 <= t < |r.todo| ==> r.todo[t] == []
  }

  lemma WriteKeepsCovered(r: Race, target: Vec, t: nat, e: nat)
    requires Writable(r, target) && t < |r.todo| && r.todo[t] != [] && r.todo[t][0] < |target|
    requires e < |target| && Covered(r, target, e)
    ensures Covered(WriteNext(r, target, t), target, e)
  {
    var r' := WriteNext(r, target, t);
    if r.out[e] != target[e] && e != r.todo[t][0] {
      var u :| 0 <= u < |r.todo| && e in r.todo[u];
      assert e in r'.todo[u] by {
        if u == t {
          var k :| 0 <= k < |r.todo[t]| && r.todo[t][k] == e;
          assert r.todo[t][1..][k - 1] == e;
        }
      }
    }
  }

  /** In whatever order the threads take their turns, once they are done every covered element is right. */
  lemma {:induction false} InterleavingIsSequential(r: Race, target: Vec, schedule: seq<nat>, e: nat)
    requires Writable(r, target) && e < |target| && Covered(r, target, e)
    requires Finished(Interleave(r, target, schedule))
    ensures |Interleave(r, target, schedule).out| == |target|
    ensures Interleave(r, target, schedule).out[e] == target[e]
    decreases |schedule|
  {
    if schedule != [] {
      var t := schedule[0];
      if t < |r.todo| && r.todo[t] != [] {
        StaysWritable(r, target, t);
        WriteKeepsCovered(r, target, t, e);
        InterleavingIsSequential(WriteNext(r, target, t), target, schedule[1..], e);
      } else {
        InterleavingIsSequential(r, target, schedule[1..], e);
      }
    }
  }

  /** The elements of thread t's chunk, in whatever order its decoder writes them. */
  ghost predicate WritesChunk(todo: seq<nat>, f: Format, blocks: nat, threads: nat, t: nat)
    requires threads > 0
  {
    && (forall i, j :: 0 <= i < j < |todo| ==> todo[i] != todo[j])
    && (forall e: nat {:trigger e in todo} ::
          e in todo <==> e < blocks * f.Size() && InChunk(blocks, threads, t, e / f.Size()))
  }

  lemma BlockOfElement(blocks: nat, size: nat, e: nat)
    requires size > 0 && e < blocks * size
    ensures e / size < blocks
  {
    assert e == e / size * size + e % size;
    if e / size >= blocks {
      MulMonotone(blocks, e / size, size);
      assert false;
    }
  }

  /** No two threads ever write the same element, and every element has a thread that writes it. */
  lemma ChunkWritersAreUnique(todo: seq<seq<nat>>, f: Format, blocks: nat, threads: nat, e: nat, t: nat)
    requires threads > 0 && |todo| == threads && e < blocks * f.Size() && t < threads
    requires forall u: nat :: u < threads ==> WritesChunk(todo[u], f, blocks, threads, u)
    ensures e / f.Size() < blocks
    ensures e in todo[t] <==> t == Owner(blocks, threads, e / f.Size())
  {
    BlockOfElement(blocks, f.Size(), e);
    ChunksPartition(blocks, threads, e / f.Size(), t);
  }

  /**
   * Threads that each write their own chunk, in any order and interleaved in any way, end with exactly
   * what one thread would have written.
   */
  lemma ThreadsAreSequential(out: Vec, target: Vec, todo: seq<seq<nat>>, f: Format, blocks: nat, threads: nat,
                             schedule: seq<nat>)
    requires threads > 0 && |todo| == threads && |out| == |target| == blocks * f.Size()
    requires forall t: nat :: t < threads ==> WritesChunk(todo[t], f, blocks, threads, t)
    ensures Writable(Race(out, todo), target)
    ensures Finished(Interleave(Race(out, todo), target, schedule)) ==>
      Interleave(Race(out, todo), target, schedule).out == target
  {
    var r := Race(out, todo);
    forall t, k | 0 <= t < |r.todo| && 0 <= k < |r.todo[t]| ensures r.todo[t][k] < |target| {
      assert r.todo[t][k] in todo[t];
    }
    if Finished(Interleave(r, target, schedule)) {
      var last := Interleave(r, target, schedule);
      forall e: nat | e < |target|
        ensures |last.out| == |target| && last.out[e] == target[e]
      {
        ChunkWritersAreUnique(todo, f, blocks, threads, e, 0);
        ChunkWritersAreUnique(todo, f, blocks, threads, e, Owner(blocks, threads, e / f.Size()));
        InterleavingIsSequential(r, target, schedule, e);
      }
      LengthKept(r, target, schedule);
    }
  }

  lemma {:induction false} LengthKept(r: Race, target: Vec, schedule: seq<nat>)
    requires Writable(r, target)
    ensures |Interleave(r, target, schedule).out| == |target|
    decreases |schedule|
  {
    if schedule != [] {
      var t := schedule[0];
      if t < |r.todo| && r.todo[t] != [] {
        StaysWritable(r, target, t);
        LengthKept(WriteNext(r, target, t), target, schedule[1..]);
      } else {
        LengthKept(r, target, schedule[1..]);
      }
    }
  }

  /** The stores of the blocks from lo up to hi, one decoder after the other. */
  function Stores(f: Format, lo: nat, hi: nat): seq<nat>
    decreases hi
  {
    if hi <= lo then [] else Stores(f, lo, hi - 1) + BlockStores(f, hi - 1)
  }

  /** All stores of thread t. */
  function ThreadStores(f: Format, blocks: nat, threads: nat, t: nat): seq<nat>
    requires threads > 0
  {
    Stores(f, Start(blocks, threads, t), End(blocks, threads, t))
  }

  lemma BlockStoresOf(f: Format, b: nat, e: nat)
    ensures e in BlockStores(f, b) <==> e / f.Size() == b
  {
    var s, size := BlockStores(f, b), f.Size();
    if k: nat :| k < |s| && s[k] == e {
      PlacesPermute(f, k);
      DivisionIsUnique(e, b, Place(f, k), size);
    }
    if e / size == b {
      var i := e % size;
      assert e == b * size + i;
      PlacesPermute(f, i);
      assert s[StoreOf(f, i)] == e;
    }
  }

  lemma BlockStoresDiffer(f: Format, b: nat, j: nat, k: nat)
    requires j < k < f.Size()
    ensures BlockStores(f, b)[j] != BlockStores(f, b)[k]
  {
    hide Place, StoreOf, Format.Size;
    PlacesPermute(f, j);
    PlacesPermute(f, k);
  }

  ghost predicate Distinct(s: seq<nat>) {
    forall i, j :: 0 <= i < j < |s| ==> s[i] != s[j]
  }

  lemma DistinctConcat(a: seq<nat>, b: seq<nat>)
    requires Distinct(a) && Distinct(b) && forall e :: e in a ==> e !in b
    ensures Distinct(a + b)
  {
    var s := a + b;
    forall i, j | 0 <= i < j < |s|
      ensures s[i] != s[j]
    {
      if i < |a| <= j {
        assert a[i] in a && b[j - |a|] in b;
      }
    }
  }

  /** The stores of a run of blocks are its elements, each once. */
  lemma {:induction false} StoresOf(f: Format, lo: nat, hi: nat)
    ensures forall e: nat {:trigger e in Stores(f, lo, hi)} :: e in Stores(f, lo, hi) <==> lo <= e / f.Size() < hi
    ensures Distinct(Stores(f, lo, hi))
    decreases hi
  {
    hide BlockStores, Format.Size, Distinct;
    if hi <= lo {
      assert Distinct([]) by { NothingDiffers(); }
    } else {
      StoresOf(f, lo, hi - 1);
      var a, b := Stores(f, lo, hi - 1), BlockStores(f, hi - 1);
      forall e: nat ensures e in b <==> e / f.Size() == hi - 1 {
        BlockStoresOf(f, hi - 1, e);
      }
      assert forall e: nat :: e in a + b <==> e in a || e in b;
      BlockIsDistinct(f, hi - 1);
      DistinctConcat(a, b);
    }
  }

  lemma NothingDiffers()
    ensures Distinct([])
  {
  }

  lemma BlockIsDistinct(f: Format, b: nat)
    ensures Distinct(BlockStores(f, b))
  {
    hide BlockStores;
    forall i: nat, j: nat | i < j < f.Size() ensures BlockStores(f, b)[i] != BlockStores(f, b)[j] {
      BlockStoresDiffer(f, b, i, j);
    }
  }

  /** A thread that decodes its chunk block by block stores to each element of the chunk once, and to no other. */
  lemma ThreadWritesChunk(f: Format, blocks: nat, threads: nat, t: nat)
    requires threads > 0 && t < threads
    ensures WritesChunk(ThreadStores(f, blocks, threads, t), f, blocks, threads, t)
  {
    hide PerThread, Stores, Format.Size;
    var lo, hi := Start(blocks, threads, t), End(blocks, threads, t);
    StoresOf(f, lo, hi);
    forall e: nat ensures lo <= e / f.Size() < hi <==> e < blocks * f.Size() && lo <= e / f.Size() < hi {
      assert e == e / f.Size() * f.Size() + e % f.Size();
      if e / f.Size() < hi {
        RowFits(e / f.Size(), blocks, f.Size());
      }
    }
  }

  /**
   * Decoders running on any number of threads, interleaved store by store in any way, end with exactly
   * what decoding the blocks one after the other leaves.
   */
  lemma DecodersAreSequential(out: Vec, target: Vec, f: Format, blocks: nat, threads: nat, schedule: seq<nat>)
    requires threads > 0 && |out| == |target| == blocks * f.Size()
    ensures var r := Race(out, seq(threads, t requires 0 <= t => ThreadStores(f, blocks, threads, t)));
      Writable(r, target)
      && (Finished(Interleave(r, target, schedule)) ==> Interleave(r, target, schedule).out == target)
  {
    hide ThreadStores, WritesChunk, Interleave, Format.Size, Writable;
    var todo := seq(threads, t requires 0 <= t => ThreadStores(f, blocks, threads, t));
    forall t: nat | t < threads ensures WritesChunk(todo[t], f, blocks, threads, t) {
      ThreadWritesChunk(f, blocks, threads, t);
    }
    ThreadsAreSequential(out, target, todo, f, blocks, threads, schedule);
  }

  /** Element e of a tensor. */
  function TensorElement(f: Format, h: Half, raw: Raw, blocks: nat, e: nat): real
    requires Holds(f, raw, blocks) && e < blocks * f.Size()
  {
    BlockOfElement(blocks, f.Size(), e);
    RowFits(e / f.Size(), blocks, f.Bytes());
    Element(f, h, raw, e / f.Size() * f.Bytes(), e % f.Size())
  }

  /** All blocks decoded one after the other. */
  function TensorValues(f: Format, h: Half, raw: Raw, blocks: nat): (v: Vec)
    requires Holds(f, raw, blocks)
    ensures |v| == blocks * f.Size()
  {
    seq(blocks * f.Size(), e requires 0 <= e < blocks * f.Size() && Holds(f, raw, blocks) =>
      TensorElement(f, h, raw, blocks, e))
  }

  lemma TensorValuesDecode(f: Format, h: Half, raw: Raw, blocks: nat, b: nat)
    requires Holds(f, raw, blocks) && b < blocks
    ensures Decoded(TensorValues(f, h, raw, blocks), f, h, raw, blocks, b)
  {
    hide Element, Format.Size, Format.Bytes;
    var v, size := TensorValues(f, h, raw, blocks), f.Size();
    RowFits(b, blocks, size);
    RowFits(b, blocks, f.Bytes());
    forall i: nat | i < size
      ensures v[b * size + i] == BlockValues(f, h, raw, blocks, b)[i]
    {
      DivisionIsUnique(b * size + i, b, i, size);
    }
  }

  /**
   * Decoders on any number of threads, whatever the output held before: after any store-by-store schedule
   * that lets them finish every block is decoded.
   */
  lemma DecodersDecode(out: Vec, f: Format, h: Half, raw: Raw, blocks: nat, threads: nat, schedule: seq<nat>)
    requires threads > 0 && Holds(f, raw, blocks) && |out| == blocks * f.Size()
    ensures var r := Race(out, seq(threads, t requires 0 <= t => ThreadStores(f, blocks, threads, t)));
      var target := TensorValues(f, h, raw, blocks);
      Writable(r, target) && (Finished(Interleave(r, target, schedule)) ==>
        forall b: nat :: b < blocks ==> Decoded(Interleave(r, target, schedule).out, f, h, raw, blocks, b))
  {
    hide ThreadStores, Interleave, Format.Size, Writable, Decoded, TensorValues, Finished;
    DecodersAreSequential(out, TensorValues(f, h, raw, blocks), f, blocks, threads, schedule);
    forall b: nat | b < blocks
      ensures Decoded(TensorValues(f, h, raw, blocks), f, h, raw, blocks, b)
    {
      TensorValuesDecode(f, h, raw, blocks, b);
    }
  }

  // ---------------------------------------------------------------------------------------------
  // The decoder
  // ---------------------------------------------------------------------------------------------

  /** How many blocks the first t threads still have to decode. */
  function Remaining(n: nat, threads: nat, next: seq<nat>, t: nat): nat
    requires threads > 0 && t <= |next| == threads
  {
    if t == 0 then 0
    else
      var last := t - 1;
      var end := End(n, threads, last);
      Remaining(n, threads, next, last) + if next[last] < end then end - next[last] else 0
  }

  lemma {:induction false} RemainingDrops(n: nat, threads: nat, next: seq<nat>, u: nat, t: nat)
    requires threads > 0 && t <= |next| == threads && u < threads && next[u] < End(n, threads, u)
    ensures Remaining(n, threads, next[u := next[u] + 1], t) == Remaining(n, threads, next, t) - if u < t then 1 else 0
  {
    if t > 0 {
      RemainingDrops(n, threads, next, u, t - 1);
    }
  }

  /** Every thread has decoded its blocks up to its next one. */
  ghost predicate Progress(out: Vec, f: Format, h: Half, raw: Raw, blocks: nat, threads: nat, next: seq<nat>)
    requires threads > 0 && |next| == threads && Holds(f, raw, blocks)
  {
    forall b: nat :: b < blocks && b < next[Owner(blocks, threads, b)] ==> Decoded(out, f, h, raw, blocks, b)
  }

  lemma StepProgresses(out: Vec, f: Format, h: Half, raw: Raw, blocks: nat, threads: nat, next: seq<nat>, t: nat)
    requires threads > 0 && |next| == threads && Holds(f, raw, blocks) && blocks * f.Size() <= |out|
    requires Progress(out, f, h, raw, blocks, threads, next)
    requires t < threads && Start(blocks, threads, t) <= next[t] < End(blocks, threads, t)
    ensures next[t] < blocks && next[t] * f.Size() + f.Size() <= |out|
    ensures Progress(Put(out, f, next[t], BlockValues(f, h, raw, blocks, next[t])), f, h, raw, blocks, threads,
                     next[t := next[t] + 1])
  {
    hide Decoded, Owner, BlockValues, PerThread, Put;
    var b := next[t];
    ChunksPartition(blocks, threads, b, t);
    RowFits(b, blocks, f.Size());
    forall c: nat | c < blocks && c < next[t := b + 1][Owner(blocks, threads, c)]
      ensures Decoded(Put(out, f, b, BlockValues(f, h, raw, blocks, b)), f, h, raw, blocks, c)
    {
      PutDecodes(out, f, h, raw, blocks, b, c);
    }
  }

  lemma ProgressEnds(out: Vec, f: Format, h: Half, raw: Raw, blocks: nat, threads: nat, next: seq<nat>)
    requires threads > 0 && |next| == threads && Holds(f, raw, blocks)
    requires Progress(out, f, h, raw, blocks, threads, next)
    requires forall t: nat :: t < threads ==> next[t] >= End(blocks, threads, t)
    ensures forall b: nat :: b < blocks ==> Decoded(out, f, h, raw, blocks, b)
  {
    hide Decoded, Owner;
    forall b: nat | b < blocks ensures Decoded(out, f, h, raw, blocks, b) {
      ChunksPartition(blocks, threads, b, Owner(blocks, threads, b));
    }
  }

  lemma ProgressStarts(out: Vec, f: Format, h: Half, raw: Raw, blocks: nat, threads: nat, next: seq<nat>)
    requires threads > 0 && |next| == threads && Holds(f, raw, blocks)
    requires forall t: nat :: t < threads ==> next[t] == Start(blocks, threads, t)
    ensures Progress(out, f, h, raw, blocks, threads, next)
  {
    hide Decoded, PerThread;
  }

  /** What each thread has stored: its blocks up to its next one. */
  ghost predicate Logged(f: Format, blocks: nat, threads: nat, next: seq<nat>, logs: seq<seq<nat>>)
    requires threads > 0 && |next| == threads
  {
    && |logs| == threads
    && (forall t: nat :: t < threads ==> logs[t] == Stores(f, Start(blocks, threads, t), next[t]))
    && (forall t: nat :: t < threads ==>
          next[t] == Start(blocks, threads, t) || Start(blocks, threads, t) < next[t] <= End(blocks, threads, t))
  }

  lemma LogStarts(f: Format, blocks: nat, threads: nat, next: seq<nat>)
    requires threads > 0 && |next| == threads && forall t: nat :: t < threads ==> next[t] == Start(blocks, threads, t)
    ensures Logged(f, blocks, threads, next, seq(threads, _ => []))
  {
    hide Start, BlockStores;
  }

  lemma LogSteps(f: Format, blocks: nat, threads: nat, next: seq<nat>, logs: seq<seq<nat>>, t: nat)
    requires threads > 0 && |next| == threads && Logged(f, blocks, threads, next, logs)
    requires t < threads && next[t] < End(blocks, threads, t)
    ensures Logged(f, blocks, threads, next[t := next[t] + 1], logs[t := logs[t] + BlockStores(f, next[t])])
  {
    hide Start, End, BlockStores;
  }

  lemma LogEnds(f: Format, blocks: nat, threads: nat, next: seq<nat>, logs: seq<seq<nat>>)
    requires threads > 0 && |next| == threads && Logged(f, blocks, threads, next, logs)
    requires forall t: nat :: t < threads ==> next[t] >= End(blocks, threads, t)
    ensures |logs| == threads && forall t: nat :: t < threads ==> logs[t] == ThreadStores(f, blocks, threads, t)
  {
    hide Start, End, BlockStores;
  }

  /** Chunk by chunk, whichever thread moves next; each thread makes exactly its own stores. */
  method DecodeChunks(f: Format, h: Half, raw: Raw, blocks: nat, threads: nat, dst: array<real>)
    returns (ghost logs: seq<seq<nat>>)
    requires threads > 0 && Holds(f, raw, blocks) && blocks * f.Size() <= dst.Length
    modifies dst
    ensures forall b: nat :: b < blocks ==> Decoded(dst[..], f, h, raw, blocks, b)
    ensures dst[blocks * f.Size()..] == old(dst[blocks * f.Size()..])
    ensures |logs| == threads && forall t: nat :: t < threads ==> logs[t] == ThreadStores(f, blocks, threads, t)
  {
    hide Decoded, Owner, BlockValues, Put, Progress, End, Start, Logged, BlockStores;
    var next: seq<nat> := seq(threads, t requires 0 <= t => Start(blocks, threads, t));
    logs := seq(threads, _ => []);
    ProgressStarts(dst[..], f, h, raw, blocks, threads, next);
    LogStarts(f, blocks, threads, next);
    while exists t :: 0 <= t < threads && next[t] < End(blocks, threads, t)
      invariant |next| == |logs| == threads && Progress(dst[..], f, h, raw, blocks, threads, next)
      invariant forall t: nat :: t < threads ==> Start(blocks, threads, t) <= next[t]
      invariant Logged(f, blocks, threads, next, logs)
      invariant dst[blocks * f.Size()..] == old(dst[blocks * f.Size()..])
      decreases Remaining(blocks, threads, next, threads)
    {
      var t :| 0 <= t < threads && next[t] < End(blocks, threads, t);
      RemainingDrops(blocks, threads, next, t, threads);
      StepProgresses(dst[..], f, h, raw, blocks, threads, next, t);
      LogSteps(f, blocks, threads, next, logs, t);
      PutKeepsTail(dst[..], f, h, raw, blocks, next[t]);
      ghost var written := DecodeBlock(f, h, raw, blocks, next[t], dst);
      logs := logs[t := logs[t] + written];
      next := next[t := next[t] + 1];
    }
    ProgressEnds(dst[..], f, h, raw, blocks, threads, next);
    LogEnds(f, blocks, threads, next, logs);
  }

  lemma PutKeepsTail(out: Vec, f: Format, h: Half, raw: Raw, blocks: nat, b: nat)
    requires Holds(f, raw, blocks) && b < blocks && blocks * f.Size() <= |out|
    ensures b * f.Size() + f.Size() <= |out|
    ensures Put(out, f, b, BlockValues(f, h, raw, blocks, b))[blocks * f.Size()..] == out[blocks * f.Size()..]
  {
    RowFits(b, blocks, f.Size());
    var v, lo := BlockValues(f, h, raw, blocks, b), b * f.Size();
    hide BlockValues;
    TailKept(out, lo, v, blocks * f.Size());
  }

  lemma TailKept(out: Vec, lo: nat, v: Vec, k: nat)
    requires lo + |v| <= k <= |out|
    ensures (out[..lo] + v + out[lo + |v|..])[k..] == out[k..]
  {
    OutsideKept(out, lo, v, k, |out| - k);
    assert out[k..] == out[k..k + (|out| - k)];
  }

  /** Block after block on the calling thread. */
  method DecodeInOrder(f: Format, h: Half, raw: Raw, blocks: nat, dst: array<real>)
    requires Holds(f, raw, blocks) && blocks * f.Size() <= dst.Length
    modifies dst
    ensures forall b: nat :: b < blocks ==> Decoded(dst[..], f, h, raw, blocks, b)
    ensures dst[blocks * f.Size()..] == old(dst[blocks * f.Size()..])
  {
    hide Decoded, BlockValues, Put;
    var b := 0;
    while b < blocks
      invariant 0 <= b <= blocks && dst[blocks * f.Size()..] == old(dst[blocks * f.Size()..])
      invariant forall c: nat :: c < b ==> Decoded(dst[..], f, h, raw, blocks, c)
    {
      ghost var before := dst[..];
      RowFits(b, blocks, f.Size());
      PutKeepsTail(before, f, h, raw, blocks, b);
      ghost var written := DecodeBlock(f, h, raw, blocks, b, dst);
      forall c: nat | c <= b ensures Decoded(dst[..], f, h, raw, blocks, c) {
        PutDecodes(before, f, h, raw, blocks, b, c);
      }
      b := b + 1;
    }
  }

  /** Decode a whole tensor, on one thread or on up to four. */
  method Dequantise(f: Format, h: Half, raw: Raw, n: nat, hardware: nat, dst: array<real>) returns (ok: bool)
    requires n <= dst.Length && (n % f.Size() == 0 ==> Holds(f, raw, n / f.Size()))
    modifies dst
    ensures ok <==> n != 0 && n % f.Size() == 0
    ensures ok ==> forall b: nat :: b < n / f.Size() ==> Decoded(dst[..], f, h, raw, n / f.Size(), b)
    ensures if ok then dst[n..] == old(dst[n..]) else dst[..] == old(dst[..])
  {
    hide Decoded;
    if n == 0 || n % f.Size() != 0 {
      return false;
    }
    var blocks := n / f.Size();
    assert n == blocks * f.Size();
    var threads := if hardware == 0 then 1 else if hardware < 4 then hardware else 4;
    if threads <= 1 || blocks < f.Threshold() {
      DecodeInOrder(f, h, raw, blocks, dst);
    } else {
      ghost var logs := DecodeChunks(f, h, raw, blocks, threads, dst);
    }
    return true;
  }
}
