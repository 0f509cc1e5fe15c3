/** Loading one tensor: from the descriptor in the file to decoded elements. */
module HydroXLModels {
  import opened Arithmetic
  import opened ModelTypes
  import opened Utf8
  import opened LittleEndian
  import opened GgufTensors
  import opened GgufFormat
  import opened GGUFLoaders
  import Q = QuantFormats
  import Dequant = ParallelDequant

  // ---------------------------------------------------------------------------------------------
  // Types on disk
  // ---------------------------------------------------------------------------------------------

  /** The decoder of a type. 32-bit floats need none, the other types have none. */
  function FormatOf(kind: nat): Option<Dequant.Format> {
    if kind == F16 then Some(Dequant.F16)
    else if kind == 6 then Some(Dequant.FQ50)
    else if kind == 7 then Some(Dequant.FQ51)
    else if kind == 8 then Some(Dequant.FQ80)
    else if kind == 11 then Some(Dequant.FQ3K)
    else if kind == 12 then Some(Dequant.FQ4K)
    else if kind == 14 then Some(Dequant.FQ6K)
    else None
  }

  /** Whole blocks of a quantised type take their bytes, unless that leaves 64 bits. */
  lemma WholeBlocks(kind: nat, n: nat)
    requires kind != F32 && kind != F16 && n * BlockOf(kind).0 < TWO_64
    ensures BytesOf(kind, n * BlockOf(kind).0) == Some(n * BlockOf(kind).1 % TWO_64)
  {
    var (size, bytes) := BlockOf(kind);
    assert size == 1 || size == 32 || size == 256;
    hide BlockOf;
    assert n * size + size <= TWO_64;
    Add64Exact(n * size, size - 1);
    RoundedUp(n, size);
    hide Add64;
  }

  lemma RoundedUp(n: nat, size: nat)
    requires size > 0
    ensures (n * size + (size - 1)) / size == n
  {
    DivisionIsUnique(n * size + (size - 1), n, size - 1, size);
  }

  /** Whole blocks take, by the loader's size, what the decoder reads, unless that leaves 64 bits. */
  lemma DiskIsDecoderIff(kind: nat, f: Dequant.Format, n: nat)
    requires FormatOf(kind) == Some(f) && n < TWO_64 && n % f.Size() == 0
    ensures BytesOf(kind, n) == Some(n / f.Size() * f.Bytes()) <==> n / f.Size() * f.Bytes() < TWO_64
  {
    if kind == F16 {
      assert n / 1 == n;
    } else {
      BlockIsFormat(kind, f);
      WholeBlocksIff(kind, n / f.Size());
      hide BlockOf, BytesOf, FormatOf, Dequant.Format.Size, Dequant.Format.Bytes;
      assert n == n / f.Size() * f.Size();
    }
  }

  lemma WholeBlocksIff(kind: nat, n: nat)
    requires kind != F32 && kind != F16
    ensures n * BlockOf(kind).0 < TWO_64 ==>
      (BytesOf(kind, n * BlockOf(kind).0) == Some(n * BlockOf(kind).1) <==> n * BlockOf(kind).1 < TWO_64)
  {
    hide BlockOf, BytesOf;
    if n * BlockOf(kind).0 < TWO_64 {
      WholeBlocks(kind, n);
    }
  }

  /** The loader's table of blocks and the decoders' own. */
  lemma BlockIsFormat(kind: nat, f: Dequant.Format)
    requires FormatOf(kind) == Some(f) && kind != F16
    ensures BlockOf(kind) == (f.Size(), f.Bytes()) && kind != F32
  {
  }

  /** It can only leave 64 bits for the types that take a byte or more for an element. */
  lemma DiskIsDecoder(kind: nat, f: Dequant.Format, n: nat)
    requires FormatOf(kind) == Some(f) && n < TWO_64 && n % f.Size() == 0
    requires f.F16? || f.FQ80? ==> n < 0x2000_0000_0000_0000
    ensures BytesOf(kind, n) == Some(n / f.Size() * f.Bytes())
  {
    hide BytesOf, BlockOf;
    DiskIsDecoderIff(kind, f, n);
    assert n == n / f.Size() * f.Size();
  }

  /** Bytes of a half-precision number. */
  const HALF := 2

  /** A block is as long as its fields together: scales, minimums, high bits, quants, sums. */
  lemma BlocksAreFields()
    ensures BlockOf(2) == (32, HALF + 32 * 4 / 8)
    ensures BlockOf(3) == (32, HALF + HALF + 32 * 4 / 8)
    ensures BlockOf(6) == (32, HALF + 32 / 8 + 32 * 4 / 8)
    ensures BlockOf(7) == (32, HALF + HALF + 32 / 8 + 32 * 4 / 8)
    ensures BlockOf(8) == (32, HALF + 32)
    ensures BlockOf(9) == (32, HALF + HALF + 32)
    ensures BlockOf(10) == (256, 16 + 256 * 2 / 8 + HALF + HALF)
    ensures BlockOf(11) == (256, 256 / 8 + 256 * 2 / 8 + 16 * 6 / 8 + HALF)
    ensures BlockOf(12) == (256, HALF + HALF + 8 * (6 + 6) / 8 + 256 * 4 / 8)
    ensures BlockOf(13) == (256, HALF + HALF + 8 * (6 + 6) / 8 + 256 / 8 + 256 * 4 / 8)
    ensures BlockOf(14) == (256, 256 * 4 / 8 + 256 * 2 / 8 + 16 + HALF)
    ensures BlockOf(15) == (256, 4 + 256 + 16 * 2)
  {
  }

  /** Numbers take what their width says, where the loader does not refuse. */
  lemma NumbersAreWide(n: nat)
    requires n < TWO_64
    ensures BytesOf(F32, n) == if n * 4 < TWO_64 then Some(n * 4) else None
    ensures BytesOf(F16, n) == if n * HALF < TWO_64 then Some(n * HALF) else None
  {
  }

  // ---------------------------------------------------------------------------------------------
  // What opening a file leaves
  // ---------------------------------------------------------------------------------------------

  /** A descriptor as it is read from a file: its size is computed from its shape. */
  predicate FromFile(t: TensorDesc) {
    && t.shape != [] && (forall d :: d in t.shape ==> 0 < d < TWO_64)
    && Product(t.shape) < TWO_64 && t.offset < TWO_64
    && BytesOf(t.kind, Product(t.shape)) == Some(t.bytes)
  }

  lemma {:induction false} DimsFromFile(file: Bytes, pos: nat, n: nat, elements: nat)
    requires elements < TWO_64 && ReadDims(file, pos, n, elements).Got?
    ensures var (shape, product) := ReadDims(file, pos, n, elements).value;
      && |shape| == n && product == elements * Product(shape)
      && forall d :: d in shape ==> 0 < d < TWO_64
    decreases n
  {
    if n > 0 {
      var d := ReadNumber(file, pos, 8);
      GuardIsExact(elements, d.value);
      DimsFromFile(file, d.next, n - 1, elements * d.value);
      var shape := ReadDims(file, d.next, n - 1, elements * d.value).value.0;
      assert elements * d.value * Product(shape) == elements * (d.value * Product(shape));
      assert ([d.value] + shape)[1..] == shape;
    }
  }

  lemma TensorFromFile(file: Bytes, pos: nat)
    requires ReadTensor(file, pos).Got?
    ensures FromFile(ReadTensor(file, pos).value)
  {
    hide BytesOf, ReadDims, ReadString;
    var name := ReadString(file, pos);
    var n := ReadNumber(file, name.next, 4);
    DimsFromFile(file, n.next, n.value, 1);
    Powers();
  }

  lemma {:induction false} TensorsFromFile(file: Bytes, pos: nat, count: nat, ts: seq<TensorDesc>)
    requires ReadTensors(file, pos, count, ts).Got? && forall i :: 0 <= i < |ts| ==> FromFile(ts[i])
    ensures var r := ReadTensors(file, pos, count, ts).value;
      forall i :: 0 <= i < |r| ==> FromFile(r[i])
    decreases count
  {
    hide ReadTensor, FromFile;
    if count > 0 {
      TensorFromFile(file, pos);
      var t := ReadTensor(file, pos);
      TensorsFromFile(file, t.next, count - 1, ts + [t.value]);
    }
  }

  /** What a loader holds once it opened its file, or nothing. */
  ghost predicate Parsed(loader: GGUFLoader)
    reads loader
  {
    && loader.dataOffset < TWO_64
    && forall i :: 0 <= i < |loader.tensors| ==> FromFile(loader.tensors[i])
  }

  /** Opening a file leaves descriptors as they are read, and a place for their data. */
  lemma OpenedIsParsed(loader: GGUFLoader)
    requires loader.isOpen
    requires ReadFile(loader.file).Got?
    requires ReadFile(loader.file).value == Opened(loader.version, loader.kv, loader.tensors, loader.dataOffset)
    ensures Parsed(loader)
  {
    hide ReadHeader, ReadEntries, ReadTensors, Padded, Alignment, FromFile;
    var header := ReadHeader(loader.file, 0);
    var kv := ReadEntries(loader.file, header.next, header.value.entries, map[]);
    TensorsFromFile(loader.file, kv.next, header.value.tensors, []);
  }

  // ---------------------------------------------------------------------------------------------
  // Loading
  // ---------------------------------------------------------------------------------------------

  /** The number a 32-bit pattern stands for, lowest byte first. */
  type Single = (U8, U8, U8, U8) -> real

  function RawOf(data: Bytes): (raw: Q.Raw)
    ensures |raw| == |data|
  {
    seq(|data|, i requires 0 <= i < |data| => data[i] as bv8)
  }

  /** The first descriptor with a name. */
  ghost predicate IsFirst(tensors: seq<TensorDesc>, name: Bytes, i: nat) {
    i < |tensors| && tensors[i].name == name && forall j :: 0 <= j < i ==> tensors[j].name != name
  }

  method FindTensor(loader: GGUFLoader, name: Bytes) returns (found: bool, i: nat)
    ensures found ==> IsFirst(loader.tensors, name, i)
    ensures !found ==> forall j :: 0 <= j < |loader.tensors| ==> loader.tensors[j].name != name
  {
    i := 0;
    while i < |loader.tensors|
      invariant 0 <= i <= |loader.tensors|
      invariant forall j :: 0 <= j < i ==> loader.tensors[j].name != name
    {
      if loader.tensors[i].name == name {
        return true, i;
      }
      i := i + 1;
    }
    return false, 0;
  }

  lemma {:induction false} ProductSnoc(shape: seq<nat>, d: nat)
    ensures Product(shape + [d]) == Product(shape) * d
  {
    if shape == [] {
      assert Product([d]) == d * Product([]);
    } else {
      ProductSnoc(shape[1..], d);
      assert (shape + [d])[1..] == shape[1..] + [d];
      assert shape[0] * (Product(shape[1..]) * d) == shape[0] * Product(shape[1..]) * d;
    }
  }

  /** Without zeros a product is no smaller than that of its first factors. */
  lemma {:induction false} ProductGrows(shape: seq<nat>, i: nat)
    requires i <= |shape| && forall j :: 0 <= j < |shape| ==> shape[j] > 0
    ensures Product(shape[..i]) <= Product(shape)
    decreases |shape| - i
  {
    if i == |shape| {
      assert shape[..i] == shape;
    } else {
      ProductGrows(shape, i + 1);
      var d := shape[i];
      ProductSnoc(shape[..i], d);
      assert shape[..i + 1] == shape[..i] + [d];
      MulMonotone(1, d, Product(shape[..i]));
    }
  }

  /** Multiply the dimensions; refused for a zero, or when the product leaves 64 bits. */
  method CountElements(shape: seq<nat>) returns (ok: bool, n: nat)
    requires forall d :: d in shape ==> d < TWO_64
    ensures ok <==> (forall j :: 0 <= j < |shape| ==> shape[j] > 0) && Product(shape) < TWO_64
    ensures ok ==> n == Product(shape)
  {
    assert Product(shape[..0]) == 1;
    hide Product;
    n := 1;
    var i := 0;
    while i < |shape|
      invariant 0 <= i <= |shape| && n == Product(shape[..i]) < TWO_64
      invariant forall j :: 0 <= j < i ==> shape[j] > 0
    {
      var d := shape[i];
      if d == 0 {
        return false, 0;
      }
      GuardIsExact(n, d);
      ProductSnoc(shape[..i], d);
      assert shape[..i + 1] == shape[..i] + [d];
      if n > (TWO_64 - 1) / d {
        if forall j :: 0 <= j < |shape| ==> shape[j] > 0 {
          ProductGrows(shape, i + 1);
        }
        return false, 0;
      }
      n := n * d;
      i := i + 1;
    }
    assert shape[..i] == shape;
    return true, n;
  }

  /** The bytes a tensor cannot do with less than, as 64-bit arithmetic computes them; none for other types. */
  function LeastBytes(kind: nat, n: nat): nat {
    if kind == F32 then n * 4 % TWO_64
    else if FormatOf(kind).None? then 0
    else n / FormatOf(kind).value.Size() * FormatOf(kind).value.Bytes() % TWO_64
  }

  predicate WholeBlocksOf(kind: nat, n: nat) {
    kind == F32 || (FormatOf(kind).Some? && n % FormatOf(kind).value.Size() == 0)
  }

  /** A tensor loads: wanted, of a type that is decoded, in whole blocks, allocatable, and inside the file. */
  predicate Loads(open: bool, file: Bytes, dataOffset: nat, t: TensorDesc, expected: nat, largest: nat) {
    var n := Product(t.shape);
    && open && (expected == 0 || n == expected)
    && WholeBlocksOf(t.kind, n) && n * 4 <= largest
    && dataOffset + t.offset + t.bytes <= |file|
  }

  /** The elements of a tensor, out of its bytes. */
  ghost predicate Loaded(out: seq<real>, kind: nat, n: nat, data: Bytes, h: Q.Half, single: Single) {
    && |out| == n
    && if kind == F32 then
         |data| == n * 4
         && forall i :: 0 <= i < n ==> out[i] == single(data[4 * i], data[4 * i + 1], data[4 * i + 2], data[4 * i + 3])
       else
         && FormatOf(kind).Some?
         && var f := FormatOf(kind).value;
           var blocks := n / f.Size();
           n == blocks * f.Size() && |data| == blocks * f.Bytes()
           && forall b: nat :: b < blocks ==> Dequant.Decoded(out, f, h, RawOf(data), blocks, b)
  }

  /** The elements of a tensor, out of its place in the file. */
  ghost predicate LoadedFrom(out: seq<real>, file: Bytes, dataOffset: nat, t: TensorDesc, h: Q.Half, single: Single) {
    var at := dataOffset + t.offset;
    at + t.bytes <= |file| && Loaded(out, t.kind, Product(t.shape), file[at..at + t.bytes], h, single)
  }

  /** A reader of 16 bits, given what their patterns stand for: lowest byte first. */
  ghost predicate Reads(h: Q.Half, g: nat -> real) {
    forall x: nat :: x < 0x1_0000 ==> h((x % 256) as bv8, (x / 256) as bv8) == g(x)
  }

  /** The reader of 32 bits. */
  function SingleOf(g: nat -> real): Single {
    (a: U8, b: U8, c: U8, d: U8) => g(Number([a, b, c, d]))
  }

  lemma {:induction false} NumberAt(xs: seq<nat>, k: nat, i: nat)
    requires i < |xs|
    ensures k * i + k <= |WriteNumbers(xs, k)| && WriteNumbers(xs, k)[k * i..k * i + k] == Spell(xs[i], k)
  {
    hide Spell;
    var first, rest := Spell(xs[0], k), WriteNumbers(xs[1..], k);
    if i > 0 {
      NumberAt(xs[1..], k, i - 1);
      assert k * i == k + k * (i - 1);
      BehindFirst(first, rest, k * (i - 1), k);
    }
  }

  lemma BehindFirst(first: Bytes, rest: Bytes, p: nat, n: nat)
    requires p + n <= |rest|
    ensures (first + rest)[|first| + p..|first| + p + n] == rest[p..p + n]
  {
  }

  /** Half-precision numbers written lowest byte first load, each in its place. */
  lemma HalvesLoad(out: seq<real>, xs: seq<nat>, g: nat -> real, h: Q.Half, single: Single, i: nat)
    requires i < |xs| && xs[i] < 0x1_0000 && Reads(h, g)
    requires Loaded(out, F16, |xs|, WriteNumbers(xs, 2), h, single)
    ensures i < |out| && out[i] == g(xs[i])
  {
    TwoBytesAt(xs, i);
    hide *;
    LoadedHalf(out, WriteNumbers(xs, 2), h, single, |xs|, i);
    HalfRead(h, g, xs[i]);
  }

  lemma TwoBytesAt(xs: seq<nat>, i: nat)
    requires i < |xs| && xs[i] < 0x1_0000
    ensures var data := WriteNumbers(xs, 2);
      2 * i + 2 <= |data| && data[2 * i] == xs[i] % 256 && data[2 * i + 1] == xs[i] / 256
  {
    NumberAt(xs, 2, i);
    TwoBytes(xs[i]);
    hide WriteNumbers, Spell;
    var data := WriteNumbers(xs, 2);
    assert data[2 * i] == data[2 * i..2 * i + 2][0] && data[2 * i + 1] == data[2 * i..2 * i + 2][1];
  }

  lemma TwoBytes(x: nat)
    requires x < 0x1_0000
    ensures Spell(x, 2) == [x % 256, x / 256]
  {
    assert Spell(x / 256, 1) == [x / 256] + Spell(0, 0);
  }

  lemma HalfRead(h: Q.Half, g: nat -> real, x: nat)
    requires x < 0x1_0000 && Reads(h, g)
    ensures h((x % 256) as bv8, (x / 256) as bv8) == g(x)
  {
  }

  lemma LoadedHalf(out: seq<real>, data: Bytes, h: Q.Half, single: Single, n: nat, i: nat)
    requires i < n && Loaded(out, F16, n, data, h, single)
    ensures 2 * i + 2 <= |data| && |out| == n && out[i] == h(data[2 * i] as bv8, data[2 * i + 1] as bv8)
  {
    hide Dequant.Decoded;
    assert Dequant.Decoded(out, Dequant.F16, h, RawOf(data), n, i);
    HalfAt(out, data, h, n, i);
  }

  lemma HalfAt(out: seq<real>, data: Bytes, h: Q.Half, n: nat, i: nat)
    requires i < n && Dequant.Holds(Dequant.F16, RawOf(data), n) && n * 2 <= |data|
    requires Dequant.Decoded(out, Dequant.F16, h, RawOf(data), n, i)
    ensures i < |out| && out[i] == h(data[2 * i] as bv8, data[2 * i + 1] as bv8)
  {
    var raw := RawOf(data);
    var values := Dequant.BlockValues(Dequant.F16, h, raw, n, i);
    assert |values| == 1 && values[0] == Dequant.Element(Dequant.F16, h, raw, i * 2, 0);
    hide Dequant.BlockValues;
    var half := Dequant.F16;
    assert i * half.Size() == i;
    assert out[i..i + 1] == values && out[i] == out[i..i + 1][0];
    assert raw[2 * i] == data[2 * i] as bv8 && raw[2 * i + 1] == data[2 * i + 1] as bv8;
  }

  /** Single-precision numbers written lowest byte first load, each in its place. */
  lemma SinglesLoad(out: seq<real>, xs: seq<nat>, g: nat -> real, h: Q.Half, i: nat)
    requires i < |xs| && xs[i] < 0x1_0000_0000
    requires Loaded(out, F32, |xs|, WriteNumbers(xs, 4), h, SingleOf(g))
    ensures out[i] == g(xs[i])
  {
    hide WriteNumbers, SingleOf, Spell, Dequant.Decoded;
    NumberAt(xs, 4, i);
    SingleSpelled(g, xs[i], WriteNumbers(xs, 4), 4 * i);
  }

  lemma SingleSpelled(g: nat -> real, x: nat, data: Bytes, at: nat)
    requires x < 0x1_0000_0000 && at + 4 <= |data| && data[at..at + 4] == Spell(x, 4)
    ensures SingleOf(g)(data[at], data[at + 1], data[at + 2], data[at + 3]) == g(x)
  {
    Powers();
    NumberOfSpelled(x, 4);
    hide Number, Spell, Power;
    var s: Bytes := [data[at], data[at + 1], data[at + 2], data[at + 3]];
    assert s == data[at..at + 4];
  }

  /** For what is small enough to allocate, the size in the file is the size the decoder needs. */
  lemma SizesAgree(kind: nat, n: nat)
    requires 0 < n && n * 4 < 0x8000_0000_0000_0000 && WholeBlocksOf(kind, n)
    ensures LeastBytes(kind, n) < TWO_64 && BytesOf(kind, n) == Some(LeastBytes(kind, n))
    ensures 0 < LeastBytes(kind, n) <= n * 4
    ensures kind == F32 ==> LeastBytes(kind, n) == n * 4
    ensures kind != F32 ==>
      var f := FormatOf(kind).value;
      n == n / f.Size() * f.Size() && LeastBytes(kind, n) == n / f.Size() * f.Bytes()
  {
    if kind != F32 {
      hide BytesOf, FormatOf, Dequant.Format.Size, Dequant.Format.Bytes;
      var f := FormatOf(kind).value;
      DiskIsDecoder(kind, f, n);
      BlocksFit(f, n);
    }
  }

  lemma BlocksFit(f: Dequant.Format, n: nat)
    requires n > 0 && n * 4 < 0x8000_0000_0000_0000 && n % f.Size() == 0
    ensures var bytes := n / f.Size() * f.Bytes();
      n == n / f.Size() * f.Size() && 0 < bytes <= n * 4 && bytes % TWO_64 == bytes
  {
    BlocksAreSmall(f, n / f.Size());
    hide Dequant.Format.Size, Dequant.Format.Bytes;
    Divided(n, f.Size());
  }

  lemma Divided(n: nat, size: nat)
    requires size > 0 && n % size == 0 && n > 0
    ensures n == n / size * size && n / size > 0
  {
  }

  /** No format takes more than four bytes for an element. */
  lemma BlocksAreSmall(f: Dequant.Format, blocks: nat)
    ensures blocks * f.Bytes() <= blocks * f.Size() * 4
    ensures blocks > 0 ==> blocks * f.Bytes() > 0
  {
  }

  /** The checks in front of the decoder, one after the other. */
  predicate Passes(open: bool, file: Bytes, dataOffset: nat, t: TensorDesc, n: nat, expected: nat, largest: nat) {
    && (expected == 0 || n == expected)
    && (LeastBytes(t.kind, n) == 0 || t.bytes >= LeastBytes(t.kind, n))
    && n * 4 <= largest && t.bytes <= largest
    && open && 0 < t.bytes && dataOffset + t.offset + t.bytes <= |file|
  }

  /** For whole blocks of a decoded type the checks on sizes ask for nothing more. */
  lemma PassesIff(open: bool, file: Bytes, dataOffset: nat, t: TensorDesc, n: nat, expected: nat, largest: nat)
    requires FromFile(t) && n == Product(t.shape) && n > 0 && largest < 0x8000_0000_0000_0000
    ensures Passes(open, file, dataOffset, t, n, expected, largest) && WholeBlocksOf(t.kind, n)
        <==> Loads(open, file, dataOffset, t, expected, largest)
    ensures WholeBlocksOf(t.kind, n) && n * 4 <= largest ==> t.bytes == LeastBytes(t.kind, n)
  {
    hide Product, FormatOf, BytesOf, LeastBytes, WholeBlocksOf;
    if WholeBlocksOf(t.kind, n) && n * 4 <= largest {
      SizesAgree(t.kind, n);
    }
  }

  /** Decode the bytes of a whole tensor, or copy them where they are floats already. */
  method Decode(kind: nat, n: nat, data: Bytes, h: Q.Half, single: Single, hardware: nat, out: array<real>)
    returns (ok: bool)
    requires out.Length == n > 0
    requires kind == F32 ==> |data| == n * 4
    requires FormatOf(kind).Some? && n % FormatOf(kind).value.Size() == 0 ==>
      |data| == n / FormatOf(kind).value.Size() * FormatOf(kind).value.Bytes()
    modifies out
    ensures ok <==> WholeBlocksOf(kind, n)
    ensures ok ==> Loaded(out[..], kind, n, data, h, single)
  {
    hide Dequant.Decoded;
    if kind == F32 {
      forall i | 0 <= i < n {
        out[i] := single(data[4 * i], data[4 * i + 1], data[4 * i + 2], data[4 * i + 3]);
      }
      return true;
    }
    if FormatOf(kind).None? {
      return false;
    }
    var f := FormatOf(kind).value;
    hide FormatOf, Dequant.Format.Size, Dequant.Format.Bytes;
    if n % f.Size() != 0 {
      return false;
    }
    assert n == n / f.Size() * f.Size();
    ok := Dequant.Dequantise(f, h, RawOf(data), n, hardware, out);
  }

  /** Everything behind finding the descriptor. */
  method LoadDescribed(loader: GGUFLoader, t: TensorDesc, expected: nat, largest: nat, h: Q.Half, single: Single,
                       hardware: nat)
    returns (ok: bool, out: array<real>)
    requires FromFile(t) && loader.dataOffset < TWO_64
    requires |loader.file| < TWO_64 && largest < 0x8000_0000_0000_0000
    ensures fresh(out)
    ensures ok <==> Loads(loader.isOpen, loader.file, loader.dataOffset, t, expected, largest)
    ensures ok ==> LoadedFrom(out[..], loader.file, loader.dataOffset, t, h, single)
  {
    hide Product, Loaded, FormatOf, BytesOf, LeastBytes, WholeBlocksOf;
    out := new real[0];
    if t.shape == [] {
      return false, out;
    }
    assert forall j :: 0 <= j < |t.shape| ==> t.shape[j] in t.shape;
    var counted, n := CountElements(t.shape);
    if !counted || (expected > 0 && n != expected) {
      return false, out;
    }
    NotEmpty(t.shape);
    PassesIff(loader.isOpen, loader.file, loader.dataOffset, t, n, expected, largest);
    var least := LeastBytes(t.kind, n);
    if least > 0 && t.bytes < least {
      return false, out;
    }
    if n * 4 > largest || t.bytes > largest {
      return false, out;
    }
    out := new real[n];
    var read, data := loader.ReadTensorData(t, t.bytes);
    if !read {
      return false, out;
    }
    DataSuffices(t, n, data);
    ok := Decode(t.kind, n, data, h, single, hardware, out);
  }

  lemma NotEmpty(shape: seq<nat>)
    requires forall j :: 0 <= j < |shape| ==> shape[j] > 0
    ensures Product(shape) > 0
  {
    ProductGrows(shape, 0);
    assert shape[..0] == [] && Product([]) == 1;
  }

  /** What is read is what the decoder asks for. */
  lemma DataSuffices(t: TensorDesc, n: nat, data: Bytes)
    requires FromFile(t) && n == Product(t.shape) > 0 && |data| == t.bytes && n * 4 < 0x8000_0000_0000_0000
    ensures t.kind == F32 ==> |data| == n * 4
    ensures FormatOf(t.kind).Some? && n % FormatOf(t.kind).value.Size() == 0 ==>
      |data| == n / FormatOf(t.kind).value.Size() * FormatOf(t.kind).value.Bytes()
  {
    assert FormatOf(t.kind).Some? ==> t.kind != F32;
    hide Product, FormatOf, BytesOf, LeastBytes;
    if WholeBlocksOf(t.kind, n) {
      SizesAgree(t.kind, n);
    }
  }

  /** Find a tensor, read its bytes and decode them. */
  method LoadTensor(loader: GGUFLoader, name: Bytes, expected: nat, largest: nat, h: Q.Half, single: Single,
                    hardware: nat)
    returns (ok: bool, out: array<real>)
    requires Parsed(loader) && |loader.file| < TWO_64 && largest < 0x8000_0000_0000_0000
    ensures fresh(out)
    ensures ok <==> exists i: nat ::
      && IsFirst(loader.tensors, name, i)
      && Loads(loader.isOpen, loader.file, loader.dataOffset, loader.tensors[i], expected, largest)
    ensures ok ==> exists i: nat ::
      && IsFirst(loader.tensors, name, i)
      && LoadedFrom(out[..], loader.file, loader.dataOffset, loader.tensors[i], h, single)
  {
    out := new real[0];
    var found, i := FindTensor(loader, name);
    if !found {
      return false, out;
    }
    var t := loader.tensors[i];
    assert FromFile(t) && IsFirst(loader.tensors, name, i);
    ok, out := LoadDescribed(loader, t, expected, largest, h, single, hardware);
  }
}
