/** The header, the tensor descriptors and the place of the data of a GGUF file. */
module GgufTensors {
  import opened Arithmetic
  import opened ModelTypes
  import opened Utf8
  import opened LittleEndian
  import opened GgufValues
  import opened GgufFormat
  import opened GgufRoundTrip

  // ---------------------------------------------------------------------------------------------
  // Sizes
  // ---------------------------------------------------------------------------------------------

  const F32 := 0
  const F16 := 1

  /** Elements and bytes of one block of a quantised type; no bytes for a type that is not known. */
  function BlockOf(kind: nat): (b: (nat, nat))
    ensures b.0 > 0
  {
    if kind == 2 then (32, 18)
    else if kind == 3 then (32, 20)
    else if kind == 6 then (32, 22)
    else if kind == 7 then (32, 24)
    else if kind == 8 then (32, 34)
    else if kind == 9 then (32, 36)
    else if kind == 10 then (256, 84)
    else if kind == 11 then (256, 110)
    else if kind == 12 then (256, 144)
    else if kind == 13 then (256, 176)
    else if kind == 14 then (256, 210)
    else if kind == 15 then (256, 292)
    else (1, 0)
  }

  /** Bytes of n elements as 64-bit arithmetic computes them; none where the loader refuses. */
  function BytesOf(kind: nat, n: nat): (b: Option<nat>)
    requires n < TWO_64
    ensures b.Some? ==> b.value < TWO_64
  {
    if kind == F32 then if n > (TWO_64 - 1) / 4 then None else Some(n * 4)
    else if kind == F16 then if n > (TWO_64 - 1) / 2 then None else Some(n * 2)
    else
      var (elements, bytes) := BlockOf(kind);
      Some(Add64(n, elements - 1) / elements * bytes % TWO_64)
  }

  /** Whole blocks, the last one perhaps not full. */
  function Blocks(n: nat, size: nat): (k: nat)
    requires size > 0
    ensures (k - 1) * size < n <= k * size || n == k == 0
  {
    BlocksCover(n, size);
    (n + size - 1) / size
  }

  lemma BlocksCover(n: nat, size: nat)
    requires size > 0
    ensures var k := (n + size - 1) / size; (k - 1) * size < n <= k * size || n == k == 0
  {
    var m := n + size - 1;
    assert m == m / size * size + m % size;
    assert (m / size - 1) * size == m / size * size - size;
  }

  /** The computed size of a quantised tensor is its true size exactly where nothing wraps. */
  lemma BytesExactIff(kind: nat, n: nat)
    requires 0 < n < TWO_64 && kind != F32 && kind != F16 && BlockOf(kind).1 > 0
    ensures var (elements, bytes) := BlockOf(kind);
      BytesOf(kind, n) == Some(Blocks(n, elements) * bytes)
      <==> n + elements <= TWO_64 && Blocks(n, elements) * bytes < TWO_64
  {
    var (elements, bytes) := BlockOf(kind);
    if n + elements <= TWO_64 {
      Add64Exact(n, elements - 1);
    } else {
      assert Add64(n, elements - 1) == n + elements - 1 - TWO_64 < elements;
      assert Add64(n, elements - 1) / elements == 0;
      assert Blocks(n, elements) >= 1;
    }
  }

  function Product(shape: seq<nat>): nat {
    if shape == [] then 1 else shape[0] * Product(shape[1..])
  }

  predicate DimFits(d: nat) {
    0 < d <= 0x1_0000_0000
  }

  /** What the loader demands of a shape. */
  predicate ShapeFits(shape: seq<nat>) {
    && 1 <= |shape| <= 4
    && (forall d :: d in shape ==> DimFits(d))
    && Product(shape) < TWO_64
  }

  /** A shape the loader accepts whose byte product wraps: the size it computes is too small. */
  lemma ProductWraps()
    ensures var shape, n := [0x1_0000_0000, 0xffff_ffff], 0xffff_ffff_0000_0000;
      && ShapeFits(shape) && Product(shape) == n
      && BytesOf(15, n) == Some(2594073380466458624) && Blocks(n, 256) * 292 == TWO_64 + 2594073380466458624
  {
    assert Product([0xffff_ffff]) == 0xffff_ffff;
    assert Blocks(0xffff_ffff_0000_0000, 256) == 0xff_ffff_ff00_0000;
  }

  /** A shape the loader accepts whose rounding up to whole blocks wraps: nearly 2^64 elements take no bytes. */
  lemma RoundingWraps()
    ensures var shape, n := [0xffff_ffff, 641, 6700417], TWO_64 - 1;
      && ShapeFits(shape) && Product(shape) == n && BytesOf(15, n) == Some(0) && Blocks(n, 256) > 0
  {
    assert Product([6700417]) == 6700417;
    assert Product([641, 6700417]) == 0x1_0000_0001;
  }

  datatype TensorDesc = TensorDesc(name: Bytes, shape: seq<nat>, kind: nat, offset: nat, bytes: nat)

  predicate TensorFits(t: TensorDesc) {
    && StringFits(t.name) && ShapeFits(t.shape)
    && t.kind < Power(4) && t.offset < TWO_64
    && BytesOf(t.kind, Product(t.shape)) == Some(t.bytes)
  }

  // ---------------------------------------------------------------------------------------------
  // Writing
  // ---------------------------------------------------------------------------------------------

  function WriteTensor(t: TensorDesc): Bytes {
    WriteString(t.name) + (Spell(|t.shape|, 4) + (WriteNumbers(t.shape, 8) + (Spell(t.kind, 4) + Spell(t.offset, 8))))
  }

  function WriteTensors(ts: seq<TensorDesc>): Bytes {
    if ts == [] then [] else WriteTensor(ts[0]) + WriteTensors(ts[1..])
  }

  const MAGIC := 0x4655_4747

  function WriteHeader(version: nat, tensors: nat, entries: nat): (b: Bytes)
    ensures |b| == 24
  {
    Spell(MAGIC, 4) + (Spell(version, 4) + (Spell(tensors, 8) + Spell(entries, 8)))
  }

  /** A file starts with its name, and its version is the next number, lowest byte first. */
  lemma HeaderSpells(version: nat, tensors: nat, entries: nat)
    requires version < 256
    ensures WriteHeader(version, tensors, entries)[..8] == Literal("GGUF") + [version, 0, 0, 0]
  {
    Spelled(MAGIC);
    Spelled(version);
    var header := WriteHeader(version, tensors, entries);
    assert header[..8] == Spell(MAGIC, 4) + Spell(version, 4);
  }

  lemma Spelled(n: nat)
    requires n < 0x1_0000_0000
    ensures Spell(n, 4) == [n % 256, n / 256 % 256, n / 256 / 256 % 256, n / 256 / 256 / 256]
  {
    var a, b, c := n / 256, n / 256 / 256, n / 256 / 256 / 256;
    assert c < 256;
    assert Spell(c, 1) == [c] + Spell(c / 256, 0);
    assert Spell(b, 2) == [b % 256] + Spell(c, 1);
    assert Spell(a, 3) == [a % 256] + Spell(b, 2);
  }

  /** Data is aligned to what the metadata says, or to 32 bytes where it says nothing or zero. */
  lemma AlignmentIs(kv: Metadata, n: nat)
    ensures Literal("general.alignment") !in kv ==> Alignment(kv) == 32
    ensures Alignment(kv[Literal("general.alignment") := UInt32(n)]) == if n == 0 then 32 else n
  {
  }

  // ---------------------------------------------------------------------------------------------
  // Reading
  // ---------------------------------------------------------------------------------------------

  /** The next n dimensions, times what came before; refused when the product leaves 64 bits. */
  function ReadDims(file: Bytes, pos: nat, n: nat, elements: nat): (r: Read<(seq<nat>, nat)>)
    requires elements < TWO_64
    ensures r.Got? ==> |r.value.0| == n && r.value.1 < TWO_64 && r.next == pos + 8 * n
    decreases n
  {
    if n == 0 then Got(([], elements), pos)
    else
      var d := ReadNumber(file, pos, 8);
      if d.Failed? || d.value == 0 || d.value > 0x1_0000_0000 || elements > (TWO_64 - 1) / d.value then Failed
      else
        GuardIsExact(elements, d.value);
        var rest := ReadDims(file, d.next, n - 1, elements * d.value);
        if rest.Failed? then Failed else Got(([d.value] + rest.value.0, rest.value.1), rest.next)
  }

  /** Dividing the largest value is an exact test for overflow. */
  lemma GuardIsExact(a: nat, b: nat)
    requires b > 0
    ensures a > (TWO_64 - 1) / b <==> a * b >= TWO_64
  {
    var q := (TWO_64 - 1) / b;
    assert TWO_64 - 1 == q * b + (TWO_64 - 1) % b;
    if a > q {
      assert a * b >= (q + 1) * b == q * b + b;
    } else {
      assert a * b <= q * b;
    }
  }

  function ReadTensor(file: Bytes, pos: nat): Read<TensorDesc> {
    var name := ReadString(file, pos);
    if name.Failed? then Failed
    else
      var n := ReadNumber(file, name.next, 4);
      if n.Failed? || n.value == 0 || n.value > 4 then Failed
      else
        var dims := ReadDims(file, n.next, n.value, 1);
        if dims.Failed? then Failed else ReadTensorTail(file, dims.next, name.value, dims.value.0, dims.value.1)
  }

  function ReadTensorTail(file: Bytes, pos: nat, name: Bytes, shape: seq<nat>, elements: nat): Read<TensorDesc>
    requires elements < TWO_64
  {
    var kind := ReadNumber(file, pos, 4);
    if kind.Failed? then Failed
    else
      var offset := ReadNumber(file, kind.next, 8);
      if offset.Failed? then Failed
      else
        var bytes := BytesOf(kind.value, elements);
        if bytes.None? then Failed
        else Got(TensorDesc(name, shape, kind.value, offset.value, bytes.value), offset.next)
  }

  function ReadTensors(file: Bytes, pos: nat, count: nat, ts: seq<TensorDesc>): Read<seq<TensorDesc>>
    decreases count
  {
    if count == 0 then Got(ts, pos)
    else
      var t := ReadTensor(file, pos);
      if t.Failed? then Failed else ReadTensors(file, t.next, count - 1, ts + [t.value])
  }

  datatype Header = Header(version: nat, tensors: nat, entries: nat)

  function ReadHeader(file: Bytes, pos: nat): Read<Header> {
    var magic := ReadNumber(file, pos, 4);
    if magic.Failed? || magic.value != MAGIC then Failed
    else
      var version := ReadNumber(file, pos + 4, 4);
      if version.Failed? || version.value < 2 || version.value > 3 then Failed
      else
        var tensors := ReadNumber(file, pos + 8, 8);
        if tensors.Failed? then Failed
        else
          var entries := ReadNumber(file, pos + 16, 8);
          if entries.Failed? || tensors.value > 65536 || entries.value > 65536 then Failed
          else Got(Header(version.value, tensors.value, entries.value), pos + 24)
  }

  const ALIGNMENT_KEY := Literal("general.alignment")

  function Alignment(kv: Metadata): (a: nat)
    ensures a > 0
  {
    var a := KvUInt32(kv, ALIGNMENT_KEY, 32);
    if a == 0 then 32 else a
  }

  /** The position padded to the alignment. */
  function Padded(pos: nat, align: nat): nat
    requires align > 0
  {
    pos + (align - pos % align) % align
  }

  /** Padding goes to the first multiple of the alignment that is not before the position. */
  lemma PaddedIsFirstMultiple(pos: nat, align: nat, k: nat)
    requires align > 0 && pos <= k * align
    ensures pos <= Padded(pos, align) <= k * align
    ensures exists j: nat :: Padded(pos, align) == j * align
  {
    var q, r := pos / align, pos % align;
    assert pos == q * align + r;
    if r == 0 {
      DivisionIsUnique(align, 1, 0, align);
      assert Padded(pos, align) == q * align;
    } else {
      DivisionIsUnique(align - r, 0, align - r, align);
      assert Padded(pos, align) == (q + 1) * align;
      if k <= q {
        MulMonotone(k, q, align);
      } else {
        MulMonotone(q + 1, k, align);
      }
    }
  }

  datatype Opened = Opened(version: nat, kv: Metadata, tensors: seq<TensorDesc>, dataOffset: nat)

  /** Everything in front of the tensor data. */
  function ReadFile(file: Bytes): Read<Opened> {
    if |file| < 12 then Failed
    else
      var header := ReadHeader(file, 0);
      if header.Failed? then Failed
      else
        var kv := ReadEntries(file, header.next, header.value.entries, map[]);
        if kv.Failed? then Failed
        else
          var ts := ReadTensors(file, kv.next, header.value.tensors, []);
          if ts.Failed? then Failed
          else
            var data := Padded(ts.next, Alignment(kv.value));
            if data >= TWO_64 || (header.value.tensors > 0 && data >= |file|) then Failed
            else Got(Opened(header.value.version, kv.value, ts.value, data), ts.next)
  }

  // ---------------------------------------------------------------------------------------------
  // Round trip
  // ---------------------------------------------------------------------------------------------

  lemma {:induction false} ProductPositive(shape: seq<nat>)
    requires forall d :: d in shape ==> DimFits(d)
    ensures Product(shape) >= 1
  {
    if shape != [] {
      assert DimFits(shape[0]);
      ProductPositive(shape[1..]);
      MulMonotone(1, Product(shape[1..]), shape[0]);
    }
  }

  /** One dimension passes the loader's checks where the whole product fits. */
  lemma DimPasses(elements: nat, d: nat, rest: nat)
    requires 0 < elements && 0 < d && 0 < rest && elements * (d * rest) < TWO_64
    ensures elements < TWO_64 && elements <= (TWO_64 - 1) / d
    ensures 0 < elements * d && (elements * d) * rest == elements * (d * rest)
  {
    assert (elements * d) * rest == elements * (d * rest);
    MulMonotone(1, rest, elements * d);
    MulMonotone(1, d, elements);
    GuardIsExact(elements, d);
  }

  lemma {:induction false} DimsComeBack(file: Bytes, pos: nat, shape: seq<nat>, elements: nat)
    requires At(file, pos, WriteNumbers(shape, 8)) && (forall d :: d in shape ==> DimFits(d))
    requires 0 < elements && elements * Product(shape) < TWO_64
    ensures elements < TWO_64
    ensures ReadDims(file, pos, |shape|, elements) == Got((shape, elements * Product(shape)), pos + 8 * |shape|)
    decreases |shape|
  {
    hide At, ReadNumber;
    if shape != [] {
      var d, rest := shape[0], shape[1..];
      assert DimFits(d);
      ProductPositive(rest);
      DimPasses(elements, d, Product(rest));
      AtSplit(file, pos, Spell(d, 8), WriteNumbers(rest, 8));
      Powers();
      hide Power;
      NumberComesBack(file, pos, d, 8);
      DimsComeBack(file, pos + 8, rest, elements * d);
      assert [d] + rest == shape;
    }
  }

  lemma TensorComesBack(file: Bytes, pos: nat, t: TensorDesc)
    requires At(file, pos, WriteTensor(t)) && TensorFits(t)
    ensures ReadTensor(file, pos) == Got(t, pos + |WriteTensor(t)|)
  {
    Powers();
    hide At, Power, ReadNumber, ReadString, WriteString, ReadDims, WriteNumbers, BytesOf;
    var tail := Spell(t.kind, 4) + Spell(t.offset, 8);
    AtSplit(file, pos, WriteString(t.name), Spell(|t.shape|, 4) + (WriteNumbers(t.shape, 8) + tail));
    StringComesBack(file, pos, t.name);
    var p := pos + |WriteString(t.name)|;
    AtSplit(file, p, Spell(|t.shape|, 4), WriteNumbers(t.shape, 8) + tail);
    NumberComesBack(file, p, |t.shape|, 4);
    AtSplit(file, p + 4, WriteNumbers(t.shape, 8), tail);
    DimsComeBack(file, p + 4, t.shape, 1);
    var q := p + 4 + 8 * |t.shape|;
    AtSplit(file, q, Spell(t.kind, 4), Spell(t.offset, 8));
    NumberComesBack(file, q, t.kind, 4);
    NumberComesBack(file, q + 4, t.offset, 8);
  }

  lemma {:induction false} TensorsComeBack(file: Bytes, pos: nat, more: seq<TensorDesc>, ts: seq<TensorDesc>)
    requires At(file, pos, WriteTensors(more)) && forall i :: 0 <= i < |more| ==> TensorFits(more[i])
    ensures ReadTensors(file, pos, |more|, ts) == Got(ts + more, pos + |WriteTensors(more)|)
    decreases |more|
  {
    hide At, ReadTensor, WriteTensor, TensorFits;
    if more == [] {
      assert ts + more == ts;
    } else {
      AtSplit(file, pos, WriteTensor(more[0]), WriteTensors(more[1..]));
      TensorComesBack(file, pos, more[0]);
      TensorsComeBack(file, pos + |WriteTensor(more[0])|, more[1..], ts + [more[0]]);
      assert (ts + [more[0]]) + more[1..] == ts + more;
    }
  }

  lemma HeaderComesBackAt(file: Bytes, pos: nat, version: nat, tensors: nat, entries: nat)
    requires At(file, pos, WriteHeader(version, tensors, entries))
    requires 2 <= version <= 3 && tensors <= 65536 && entries <= 65536
    ensures ReadHeader(file, pos) == Got(Header(version, tensors, entries), pos + 24)
  {
    Powers();
    hide At, Power, ReadNumber;
    AtSplit(file, pos, Spell(MAGIC, 4), Spell(version, 4) + (Spell(tensors, 8) + Spell(entries, 8)));
    AtSplit(file, pos + 4, Spell(version, 4), Spell(tensors, 8) + Spell(entries, 8));
    AtSplit(file, pos + 8, Spell(tensors, 8), Spell(entries, 8));
    NumberComesBack(file, pos, MAGIC, 4);
    NumberComesBack(file, pos + 4, version, 4);
    NumberComesBack(file, pos + 8, tensors, 8);
    NumberComesBack(file, pos + 16, entries, 8);
  }

  /** A file: header, entries, descriptors, and whatever follows. */
  function WriteFile(version: nat, entries: seq<Entry>, tensors: seq<TensorDesc>, rest: Bytes): Bytes {
    WriteHeader(version, |tensors|, |entries|) + (WriteEntries(entries) + (WriteTensors(tensors) + rest))
  }

  lemma FileParts(version: nat, entries: seq<Entry>, tensors: seq<TensorDesc>, rest: Bytes)
    ensures var file, p := WriteFile(version, entries, tensors, rest), 24 + |WriteEntries(entries)|;
      && |file| >= 24
      && At(file, 0, WriteHeader(version, |tensors|, |entries|))
      && At(file, 24, WriteEntries(entries))
      && At(file, p, WriteTensors(tensors))
  {
    hide WriteHeader, WriteEntries, WriteTensors;
    var file := WriteFile(version, entries, tensors, rest);
    var body := WriteEntries(entries) + (WriteTensors(tensors) + rest);
    AtSplit(file, 0, WriteHeader(version, |tensors|, |entries|), body);
    AtSplit(file, 24, WriteEntries(entries), WriteTensors(tensors) + rest);
    AtSplit(file, 24 + |WriteEntries(entries)|, WriteTensors(tensors), rest);
  }

  /** A whole file: header, metadata and descriptors come back, and the data starts at the next aligned byte. */
  lemma FileComesBack(version: nat, entries: seq<Entry>, tensors: seq<TensorDesc>, rest: Bytes)
    requires 2 <= version <= 3 && |tensors| <= 65536 && |entries| <= 65536
    requires EntriesFit(entries) && forall i :: 0 <= i < |tensors| ==> TensorFits(tensors[i])
    ensures var file := WriteFile(version, entries, tensors, rest);
      var end := 24 + |WriteEntries(entries)| + |WriteTensors(tensors)|;
      var kv := KeptEntries(entries, map[]);
      var data := Padded(end, Alignment(kv));
      ReadFile(file) == if data >= TWO_64 || (tensors != [] && data >= |file|) then Failed
                        else Got(Opened(version, kv, tensors, data), end)
  {
    hide At, WriteFile, WriteHeader, WriteEntries, WriteTensors, ReadHeader, ReadEntries, ReadTensors, Padded,
      Alignment,
      TensorFits, EntriesFit, KeptEntries;
    var file := WriteFile(version, entries, tensors, rest);
    FileParts(version, entries, tensors, rest);
    HeaderComesBackAt(file, 0, version, |tensors|, |entries|);
    EntriesComeBack(file, 24, entries, map[]);
    TensorsComeBack(file, 24 + |WriteEntries(entries)|, tensors, []);
    assert [] + tensors == tensors;
  }
}
