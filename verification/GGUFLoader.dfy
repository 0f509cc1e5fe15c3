/** The GGUF loader: a position that advances over the bytes of a file, and the tensor data behind it. */
module GGUFLoaders {
  import opened Utf8
  import opened LittleEndian
  import opened GgufValues
  import opened ModelTypes
  import Format = GgufFormat
  import Tensors = GgufTensors

  class GGUFLoader {
    const file: Bytes
    var pos: nat
    var isOpen: bool
    var version: nat
    var kv: Metadata
    var tensors: seq<Tensors.TensorDesc>
    var dataOffset: nat

    /** A loader in front of the bytes of a file that could be opened. */
    constructor (bytes: Bytes)
      ensures file == bytes && pos == 0 && !isOpen && kv == map[] && tensors == []
    {
      file, pos, isOpen, version, kv, tensors, dataOffset := bytes, 0, false, 0, map[], [], 0;
    }

    /** The next fixed-width number. */
    method ReadRaw(width: nat) returns (ok: bool, n: nat)
      modifies this`pos
      ensures ok <==> Format.ReadNumber(file, old(pos), width).Got?
      ensures ok ==> Format.ReadNumber(file, old(pos), width) == Format.Got(n, pos)
    {
      if pos + width > |file| {
        return false, 0;
      }
      n := Number(file[pos..pos + width]);
      pos := pos + width;
      return true, n;
    }

    method ReadString() returns (ok: bool, s: Bytes)
      modifies this`pos
      ensures ok <==> Format.ReadString(file, old(pos)).Got?
      ensures ok ==> Format.ReadString(file, old(pos)) == Format.Got(s, pos)
    {
      var len;
      ok, len := ReadRaw(8);
      if !ok || len > Format.STRING_LIMIT {
        return false, [];
      }
      if len > 0 && pos + len > |file| {
        return false, [];
      }
      s := file[pos..pos + len];
      pos := pos + len;
    }

    method ReadStrings(count: nat) returns (ok: bool, strings: seq<Bytes>)
      modifies this`pos
      ensures ok <==> Format.ReadStrings(file, old(pos), count).Got?
      ensures ok ==> Format.ReadStrings(file, old(pos), count) == Format.Got(strings, pos)
    {
      hide Format.ReadString;
      strings := [];
      BehindNone(Format.ReadStrings(file, pos, count));
      var i := 0;
      while i < count
        invariant 0 <= i <= count
        invariant Format.ReadStrings(file, old(pos), count) == Behind(strings, Format.ReadStrings(file, pos, count - i))
      {
        var s;
        ok, s := ReadString();
        if !ok {
          return false, [];
        }
        BehindOne(strings, s, Format.ReadStrings(file, pos, count - i - 1));
        strings := strings + [s];
        i := i + 1;
      }
      assert strings + [] == strings;
      return true, strings;
    }

    /** An array, kept or skipped; inner arrays are read and dropped. */
    method ReadArray() returns (ok: bool, v: Value)
      modifies this`pos
      ensures ok <==> Format.ReadArray(file, old(pos)).Got?
      ensures ok ==> Format.ReadArray(file, old(pos)) == Format.Got(v, pos)
      decreases Format.Left(file, pos), 1
    {
      hide Format.ReadNumber, Format.ReadItems;
      var code, count;
      ok, code := ReadRaw(4);
      if !ok {
        return false, Format.SKIPPED;
      }
      ok, count := ReadRaw(8);
      if !ok || count > Format.COUNT_LIMIT {
        return false, Format.SKIPPED;
      }
      HeaderInside(file, old(pos));
      ok, v := ReadItems(code, count);
    }

    method ReadItems(code: nat, count: nat) returns (ok: bool, v: Value)
      modifies this`pos
      ensures ok <==> Format.ReadItems(file, old(pos), code, count).Got?
      ensures ok ==> Format.ReadItems(file, old(pos), code, count) == Format.Got(v, pos)
      decreases Format.Left(file, pos), 3
    {
      hide Format.WordsAt, Format.ReadStrings, Format.SkipArrays, Format.SignedWords, Power;
      if code == Format.UINT32 || code == Format.INT32 || code == Format.FLOAT32 {
        if count > 0 && pos + count * 4 > |file| {
          return false, Format.SKIPPED;
        }
        var words := if count == 0 then [] else Format.WordsAt(file, pos, count);
        pos := pos + count * 4;
        v := if code == Format.UINT32 then UInt32s(words)
             else if code == Format.INT32 then Int32s(Format.SignedWords(words))
             else Float32s(words);
        return true, v;
      }
      if code == Format.STRING {
        var strings;
        ok, strings := ReadStrings(count);
        return ok, Texts(strings);
      }
      if code == Format.ARRAY {
        ok := SkipArrays(count);
        return ok, Format.SKIPPED;
      }
      if Format.Width(code) == 0 {
        return false, Format.SKIPPED;
      }
      if count > 0 {
        pos := pos + count * Format.Width(code);
      }
      return true, Format.SKIPPED;
    }

    method SkipArrays(count: nat) returns (ok: bool)
      modifies this`pos
      ensures ok <==> Format.SkipArrays(file, old(pos), count).Got?
      ensures ok ==> Format.SkipArrays(file, old(pos), count) == Format.Got((), pos)
      decreases Format.Left(file, pos), 2
    {
      hide Format.ReadArray;
      var i := 0;
      while i < count
        invariant 0 <= i <= count && pos >= old(pos)
        invariant Format.SkipArrays(file, old(pos), count) == Format.SkipArrays(file, pos, count - i)
      {
        var discarded;
        ok, discarded := ReadArray();
        if !ok {
          return false;
        }
        i := i + 1;
      }
      return true;
    }

    method ReadValue(code: nat) returns (ok: bool, v: Value)
      modifies this`pos
      ensures ok <==> Format.ReadValue(file, old(pos), code).Got?
      ensures ok ==> Format.ReadValue(file, old(pos), code) == Format.Got(v, pos)
    {
      hide Format.ReadString, Format.ReadArray, Format.ReadNumber;
      if code == Format.STRING {
        var s;
        ok, s := ReadString();
        return ok, Text(s);
      }
      if code == Format.ARRAY {
        ok, v := ReadArray();
        return;
      }
      if Format.Width(code) == 0 {
        return false, Format.SKIPPED;
      }
      var n;
      ok, n := ReadRaw(Format.Width(code));
      if !ok {
        return false, Format.SKIPPED;
      }
      v := Format.Kept(code, n);
    }

    /** All entries, into the metadata map. */
    method ParseKV(count: nat) returns (ok: bool)
      modifies this`pos, this`kv
      ensures ok <==> Format.ReadEntries(file, old(pos), count, old(kv)).Got?
      ensures ok ==> Format.ReadEntries(file, old(pos), count, old(kv)) == Format.Got(kv, pos)
    {
      hide Format.ReadString, Format.ReadNumber, Format.ReadValue;
      var i := 0;
      while i < count
        invariant 0 <= i <= count
        invariant Format.ReadEntries(file, old(pos), count, old(kv)) == Format.ReadEntries(file, pos, count - i, kv)
      {
        var key, code, v;
        ok, key := ReadString();
        if !ok {
          return false;
        }
        ok, code := ReadRaw(4);
        if !ok {
          return false;
        }
        ok, v := ReadValue(code);
        if !ok {
          return false;
        }
        kv := kv[key := v];
        i := i + 1;
      }
      return true;
    }

    method ParseHeader() returns (ok: bool, h: Tensors.Header)
      modifies this`pos, this`version
      ensures ok <==> Tensors.ReadHeader(file, old(pos)).Got?
      ensures ok ==> Tensors.ReadHeader(file, old(pos)) == Format.Got(h, pos) && version == h.version
    {
      hide Format.ReadNumber;
      h := Tensors.Header(0, 0, 0);
      var n, nTensors, nKv;
      ok, n := ReadRaw(4);
      if !ok || n != Tensors.MAGIC {
        return false, h;
      }
      ok, version := ReadRaw(4);
      if !ok || version < 2 || version > 3 {
        return false, h;
      }
      ok, nTensors := ReadRaw(8);
      if !ok {
        return false, h;
      }
      ok, nKv := ReadRaw(8);
      if !ok || nTensors > 65536 || nKv > 65536 {
        return false, h;
      }
      return true, Tensors.Header(version, nTensors, nKv);
    }

    /** The dimensions of one tensor, and how many elements they come to. */
    method ParseDims(n: nat) returns (ok: bool, shape: seq<nat>, elements: nat)
      modifies this`pos
      ensures ok <==> Tensors.ReadDims(file, old(pos), n, 1).Got?
      ensures ok ==> Tensors.ReadDims(file, old(pos), n, 1) == Format.Got((shape, elements), pos) && elements < TWO_64
    {
      hide Format.ReadNumber;
      shape, elements := [], 1;
      DimsBehindNone(Tensors.ReadDims(file, pos, n, 1));
      var d := 0;
      while d < n
        invariant 0 <= d <= n && elements < TWO_64
        invariant Tensors.ReadDims(file, old(pos), n, 1) ==
          DimsBehind(shape, Tensors.ReadDims(file, pos, n - d, elements))
      {
        var dim;
        ok, dim := ReadRaw(8);
        if !ok || dim == 0 || dim > 0x1_0000_0000 || elements > (TWO_64 - 1) / dim {
          return false, [], 0;
        }
        Tensors.GuardIsExact(elements, dim);
        DimsBehindOne(shape, dim, Tensors.ReadDims(file, pos, n - d - 1, elements * dim));
        shape := shape + [dim];
        elements := elements * dim;
        d := d + 1;
      }
      assert shape + [] == shape;
      return true, shape, elements;
    }

    method ParseTensor() returns (ok: bool, t: Tensors.TensorDesc)
      modifies this`pos
      ensures ok <==> Tensors.ReadTensor(file, old(pos)).Got?
      ensures ok ==> Tensors.ReadTensor(file, old(pos)) == Format.Got(t, pos)
    {
      hide Format.ReadNumber, Format.ReadString, Tensors.ReadDims, Tensors.BytesOf;
      t := Tensors.TensorDesc([], [], 0, 0, 0);
      var name, n, shape, elements, kind, offset;
      ok, name := ReadString();
      if !ok {
        return false, t;
      }
      ok, n := ReadRaw(4);
      if !ok || n == 0 || n > 4 {
        return false, t;
      }
      ok, shape, elements := ParseDims(n);
      if !ok {
        return false, t;
      }
      ok, kind := ReadRaw(4);
      if !ok {
        return false, t;
      }
      ok, offset := ReadRaw(8);
      if !ok {
        return false, t;
      }
      var bytes := Tensors.BytesOf(kind, elements);
      if bytes.None? {
        return false, t;
      }
      return true, Tensors.TensorDesc(name, shape, kind, offset, bytes.value);
    }

    method ParseTensors(count: nat) returns (ok: bool)
      modifies this`pos, this`tensors
      ensures ok <==> Tensors.ReadTensors(file, old(pos), count, old(tensors)).Got?
      ensures ok ==> Tensors.ReadTensors(file, old(pos), count, old(tensors)) == Format.Got(tensors, pos)
    {
      hide Tensors.ReadTensor;
      var i := 0;
      while i < count
        invariant 0 <= i <= count
        invariant Tensors.ReadTensors(file, old(pos), count, old(tensors)) ==
          Tensors.ReadTensors(file, pos, count - i, tensors)
      {
        var t;
        ok, t := ParseTensor();
        if !ok {
          return false;
        }
        tensors := tensors + [t];
        i := i + 1;
      }
      return true;
    }

    /** Parse everything in front of the tensor data. */
    method Open() returns (ok: bool)
      requires !isOpen && pos == 0 && kv == map[] && tensors == []
      modifies this
      ensures ok <==> Tensors.ReadFile(file).Got?
      ensures ok ==> Tensors.ReadFile(file) == Format.Got(Tensors.Opened(version, kv, tensors, dataOffset), pos)
      ensures isOpen == ok
    {
      hide Tensors.ReadHeader, Tensors.ReadTensors, Tensors.Padded, Tensors.Alignment, Format.ReadEntries;
      if |file| < 12 {
        return false;
      }
      var h;
      ok, h := ParseHeader();
      if !ok {
        return false;
      }
      ok := ParseKV(h.entries);
      if !ok {
        return false;
      }
      ok := ParseTensors(h.tensors);
      if !ok {
        return false;
      }
      var padded := Tensors.Padded(pos, Tensors.Alignment(kv));
      if padded >= TWO_64 {
        return false;
      }
      dataOffset := padded;
      if h.tensors > 0 && dataOffset >= |file| {
        return false;
      }
      isOpen := true;
      return true;
    }

    /** The bytes of one tensor: refused exactly when they do not lie inside the file, or do not fit the buffer. */
    method ReadTensorData(desc: Tensors.TensorDesc, maxBytes: nat) returns (ok: bool, data: Bytes)
      requires |file| < TWO_64 && desc.offset < TWO_64 && desc.bytes < TWO_64 && dataOffset < TWO_64
      ensures ok <==> isOpen && 0 < desc.bytes <= maxBytes && dataOffset + desc.offset + desc.bytes <= |file|
      ensures ok ==> data == file[dataOffset + desc.offset..dataOffset + desc.offset + desc.bytes]
    {
      if !isOpen || desc.bytes == 0 || desc.bytes > maxBytes {
        return false, [];
      }
      if desc.offset > |file| || desc.bytes > |file| - desc.offset {
        return false, [];
      }
      if desc.offset > TWO_64 - 1 - dataOffset {
        return false, [];
      }
      var at := dataOffset + desc.offset;
      if at > |file| || desc.bytes > |file| - at {
        return false, [];
      }
      return true, file[at..at + desc.bytes];
    }
  }

  /** Strings already read, in front of those still to be read. */
  function Behind(strings: seq<Bytes>, r: Format.Read<seq<Bytes>>): Format.Read<seq<Bytes>> {
    if r.Failed? then Format.Failed else Format.Got(strings + r.value, r.next)
  }

  lemma BehindNone(r: Format.Read<seq<Bytes>>)
    ensures Behind([], r) == r
  {
    if r.Got? {
      assert [] + r.value == r.value;
    }
  }

  lemma BehindOne(strings: seq<Bytes>, s: Bytes, rest: Format.Read<seq<Bytes>>)
    ensures Behind(strings, if rest.Failed? then Format.Failed else Format.Got([s] + rest.value, rest.next)) ==
      Behind(strings + [s], rest)
  {
    if rest.Got? {
      assert strings + ([s] + rest.value) == (strings + [s]) + rest.value;
    }
  }

  /** Dimensions already read, in front of those still to be read. */
  function DimsBehind(shape: seq<nat>, r: Format.Read<(seq<nat>, nat)>): Format.Read<(seq<nat>, nat)> {
    if r.Failed? then Format.Failed else Format.Got((shape + r.value.0, r.value.1), r.next)
  }

  lemma DimsBehindNone(r: Format.Read<(seq<nat>, nat)>)
    ensures DimsBehind([], r) == r
  {
    if r.Got? {
      assert [] + r.value.0 == r.value.0;
    }
  }

  lemma DimsBehindOne(shape: seq<nat>, d: nat, rest: Format.Read<(seq<nat>, nat)>)
    ensures DimsBehind(shape,
                       if rest.Failed? then Format.Failed
                       else Format.Got(([d] + rest.value.0, rest.value.1), rest.next))
         == DimsBehind(shape + [d], rest)
  {
    if rest.Got? {
      assert shape + ([d] + rest.value.0) == (shape + [d]) + rest.value.0;
    }
  }

  lemma HeaderInside(file: Bytes, pos: nat)
    ensures Format.ReadNumber(file, pos, 4).Got? && Format.ReadNumber(file, pos + 4, 8).Got? ==>
      Format.Left(file, pos + 12) < Format.Left(file, pos)
  {
  }
}
