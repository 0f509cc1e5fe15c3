/** Reading a file that was cut short: which cuts the loader notices, exactly. */
module GgufTruncation {
  import opened ModelTypes
  import opened Utf8
  import opened LittleEndian
  import opened GgufValues
  import opened GgufFormat
  import opened GgufRoundTrip
  import opened GgufTensors

  /** The file ends inside these bytes. */
  predicate Cut(file: Bytes, pos: nat, bytes: Bytes) {
    pos <= |file| < pos + |bytes| && file[pos..] == bytes[..|file| - pos]
  }

  /** Of two strings one after the other, the file ends inside the first, or has it and ends inside the second. */
  lemma CutSplit(file: Bytes, pos: nat, a: Bytes, b: Bytes)
    requires Cut(file, pos, a + b)
    ensures Cut(file, pos, a) || (At(file, pos, a) && Cut(file, pos + |a|, b))
  {
    var n := |file| - pos;
    if n < |a| {
      assert (a + b)[..n] == a[..n];
    } else {
      assert file[pos..pos + |a|] == file[pos..][..|a|] == (a + b)[..n][..|a|] == a;
      assert file[pos + |a|..] == file[pos..][|a|..] == (a + b)[..n][|a|..] == b[..n - |a|];
    }
  }

  // ---------------------------------------------------------------------------------------------
  // How far a read may run past the end
  // ---------------------------------------------------------------------------------------------

  /** Arrays of 32-bit numbers are read; those of any other fixed size are skipped. */
  predicate Skipped(code: nat) {
    code != UINT32 && code != INT32 && code != FLOAT32
  }

  /** The bytes at the end of an array that no read ever looks at. */
  function Overhang(a: Array): nat
    decreases a
  {
    match a
    case Numbers(code, items) => if Skipped(code) then |items| * Width(code) else 0
    case Strings(_) => 0
    case Arrays(arrays) => if arrays == [] then 0 else Overhang(arrays[|arrays| - 1])
  }

  function Tail(v: Written): nat {
    if v.Arr? then Overhang(v.a) else 0
  }

  /** Of a list of entries only the last can hang over. */
  function LastTail(entries: seq<Entry>): nat {
    if entries == [] then 0 else Tail(entries[|entries| - 1].value)
  }

  lemma OverhangFits(a: Array)
    ensures 12 + Overhang(a) <= |WriteArray(a)|
    decreases a, 0
  {
    if a.Arrays? && a.arrays != [] {
      LastArrayFits(a, |a.arrays|);
    }
  }

  lemma {:induction false} LastArrayFits(a: Array, n: nat)
    requires a.Arrays? && 0 < n <= |a.arrays|
    ensures 12 + Overhang(a.arrays[|a.arrays| - 1]) <= |WriteArrays(a, n)|
    decreases a, 0, n
  {
    if n == 1 {
      OverhangFits(a.arrays[|a.arrays| - 1]);
      assert |WriteArrays(a, 0)| == 0;
    } else {
      LastArrayFits(a, n - 1);
    }
  }

  // ---------------------------------------------------------------------------------------------
  // Metadata cut short
  // ---------------------------------------------------------------------------------------------

  /** What reading cut bytes gives: as if nothing were missing, or a failure. */
  function Overlooked<T>(file: Bytes, pos: nat, length: nat, tail: nat, value: T): Read<T> {
    if |file| + tail >= pos + length then Got(value, pos + length) else Failed
  }

  lemma StringCut(file: Bytes, pos: nat, s: Bytes)
    requires Cut(file, pos, WriteString(s)) && StringFits(s)
    ensures ReadString(file, pos).Failed?
  {
    CutSplit(file, pos, Spell(|s|, 8), s);
    Powers();
    if At(file, pos, Spell(|s|, 8)) {
      NumberComesBack(file, pos, |s|, 8);
    }
  }

  lemma {:induction false} StringsCut(file: Bytes, pos: nat, strings: seq<Bytes>)
    requires Cut(file, pos, WriteStrings(strings)) && forall s :: s in strings ==> StringFits(s)
    ensures ReadStrings(file, pos, |strings|).Failed?
    decreases |strings|
  {
    hide ReadString, WriteString, At, Cut;
    assert strings != [] by { NothingIsCut(file, pos); }
    CutSplit(file, pos, WriteString(strings[0]), WriteStrings(strings[1..]));
    if Cut(file, pos, WriteString(strings[0])) {
      StringCut(file, pos, strings[0]);
    } else {
      StringComesBack(file, pos, strings[0]);
      StringsCut(file, pos + |WriteString(strings[0])|, strings[1..]);
    }
  }

  lemma NothingIsCut(file: Bytes, pos: nat)
    ensures !Cut(file, pos, [])
  {
  }

  /** Behind the end of the file not even a header can be read. */
  lemma BehindTheEnd(file: Bytes, pos: nat)
    requires pos > |file|
    ensures ReadArray(file, pos).Failed? && ReadString(file, pos).Failed?
  {
  }

  /** An array cut short goes unnoticed exactly when only its overhang is missing. */
  lemma {:induction false} ArrayCut(file: Bytes, pos: nat, a: Array)
    requires Cut(file, pos, WriteArray(a)) && ArrayFits(a)
    ensures ReadArray(file, pos) == Overlooked(file, pos, |WriteArray(a)|, Overhang(a), KeptArray(a))
    decreases a, 1, 0
  {
    hide At, Cut, ReadNumber, ReadString, WriteNumbers;
    OverhangFits(a);
    match a
    case Numbers(code, items) =>
      HeaderCut(file, pos, code, |items|, WriteNumbers(items, Width(code)));
    case Strings(strings) =>
      HeaderCut(file, pos, STRING, |strings|, WriteStrings(strings));
      if Cut(file, pos + 12, WriteStrings(strings)) {
        StringsCut(file, pos + 12, strings);
        StillInside(file, pos + 12, WriteStrings(strings));
      }
    case Arrays(arrays) =>
      HeaderCut(file, pos, ARRAY, |arrays|, WriteArrays(a, |arrays|));
      if Cut(file, pos + 12, WriteArrays(a, |arrays|)) {
        assert arrays != [] by { NothingIsCut(file, pos + 12); }
        ArraysCut(file, pos + 12, a, |arrays|);
      }
  }

  lemma StillInside(file: Bytes, pos: nat, bytes: Bytes)
    requires Cut(file, pos, bytes)
    ensures pos <= |file| < pos + |bytes|
  {
  }

  /** An array that is cut inside its header is refused; otherwise its items are cut. */
  lemma HeaderCut(file: Bytes, pos: nat, code: nat, count: nat, items: Bytes)
    requires Cut(file, pos, Spell(code, 4) + Spell(count, 8) + items) && code <= 12 && count <= COUNT_LIMIT
    ensures pos <= |file| < pos + 12 + |items|
    ensures |file| < pos + 12 ==> ReadArray(file, pos).Failed?
    ensures |file| >= pos + 12 ==> Cut(file, pos + 12, items)
    ensures |file| >= pos + 12 ==> ReadArray(file, pos) == ReadItems(file, pos + 12, code, count)
  {
    hide ReadItems;
    Powers();
    var header := Spell(code, 4) + Spell(count, 8);
    CutSplit(file, pos, header, items);
    if At(file, pos, header) {
      AtSplit(file, pos, Spell(code, 4), Spell(count, 8));
      NumberComesBack(file, pos, code, 4);
      NumberComesBack(file, pos + 4, count, 8);
    }
  }

  lemma {:induction false} ArraysCut(file: Bytes, pos: nat, a: Array, n: nat)
    requires a.Arrays? && 0 < n <= |a.arrays| && ArrayFits(a) && Cut(file, pos, WriteArrays(a, n))
    ensures SkipArrays(file, pos, n)
         == Overlooked(file, pos, |WriteArrays(a, n)|, Overhang(a.arrays[|a.arrays| - 1]), ())
    decreases a, 0, n
  {
    hide At, Cut, ReadArray, KeptArray, Overhang;
    var b := a.arrays[|a.arrays| - n];
    assert ArrayFits(b);
    CutSplit(file, pos, WriteArray(b), WriteArrays(a, n - 1));
    if Cut(file, pos, WriteArray(b)) {
      ArrayCut(file, pos, b);
      StillInside(file, pos, WriteArray(b));
      if n > 1 {
        LastArrayFits(a, n - 1);
        BehindTheEnd(file, pos + |WriteArray(b)|);
      } else {
        assert |WriteArrays(a, 0)| == 0;
      }
    } else {
      ArrayComesBack(file, pos, b);
      assert n > 1 by { NothingIsCut(file, pos + |WriteArray(b)|); }
      ArraysCut(file, pos + |WriteArray(b)|, a, n - 1);
    }
  }

  lemma ValueCut(file: Bytes, pos: nat, v: Written)
    requires Cut(file, pos, WriteBody(v)) && WrittenFits(v)
    ensures ReadValue(file, pos, CodeOf(v)) == Overlooked(file, pos, |WriteBody(v)|, Tail(v), KeptValue(v))
  {
    hide At, ReadArray, KeptArray, ReadString, Kept, WriteString, WriteArray;
    match v
    case Fixed(code, n) =>
    case Str(s) => StringCut(file, pos, s);
    case Arr(a) => ArrayCut(file, pos, a);
  }

  lemma TailFits(e: Entry)
    ensures Tail(e.value) <= |WriteBody(e.value)|
    ensures 12 + Tail(e.value) <= |WriteEntry(e)|
  {
    if e.value.Arr? {
      OverhangFits(e.value.a);
    }
  }

  lemma EntryCut(file: Bytes, pos: nat, e: Entry, count: nat, kv: Metadata)
    requires Cut(file, pos, WriteEntry(e)) && StringFits(e.key) && WrittenFits(e.value)
    ensures ReadEntries(file, pos, count + 1, kv) ==
      if |file| + Tail(e.value) < pos + |WriteEntry(e)| then Failed
      else ReadEntries(file, pos + |WriteEntry(e)|, count, kv[e.key := KeptValue(e.value)])
  {
    hide At, ReadString, ReadValue, WrittenFits, KeptValue, WriteString, WriteBody, CodeOf, Tail;
    CodesAreSmall(e.value);
    TailFits(e);
    var front := WriteString(e.key) + Spell(CodeOf(e.value), 4);
    CutSplit(file, pos, front, WriteBody(e.value));
    if Cut(file, pos, front) {
      StillInside(file, pos, front);
      CutSplit(file, pos, WriteString(e.key), Spell(CodeOf(e.value), 4));
      if Cut(file, pos, WriteString(e.key)) {
        StringCut(file, pos, e.key);
      } else {
        StringComesBack(file, pos, e.key);
      }
    } else {
      AtSplit(file, pos, WriteString(e.key), Spell(CodeOf(e.value), 4));
      StringComesBack(file, pos, e.key);
      NumberComesBack(file, pos + |WriteString(e.key)|, CodeOf(e.value), 4);
      ValueCut(file, pos + |front|, e.value);
    }
  }

  lemma EntryStep(file: Bytes, pos: nat, e: Entry, count: nat, kv: Metadata)
    requires At(file, pos, WriteEntry(e)) && StringFits(e.key) && WrittenFits(e.value)
    ensures ReadEntries(file, pos, count + 1, kv)
         == ReadEntries(file, pos + |WriteEntry(e)|, count, kv[e.key := KeptValue(e.value)])
  {
    hide At, ReadString, ReadNumber, ReadValue, WriteEntry, WriteString, WrittenFits, KeptValue;
    EntryComesBack(file, pos, e);
  }

  lemma NoEntriesBehind(file: Bytes, pos: nat, count: nat, kv: Metadata)
    requires pos > |file|
    ensures ReadEntries(file, pos, count, kv) == if count == 0 then Got(kv, pos) else Failed
  {
    BehindTheEnd(file, pos);
  }

  /**
   * Entries cut short are refused, unless all that is missing is the end of a skipped array that comes
   * last. Then they are read as if nothing were missing, with a position behind the end of the file.
   */
  lemma {:induction false} EntriesCut(file: Bytes, pos: nat, entries: seq<Entry>, kv: Metadata)
    requires Cut(file, pos, WriteEntries(entries)) && EntriesFit(entries)
    ensures ReadEntries(file, pos, |entries|, kv)
         == Overlooked(file, pos, |WriteEntries(entries)|, LastTail(entries), KeptEntries(entries, kv))
    decreases |entries|
  {
    hide At, Cut, WriteEntry, WrittenFits, KeptValue, Tail, ReadEntries;
    assert entries != [] by { NothingIsCut(file, pos); }
    var e, rest := entries[0], entries[1..];
    var kv' := kv[e.key := KeptValue(e.value)];
    CutSplit(file, pos, WriteEntry(e), WriteEntries(rest));
    if Cut(file, pos, WriteEntry(e)) {
      StillInside(file, pos, WriteEntry(e));
      EntryCut(file, pos, e, |rest|, kv);
      NoEntriesBehind(file, pos + |WriteEntry(e)|, |rest|, kv');
      if rest != [] {
        LastTailFits(rest);
      }
    } else {
      EntryStep(file, pos, e, |rest|, kv);
      assert rest != [] by { NothingIsCut(file, pos + |WriteEntry(e)|); }
      EntriesCut(file, pos + |WriteEntry(e)|, rest, kv');
    }
  }

  lemma {:induction false} LastTailFits(entries: seq<Entry>)
    requires entries != []
    ensures 12 + LastTail(entries) <= |WriteEntries(entries)|
  {
    if |entries| == 1 {
      TailFits(entries[0]);
    } else {
      LastTailFits(entries[1..]);
    }
  }

  // ---------------------------------------------------------------------------------------------
  // Descriptors cut short
  // ---------------------------------------------------------------------------------------------

  lemma {:induction false} DimsCut(file: Bytes, pos: nat, shape: seq<nat>, elements: nat)
    requires Cut(file, pos, WriteNumbers(shape, 8)) && (forall d :: d in shape ==> DimFits(d)) && elements < TWO_64
    ensures ReadDims(file, pos, |shape|, elements).Failed?
    decreases |shape|
  {
    hide At, Cut;
    assert shape != [] by { NothingIsCut(file, pos); }
    var d, rest := shape[0], shape[1..];
    CutSplit(file, pos, Spell(d, 8), WriteNumbers(rest, 8));
    if Cut(file, pos, Spell(d, 8)) {
      StillInside(file, pos, Spell(d, 8));
    } else {
      assert DimFits(d);
      Powers();
      hide Power;
      NumberComesBack(file, pos, d, 8);
      if elements <= (TWO_64 - 1) / d {
        GuardIsExact(elements, d);
        DimsCut(file, pos + 8, rest, elements * d);
      }
    }
  }

  lemma TensorCut(file: Bytes, pos: nat, t: TensorDesc)
    requires Cut(file, pos, WriteTensor(t)) && TensorFits(t)
    ensures ReadTensor(file, pos).Failed?
  {
    Powers();
    hide At, Cut, Power, ReadString, WriteString, ReadDims, WriteNumbers, BytesOf;
    var tail := Spell(t.kind, 4) + Spell(t.offset, 8);
    var back := Spell(|t.shape|, 4) + (WriteNumbers(t.shape, 8) + tail);
    CutSplit(file, pos, WriteString(t.name), back);
    if Cut(file, pos, WriteString(t.name)) {
      StringCut(file, pos, t.name);
      return;
    }
    StringComesBack(file, pos, t.name);
    var p := pos + |WriteString(t.name)|;
    CutSplit(file, p, Spell(|t.shape|, 4), WriteNumbers(t.shape, 8) + tail);
    if Cut(file, p, Spell(|t.shape|, 4)) {
      StillInside(file, p, Spell(|t.shape|, 4));
      return;
    }
    NumberComesBack(file, p, |t.shape|, 4);
    CutSplit(file, p + 4, WriteNumbers(t.shape, 8), tail);
    if Cut(file, p + 4, WriteNumbers(t.shape, 8)) {
      DimsCut(file, p + 4, t.shape, 1);
      return;
    }
    StillInside(file, p + 4 + 8 * |t.shape|, tail);
  }

  lemma {:induction false} TensorsCut(file: Bytes, pos: nat, more: seq<TensorDesc>, ts: seq<TensorDesc>)
    requires Cut(file, pos, WriteTensors(more)) && forall i :: 0 <= i < |more| ==> TensorFits(more[i])
    ensures ReadTensors(file, pos, |more|, ts).Failed?
    decreases |more|
  {
    hide At, Cut, ReadTensor, WriteTensor, TensorFits;
    assert more != [] by { NothingIsCut(file, pos); }
    CutSplit(file, pos, WriteTensor(more[0]), WriteTensors(more[1..]));
    if Cut(file, pos, WriteTensor(more[0])) {
      TensorCut(file, pos, more[0]);
    } else {
      TensorComesBack(file, pos, more[0]);
      TensorsCut(file, pos + |WriteTensor(more[0])|, more[1..], ts + [more[0]]);
    }
  }

  /** In any file: descriptors that are read at all end inside it. */
  lemma {:induction false} TensorsEndInside(file: Bytes, pos: nat, count: nat, ts: seq<TensorDesc>)
    requires count > 0 && ReadTensors(file, pos, count, ts).Got?
    ensures ReadTensors(file, pos, count, ts).next <= |file|
    decreases count
  {
    var t := ReadTensor(file, pos);
    if count > 1 {
      TensorsEndInside(file, t.next, count - 1, ts + [t.value]);
    }
  }

  // ---------------------------------------------------------------------------------------------
  // Whole files
  // ---------------------------------------------------------------------------------------------

  /** Where the descriptors of a file end. */
  function FrontEnd(entries: seq<Entry>, tensors: seq<TensorDesc>): nat {
    24 + |WriteEntries(entries)| + |WriteTensors(tensors)|
  }

  lemma Within(file: Bytes, k: nat, pos: nat, bytes: Bytes)
    requires At(file, pos, bytes) && k <= |file|
    ensures pos + |bytes| <= k ==> At(file[..k], pos, bytes)
    ensures pos <= k < pos + |bytes| ==> Cut(file[..k], pos, bytes)
  {
    if pos + |bytes| <= k {
      assert file[..k][pos..pos + |bytes|] == file[pos..pos + |bytes|];
    } else if pos <= k {
      assert file[..k][pos..] == file[pos..pos + |bytes|][..k - pos];
    }
  }

  lemma ShortHeader(file: Bytes)
    requires |file| < 24
    ensures ReadFile(file).Failed?
  {
  }

  lemma NoTensorsBehind(file: Bytes, pos: nat, count: nat)
    requires pos > |file|
    ensures ReadTensors(file, pos, count, []) == if count == 0 then Got([], pos) else Failed
  {
    BehindTheEnd(file, pos);
  }

  lemma NoDescriptors()
    ensures WriteTensors([]) == []
  {
  }

  lemma LastTailInside(entries: seq<Entry>)
    ensures LastTail(entries) <= |WriteEntries(entries)|
  {
    if entries != [] {
      LastTailFits(entries);
    }
  }

  lemma PaddedIsBehind(pos: nat, align: nat)
    requires align > 0
    ensures Padded(pos, align) >= pos
  {
  }

  /**
   * A file cut to k bytes, for every file and every k. It opens exactly if its data offset fits 64 bits
   * and, with tensors, lies inside what is left; without tensors, if nothing is missing from its front
   * but the overhang of the last entry. And then it opens as the whole file would.
   */
  lemma CutFile(version: nat, entries: seq<Entry>, tensors: seq<TensorDesc>, rest: Bytes, k: nat)
    requires 2 <= version <= 3 && |tensors| <= 65536 && |entries| <= 65536
    requires EntriesFit(entries) && forall i :: 0 <= i < |tensors| ==> TensorFits(tensors[i])
    requires k <= |WriteFile(version, entries, tensors, rest)|
    ensures var end, kv := FrontEnd(entries, tensors), KeptEntries(entries, map[]);
      var data := Padded(end, Alignment(kv));
      ReadFile(WriteFile(version, entries, tensors, rest)[..k]) ==
        if data < TWO_64 && (if tensors == [] then k + LastTail(entries) >= end else k > data)
        then Got(Opened(version, kv, tensors, data), end) else Failed
  {
    hide At, Cut, WriteFile, WriteHeader, WriteEntries, WriteTensors, ReadHeader, ReadEntries, ReadTensors, Padded,
      Alignment, TensorFits, EntriesFit, KeptEntries, LastTail;
    var file := WriteFile(version, entries, tensors, rest);
    var cut, p := file[..k], 24 + |WriteEntries(entries)|;
    FileParts(version, entries, tensors, rest);
    Within(file, k, 0, WriteHeader(version, |tensors|, |entries|));
    Within(file, k, 24, WriteEntries(entries));
    Within(file, k, p, WriteTensors(tensors));
    LastTailInside(entries);
    NoDescriptors();
    PaddedIsBehind(FrontEnd(entries, tensors), Alignment(KeptEntries(entries, map[])));
    if k < 24 {
      ShortHeader(cut);
      return;
    }
    HeaderComesBackAt(cut, 0, version, |tensors|, |entries|);
    if k < p {
      EntriesCut(cut, 24, entries, map[]);
      NoTensorsBehind(cut, p, |tensors|);
    } else {
      EntriesComeBack(cut, 24, entries, map[]);
      if k < FrontEnd(entries, tensors) {
        TensorsCut(cut, p, tensors, []);
      } else {
        TensorsComeBack(cut, p, tensors, []);
        assert [] + tensors == tensors;
      }
    }
  }

  /** In any file that opens and declares a tensor, front and data offset are inside the file. */
  lemma TensorsNeedTheFront(file: Bytes)
    requires ReadFile(file).Got? && ReadHeader(file, 0).value.tensors > 0
    ensures ReadFile(file).next <= ReadFile(file).value.dataOffset < |file|
  {
    hide ReadHeader, ReadEntries, ReadTensors, Alignment;
    var r := ReadFile(file);
    PaddedIsBehind(r.next, Alignment(r.value.kv));
  }

  /** A file without tensors whose only entry is an array of five bytes, which the loader skips. */
  function SkippedArray(): Entry {
    Entry([], Arr(Numbers(UINT8, [1, 2, 3, 4, 5])))
  }

  /** With all five items missing it opens, and the position is behind the end of the file. */
  lemma TruncatedFileIsAccepted()
    ensures var file := WriteFile(3, [SkippedArray()], [], []);
      |file| == 53 && ReadFile(file[..48]).Got? && ReadFile(file[..48]).next == 53
      && ReadFile(file[..47]).Failed?
  {
    var e, none: seq<Entry> := SkippedArray(), [];
    assert |WriteNumbers([1, 2, 3, 4, 5], 1)| == 5;
    assert [e][1..] == none && WriteEntries(none) == [];
    assert |WriteEntries([e])| == 29 && LastTail([e]) == 5;
    Powers();
    assert Alignment(KeptEntries([e], map[])) == 32 by {
      assert |ALIGNMENT_KEY| > 0 && ALIGNMENT_KEY !in KeptEntries([e], map[]);
    }
    CutFile(3, [e], [], [], 48);
    CutFile(3, [e], [], [], 47);
  }
}
