/** Reading what was written: every value comes back, and exactly its own bytes are consumed. */
module GgufRoundTrip {
  import opened Utf8
  import opened LittleEndian
  import opened GgufValues
  import opened GgufFormat

  lemma NumberComesBack(file: Bytes, pos: nat, n: nat, k: nat)
    requires At(file, pos, Spell(n, k)) && n < Power(k)
    ensures ReadNumber(file, pos, k) == Got(n, pos + k)
  {
    NumberOfSpelled(n, k);
  }

  /** A string comes back unless it is longer than a mebibyte. */
  lemma StringComesBack(file: Bytes, pos: nat, s: Bytes)
    requires At(file, pos, WriteString(s)) && |s| < 0x1_0000_0000_0000_0000
    ensures ReadString(file, pos) == if |s| <= 0x10_0000 then Got(s, pos + |WriteString(s)|) else Failed
  {
    Powers();
    AtSplit(file, pos, Spell(|s|, 8), s);
    NumberComesBack(file, pos, |s|, 8);
  }

  lemma {:induction false} StringsComeBack(file: Bytes, pos: nat, strings: seq<Bytes>)
    requires At(file, pos, WriteStrings(strings)) && forall s :: s in strings ==> StringFits(s)
    ensures ReadStrings(file, pos, |strings|) == Got(strings, pos + |WriteStrings(strings)|)
    decreases |strings|
  {
    hide ReadString, WriteString, At;
    if strings != [] {
      AtSplit(file, pos, WriteString(strings[0]), WriteStrings(strings[1..]));
      assert StringFits(strings[0]) by {
        assert strings[0] in strings;
      }
      StringComesBack(file, pos, strings[0]);
      StringsComeBack(file, pos + |WriteString(strings[0])|, strings[1..]);
      assert [strings[0]] + strings[1..] == strings;
    }
  }

  lemma {:induction false} WordsComeBack(file: Bytes, pos: nat, items: seq<nat>)
    requires At(file, pos, WriteNumbers(items, 4)) && forall n :: n in items ==> Word(n)
    ensures pos + |items| * 4 <= |file| && WordsAt(file, pos, |items|) == items
    decreases |items|
  {
    if items != [] {
      assert Word(items[0]) by { assert items[0] in items; }
      AtSplit(file, pos, Spell(items[0], 4), WriteNumbers(items[1..], 4));
      NumberComesBack(file, pos, items[0], 4);
      WordsComeBack(file, pos + 4, items[1..]);
    }
  }

  /** An array comes back as what is kept of it, and is consumed to its last byte, however deep it nests. */
  lemma {:induction false} ArrayComesBack(file: Bytes, pos: nat, a: Array)
    requires At(file, pos, WriteArray(a)) && ArrayFits(a)
    ensures ReadArray(file, pos) == Got(KeptArray(a), pos + |WriteArray(a)|)
    decreases a, 1, 0
  {
    hide At, ReadNumber, ReadString, WriteNumbers;
    match a
    case Numbers(code, items) =>
      HeaderComesBack(file, pos, code, |items|, WriteNumbers(items, Width(code)));
      NumbersComeBack(file, pos + 12, a);
    case Strings(strings) =>
      HeaderComesBack(file, pos, STRING, |strings|, WriteStrings(strings));
      StringsComeBack(file, pos + 12, strings);
    case Arrays(arrays) =>
      HeaderComesBack(file, pos, ARRAY, |arrays|, WriteArrays(a, |arrays|));
      ArraysAreSkipped(file, pos + 12, a, |arrays|);
  }

  /** The type code and the count in front of the items. */
  lemma HeaderComesBack(file: Bytes, pos: nat, code: nat, count: nat, items: Bytes)
    requires At(file, pos, Spell(code, 4) + Spell(count, 8) + items) && code <= 12 && count < 0x1_0000_0000_0000_0000
    ensures At(file, pos + 12, items)
    ensures ReadArray(file, pos) == if count <= 0x100_0000 then ReadItems(file, pos + 12, code, count) else Failed
  {
    hide ReadItems, ReadNumber;
    Powers();
    AtSplit(file, pos, Spell(code, 4) + Spell(count, 8), items);
    AtSplit(file, pos, Spell(code, 4), Spell(count, 8));
    NumberComesBack(file, pos, code, 4);
    NumberComesBack(file, pos + 4, count, 8);
  }

  lemma NumbersComeBack(file: Bytes, pos: nat, a: Array)
    requires a.Numbers? && ArrayFits(a) && At(file, pos, WriteNumbers(a.items, Width(a.code)))
    ensures ReadItems(file, pos, a.code, |a.items|) == Got(KeptArray(a), pos + |a.items| * Width(a.code))
  {
    hide At, Power, WordsAt;
    if Width(a.code) == 4 {
      assert forall n :: n in a.items ==> Word(n);
      WordsComeBack(file, pos, a.items);
    }
  }

  lemma {:induction false} ArraysAreSkipped(file: Bytes, pos: nat, a: Array, n: nat)
    requires a.Arrays? && n <= |a.arrays| && ArrayFits(a) && At(file, pos, WriteArrays(a, n))
    ensures SkipArrays(file, pos, n) == Got((), pos + |WriteArrays(a, n)|)
    decreases a, 0, n
  {
    hide At, ReadArray, KeptArray;
    if n > 0 {
      var b := a.arrays[|a.arrays| - n];
      assert ArrayFits(b);
      AtSplit(file, pos, WriteArray(b), WriteArrays(a, n - 1));
      ArrayComesBack(file, pos, b);
      ArraysAreSkipped(file, pos + |WriteArray(b)|, a, n - 1);
    }
  }

  lemma ValueComesBack(file: Bytes, pos: nat, v: Written)
    requires At(file, pos, WriteBody(v)) && WrittenFits(v)
    ensures ReadValue(file, pos, CodeOf(v)) == Got(KeptValue(v), pos + |WriteBody(v)|)
  {
    hide At, ReadArray, KeptArray, ReadString, ReadNumber, Kept, WriteString, WriteArray;
    match v
    case Fixed(code, n) => NumberComesBack(file, pos, n, Width(code));
    case Str(s) => StringComesBack(file, pos, s);
    case Arr(a) => ArrayComesBack(file, pos, a);
  }

  predicate SignedCode(code: nat) {
    code == INT8 || code == INT16 || code == INT32 || code == INT64
  }

  /** A signed number written in two's complement on its own width is kept as that number. */
  lemma SignedComesBack(file: Bytes, pos: nat, code: nat, i: int)
    requires SignedCode(code) && InRange(i, Width(code))
    requires At(file, pos, WriteBody(Fixed(code, Unsigned(i, Width(code)))))
    ensures ReadValue(file, pos, code) == Got(if code == INT64 then Int64(i) else Int32(i), pos + Width(code))
  {
    hide At, Signed, Unsigned, InRange;
    SignedUnsigned(i, Width(code));
    ValueComesBack(file, pos, Fixed(code, Unsigned(i, Width(code))));
  }

  function TwosComplements(items: seq<int>): (ns: seq<nat>)
    requires forall i :: i in items ==> InRange(i, 4)
    ensures |ns| == |items| && forall n :: n in ns ==> n < Power(4)
  {
    seq(|items|, k requires 0 <= k < |items| && forall i :: i in items ==> InRange(i, 4) =>
      assert items[k] in items; Unsigned(items[k], 4))
  }

  /** The same for an array of 32-bit numbers. */
  lemma SignedItemsComeBack(file: Bytes, pos: nat, items: seq<int>)
    requires |items| <= COUNT_LIMIT && forall i :: i in items ==> InRange(i, 4)
    requires At(file, pos, WriteArray(Numbers(INT32, TwosComplements(items))))
    ensures ReadArray(file, pos) == Got(Int32s(items), pos + 12 + 4 * |items|)
  {
    hide At, ReadArray, Power;
    var ns := TwosComplements(items);
    ArrayComesBack(file, pos, Numbers(INT32, ns));
    forall k | 0 <= k < |items|
      ensures Signed(ns[k], 4) == items[k]
    {
      assert items[k] in items;
      SignedUnsigned(items[k], 4);
    }
    assert SignedWords(ns) == items;
  }

  lemma EntryComesBack(file: Bytes, pos: nat, e: Entry)
    requires At(file, pos, WriteEntry(e)) && StringFits(e.key) && WrittenFits(e.value)
    ensures ReadString(file, pos) == Got(e.key, pos + |WriteString(e.key)|)
    ensures var at := pos + |WriteString(e.key)|;
      && ReadNumber(file, at, 4) == Got(CodeOf(e.value), at + 4)
      && ReadValue(file, at + 4, CodeOf(e.value)) == Got(KeptValue(e.value), pos + |WriteEntry(e)|)
  {
    hide At, ReadString, ReadNumber, ReadValue, WrittenFits, KeptValue, WriteString, WriteBody, CodeOf;
    CodesAreSmall(e.value);
    AtSplit(file, pos, WriteString(e.key) + Spell(CodeOf(e.value), 4), WriteBody(e.value));
    AtSplit(file, pos, WriteString(e.key), Spell(CodeOf(e.value), 4));
    StringComesBack(file, pos, e.key);
    var at := pos + |WriteString(e.key)|;
    NumberComesBack(file, at, CodeOf(e.value), 4);
    ValueComesBack(file, at + 4, e.value);
  }

  lemma CodesAreSmall(v: Written)
    requires WrittenFits(v)
    ensures CodeOf(v) < Power(4)
  {
    Powers();
  }

  /**
   * The metadata round trip: whatever stands before and behind them, entries within the limits are read
   * back as the map they mean, and the position ends right behind the last of their bytes.
   */
  lemma {:induction false} EntriesComeBack(file: Bytes, pos: nat, entries: seq<Entry>, kv: Metadata)
    requires At(file, pos, WriteEntries(entries)) && EntriesFit(entries)
    ensures ReadEntries(file, pos, |entries|, kv) == Got(KeptEntries(entries, kv), pos + |WriteEntries(entries)|)
    decreases |entries|
  {
    hide At, ReadString, ReadNumber, ReadValue, WriteEntry, WrittenFits, KeptValue;
    if entries != [] {
      var e := entries[0];
      AtSplit(file, pos, WriteEntry(e), WriteEntries(entries[1..]));
      EntryComesBack(file, pos, e);
      EntriesComeBack(file, pos + |WriteEntry(e)|, entries[1..], kv[e.key := KeptValue(e.value)]);
    }
  }
}
