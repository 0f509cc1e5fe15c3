/** GGUF metadata: what a file means, how it is written, and how the loader reads it. */
module GgufFormat {
  import opened Utf8
  import opened LittleEndian
  import opened GgufValues

  // ---------------------------------------------------------------------------------------------
  // What the format can say
  // ---------------------------------------------------------------------------------------------

  const UINT8 := 0
  const INT8 := 1
  const UINT16 := 2
  const INT16 := 3
  const UINT32 := 4
  const INT32 := 5
  const FLOAT32 := 6
  const BOOL := 7
  const STRING := 8
  const ARRAY := 9
  const UINT64 := 10
  const INT64 := 11
  const FLOAT64 := 12

  const STRING_LIMIT := 0x10_0000
  const COUNT_LIMIT := 0x100_0000

  /** The width of a fixed-size type; 0 for every other code. */
  function Width(code: nat): (w: nat)
    ensures w == 0 || w == 1 || w == 2 || w == 4 || w == 8
  {
    if code == UINT8 || code == INT8 || code == BOOL then 1
    else if code == UINT16 || code == INT16 then 2
    else if code == UINT32 || code == INT32 || code == FLOAT32 then 4
    else if code == UINT64 || code == INT64 || code == FLOAT64 then 8
    else 0
  }

  /** An array: raw numbers of one fixed-size type, strings, or arrays again. */
  datatype Array =
    | Numbers(code: nat, items: seq<nat>)
    | Strings(strings: seq<Bytes>)
    | Arrays(arrays: seq<Array>)

  /** A metadata value as written: raw numbers of one fixed-size type, a string, or an array. */
  datatype Written =
    | Fixed(code: nat, n: nat)
    | Str(s: Bytes)
    | Arr(a: Array)

  datatype Entry = Entry(key: Bytes, value: Written)

  // ---------------------------------------------------------------------------------------------
  // The limits of the loader
  // ---------------------------------------------------------------------------------------------

  predicate StringFits(s: Bytes) {
    |s| <= STRING_LIMIT
  }

  predicate ArrayFits(a: Array)
    decreases a
  {
    match a
    case Numbers(code, items) =>
      Width(code) > 0 && |items| <= COUNT_LIMIT && forall n :: n in items ==> n < Power(Width(code))
    case Strings(strings) => |strings| <= COUNT_LIMIT && forall s :: s in strings ==> StringFits(s)
    case Arrays(arrays) => |arrays| <= COUNT_LIMIT && forall b :: b in arrays ==> ArrayFits(b)
  }

  predicate WrittenFits(v: Written) {
    match v
    case Fixed(code, n) => Width(code) > 0 && n < Power(Width(code))
    case Str(s) => StringFits(s)
    case Arr(a) => ArrayFits(a)
  }

  predicate EntriesFit(entries: seq<Entry>) {
    forall i :: 0 <= i < |entries| ==> StringFits(entries[i].key) && WrittenFits(entries[i].value)
  }

  // ---------------------------------------------------------------------------------------------
  // Writing
  // ---------------------------------------------------------------------------------------------

  function WriteString(s: Bytes): Bytes {
    Spell(|s|, 8) + s
  }

  function WriteStrings(strings: seq<Bytes>): Bytes {
    if strings == [] then [] else WriteString(strings[0]) + WriteStrings(strings[1..])
  }

  function WriteNumbers(items: seq<nat>, width: nat): (b: Bytes)
    ensures |b| == |items| * width
  {
    if items == [] then [] else Spell(items[0], width) + WriteNumbers(items[1..], width)
  }

  function WriteArray(a: Array): Bytes
    decreases a, 0
  {
    match a
    case Numbers(code, items) => Spell(code, 4) + Spell(|items|, 8) + WriteNumbers(items, Width(code))
    case Strings(strings) => Spell(STRING, 4) + Spell(|strings|, 8) + WriteStrings(strings)
    case Arrays(arrays) => Spell(ARRAY, 4) + Spell(|arrays|, 8) + WriteArrays(a, |arrays|)
  }

  /** The last n inner arrays. */
  function WriteArrays(a: Array, n: nat): Bytes
    requires a.Arrays? && n <= |a.arrays|
    decreases a, 0, n
  {
    if n == 0 then [] else WriteArray(a.arrays[|a.arrays| - n]) + WriteArrays(a, n - 1)
  }

  function CodeOf(v: Written): nat {
    match v
    case Fixed(code, _) => code
    case Str(_) => STRING
    case Arr(_) => ARRAY
  }

  function WriteBody(v: Written): Bytes {
    match v
    case Fixed(code, n) => Spell(n, Width(code))
    case Str(s) => WriteString(s)
    case Arr(a) => WriteArray(a)
  }

  function WriteEntry(e: Entry): Bytes {
    WriteString(e.key) + Spell(CodeOf(e.value), 4) + WriteBody(e.value)
  }

  function WriteEntries(entries: seq<Entry>): Bytes {
    if entries == [] then [] else WriteEntry(entries[0]) + WriteEntries(entries[1..])
  }

  // ---------------------------------------------------------------------------------------------
  // What the loader keeps
  // ---------------------------------------------------------------------------------------------

  /** Narrow integers are widened, a byte is a bool when it is not zero, floats stay bit patterns. */
  function Kept(code: nat, n: nat): Value
    requires Width(code) > 0 && n < Power(Width(code))
  {
    if code == UINT8 || code == UINT16 || code == UINT32 then UInt32(n)
    else if code == INT8 || code == INT16 || code == INT32 then Int32(Signed(n, Width(code)))
    else if code == FLOAT32 then Float32(n)
    else if code == BOOL then Bool(n != 0)
    else if code == UINT64 then UInt64(n)
    else if code == INT64 then Int64(Signed(n, 8))
    else Float64(n)
  }

  /** Which of the thirteen types are fixed numbers, how wide, and what is kept of them. */
  lemma TypesAre(code: nat, n: nat)
    ensures Width(code) > 0 <==> code < 13 && code != 8 && code != 9
    ensures n < 0x100 ==> Width(0) == Width(1) == Width(7) == 1 && Power(1) == 0x100
    ensures n < 0x100 ==>
      && Kept(0, n) == UInt32(n) && Kept(1, n) == Int32(if n < 0x80 then n else n - 0x100) && Kept(7, n) == Bool(n != 0)
    ensures n < 0x1_0000 ==> Width(2) == Width(3) == 2 && Power(2) == 0x1_0000
    ensures n < 0x1_0000 ==> Kept(2, n) == UInt32(n) && Kept(3, n) == Int32(if n < 0x8000 then n else n - 0x1_0000)
  {
    Powers();
  }

  lemma WideTypesAre(n: nat)
    ensures Width(4) == Width(5) == Width(6) == 4 && Power(4) == 0x1_0000_0000
    ensures Width(10) == Width(11) == Width(12) == 8 && Power(8) == 0x1_0000_0000_0000_0000
    ensures n < 0x1_0000_0000 ==>
      && Kept(4, n) == UInt32(n) && Kept(5, n) == Int32(if n < 0x8000_0000 then n else n - 0x1_0000_0000)
      && Kept(6, n) == Float32(n)
    ensures n < 0x1_0000_0000_0000_0000 ==>
      && Kept(10, n) == UInt64(n) && Kept(12, n) == Float64(n)
      && Kept(11, n) == Int64(if n < 0x8000_0000_0000_0000 then n else n - 0x1_0000_0000_0000_0000)
  {
    Powers();
    hide Power;
  }

  const SKIPPED := Text(Literal("<array_type_skipped>"))

  predicate Word(n: nat) {
    n < Power(4)
  }

  function SignedWords(items: seq<nat>): seq<int>
    requires forall n :: n in items ==> Word(n)
  {
    seq(|items|, i requires 0 <= i < |items| && forall n :: n in items ==> Word(n) =>
      assert items[i] in items; Signed(items[i], 4))
  }

  /** Arrays of 32-bit numbers and of strings are kept; all others leave a mark. */
  function KeptArray(a: Array): Value
    requires ArrayFits(a)
  {
    match a
    case Numbers(code, items) =>
      if code == UINT32 then UInt32s(items)
      else if code == INT32 then assert forall n :: n in items ==> Word(n); Int32s(SignedWords(items))
      else if code == FLOAT32 then Float32s(items)
      else SKIPPED
    case Strings(strings) => Texts(strings)
    case Arrays(_) => SKIPPED
  }

  function KeptValue(v: Written): Value
    requires WrittenFits(v)
  {
    match v
    case Fixed(code, n) => Kept(code, n)
    case Str(s) => Text(s)
    case Arr(a) => KeptArray(a)
  }

  /** The entries put into a map one after another. */
  function KeptEntries(entries: seq<Entry>, kv: Metadata): Metadata
    requires EntriesFit(entries)
  {
    if entries == [] then kv
    else KeptEntries(entries[1..], kv[entries[0].key := KeptValue(entries[0].value)])
  }

  /** Each key ends with the value of its last entry. */
  lemma {:induction false} LastEntryWins(entries: seq<Entry>, kv: Metadata, i: nat)
    requires EntriesFit(entries) && i < |entries|
    requires forall j :: i < j < |entries| ==> entries[j].key != entries[i].key
    ensures entries[i].key in KeptEntries(entries, kv)
    ensures KeptEntries(entries, kv)[entries[i].key] == KeptValue(entries[i].value)
  {
    var kv' := kv[entries[0].key := KeptValue(entries[0].value)];
    if i == 0 {
      OtherKeysStay(entries[1..], kv', entries[0].key);
    } else {
      LastEntryWins(entries[1..], kv', i - 1);
    }
  }

  lemma {:induction false} OtherKeysStay(entries: seq<Entry>, kv: Metadata, key: Bytes)
    requires EntriesFit(entries) && forall j :: 0 <= j < |entries| ==> entries[j].key != key
    ensures key in KeptEntries(entries, kv) <==> key in kv
    ensures key in kv ==> KeptEntries(entries, kv)[key] == kv[key]
  {
    if entries != [] {
      OtherKeysStay(entries[1..], kv[entries[0].key := KeptValue(entries[0].value)], key);
    }
  }

  // ---------------------------------------------------------------------------------------------
  // Reading
  // ---------------------------------------------------------------------------------------------

  datatype Read<T> = Failed | Got(value: T, next: nat)

  /** A fixed-width number, refused when the file ends before it does. */
  function ReadNumber(file: Bytes, pos: nat, width: nat): (r: Read<nat>)
    ensures r.Got? ==> r.next == pos + width && r.value < Power(width)
  {
    if pos + width <= |file| then Got(Number(file[pos..pos + width]), pos + width) else Failed
  }

  function ReadString(file: Bytes, pos: nat): (r: Read<Bytes>)
    ensures r.Got? ==> r.next == pos + 8 + |r.value| <= |file|
  {
    var len := ReadNumber(file, pos, 8);
    if len.Failed? || len.value > STRING_LIMIT then Failed
    else if len.next + len.value <= |file| then Got(file[len.next..len.next + len.value], len.next + len.value)
    else Failed
  }

  function ReadStrings(file: Bytes, pos: nat, count: nat): (r: Read<seq<Bytes>>)
    ensures r.Got? ==> |r.value| == count
    decreases count
  {
    if count == 0 then Got([], pos)
    else
      var first := ReadString(file, pos);
      if first.Failed? then Failed
      else
        var rest := ReadStrings(file, first.next, count - 1);
        if rest.Failed? then Failed else Got([first.value] + rest.value, rest.next)
  }

  /** Reading no bytes at all succeeds wherever the position is. */
  function ReadWords(file: Bytes, pos: nat, count: nat): (r: Read<seq<nat>>)
    ensures r.Got? ==> |r.value| == count && r.next == pos + count * 4 && forall n :: n in r.value ==> Word(n)
  {
    if count == 0 then Got([], pos)
    else if pos + count * 4 <= |file| then Got(WordsAt(file, pos, count), pos + count * 4)
    else Failed
  }

  function WordsAt(file: Bytes, pos: nat, count: nat): (words: seq<nat>)
    requires pos + count * 4 <= |file|
    ensures |words| == count && forall n :: n in words ==> Word(n)
    decreases count
  {
    if count == 0 then [] else [Number(file[pos..pos + 4])] + WordsAt(file, pos + 4, count - 1)
  }

  function Left(file: Bytes, pos: nat): nat {
    if pos <= |file| then |file| - pos else 0
  }

  /** Skipping only moves the position; it does not notice the end of the file. */
  function ReadArray(file: Bytes, pos: nat): (r: Read<Value>)
    ensures r.Got? ==> r.next >= pos + 12
    decreases Left(file, pos), 1, 0
  {
    var code := ReadNumber(file, pos, 4);
    if code.Failed? then Failed
    else
      var count := ReadNumber(file, pos + 4, 8);
      if count.Failed? || count.value > COUNT_LIMIT then Failed
      else ReadItems(file, pos + 12, code.value, count.value)
  }

  function ReadItems(file: Bytes, pos: nat, code: nat, count: nat): (r: Read<Value>)
    ensures r.Got? ==> r.next >= pos
    decreases Left(file, pos), 3, count
  {
    if code == UINT32 || code == INT32 || code == FLOAT32 then
      var words := ReadWords(file, pos, count);
      if words.Failed? then Failed
      else Got(if code == UINT32 then UInt32s(words.value)
               else if code == INT32 then Int32s(SignedWords(words.value))
               else Float32s(words.value), words.next)
    else if code == STRING then
      StringsAdvance(file, pos, count);
      var strings := ReadStrings(file, pos, count);
      if strings.Failed? then Failed else Got(Texts(strings.value), strings.next)
    else if code == ARRAY then
      var inner := SkipArrays(file, pos, count);
      if inner.Failed? then Failed else Got(SKIPPED, inner.next)
    else if Width(code) > 0 then Got(SKIPPED, pos + count * Width(code))
    else Failed
  }

  function SkipArrays(file: Bytes, pos: nat, count: nat): (r: Read<()>)
    ensures r.Got? ==> r.next >= pos
    decreases Left(file, pos), 2, count
  {
    if count == 0 then Got((), pos)
    else
      var first := ReadArray(file, pos);
      if first.Failed? then Failed else SkipArrays(file, first.next, count - 1)
  }

  lemma {:induction false} StringsAdvance(file: Bytes, pos: nat, count: nat)
    ensures ReadStrings(file, pos, count).Got? ==> ReadStrings(file, pos, count).next >= pos
    decreases count
  {
    if count > 0 {
      var first := ReadString(file, pos);
      if first.Got? {
        StringsAdvance(file, first.next, count - 1);
      }
    }
  }

  function ReadValue(file: Bytes, pos: nat, code: nat): Read<Value> {
    if code == STRING then
      var s := ReadString(file, pos);
      if s.Failed? then Failed else Got(Text(s.value), s.next)
    else if code == ARRAY then ReadArray(file, pos)
    else if Width(code) > 0 then
      var n := ReadNumber(file, pos, Width(code));
      if n.Failed? then Failed else Got(Kept(code, n.value), n.next)
    else Failed
  }

  function ReadEntries(file: Bytes, pos: nat, count: nat, kv: Metadata): Read<Metadata>
    decreases count
  {
    if count == 0 then Got(kv, pos)
    else
      var key := ReadString(file, pos);
      if key.Failed? then Failed
      else
        var code := ReadNumber(file, key.next, 4);
        if code.Failed? then Failed
        else
          var v := ReadValue(file, code.next, code.value);
          if v.Failed? then Failed else ReadEntries(file, v.next, count - 1, kv[key.value := v.value])
  }
}
