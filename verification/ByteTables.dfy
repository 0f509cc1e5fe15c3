/** The byte-to-unicode table of byte-level BPE: every byte has a printable code point of its own. */
module ByteTables {
  import opened Utf8

  /** The bytes that stand for themselves. */
  predicate Printable(b: U8) {
    33 <= b <= 126 || 161 <= b <= 172 || 174 <= b <= 255
  }

  /** How many of the first n bytes are not printable. */
  function Skipped(n: nat): (k: nat)
    requires n <= 256
    ensures k <= n
  {
    if n == 0 then 0 else Skipped(n - 1) + if Printable(n - 1) then 0 else 1
  }

  function CodePointOf(b: U8): (cp: nat)
    ensures 33 <= cp < 512
  {
    if Printable(b) then b else 256 + Skipped(b)
  }

  /** Skipped bytes: the control characters and the space, 127 to 160, and 173. */
  lemma {:induction false} SkippedIs(n: nat)
    requires n <= 256
    ensures Skipped(n) == if n <= 33 then n else if n <= 127 then 33 else if n <= 161 then n - 94
                          else if n <= 173 then 67 else 68
  {
    if n > 0 {
      SkippedIs(n - 1);
    }
  }

  /** The table as it is known: printable bytes are themselves, the others follow from U+0100 in their order. */
  lemma CodePointIs(b: U8)
    ensures b <= 32 ==> CodePointOf(b) == 0x100 + b
    ensures 33 <= b <= 126 || 161 <= b <= 172 || 174 <= b ==> CodePointOf(b) == b
    ensures 127 <= b <= 160 ==> CodePointOf(b) == 0x121 + (b - 127)
    ensures b == 173 ==> CodePointOf(b) == 0x143
  {
    SkippedIs(b);
  }

  /** A space is written as U+0120, a line feed as U+010A. */
  lemma SpaceAndLineFeed()
    ensures Symbol(' ' as nat) == EncodeUtf8(0x120) == [0xC4, 0xA0]
    ensures Symbol('\n' as nat) == EncodeUtf8(0x10A) == [0xC4, 0x8A]
  {
    CodePointIs(32);
    CodePointIs(10);
  }

  function Symbol(b: U8): (s: Bytes)
    ensures 1 <= |s| <= 2
  {
    EncodeUtf8(CodePointOf(b))
  }

  lemma {:induction false} SkippedGrows(a: nat, b: nat)
    requires a <= b <= 256
    ensures Skipped(a) <= Skipped(b)
    ensures a < b && !Printable(a) ==> Skipped(a) < Skipped(b)
    decreases b
  {
    if a < b {
      SkippedGrows(a, b - 1);
      if a == b - 1 {
        assert Skipped(b) == Skipped(a) + if Printable(a) then 0 else 1;
      }
    }
  }

  /** No two bytes share a code point. */
  lemma CodePointsDiffer(a: U8, b: U8)
    requires CodePointOf(a) == CodePointOf(b)
    ensures a == b
  {
    if !Printable(a) && !Printable(b) {
      if a < b {
        SkippedGrows(a, b);
      } else if b < a {
        SkippedGrows(b, a);
      }
    }
  }

  /** The reverse table. */
  ghost predicate Inverts(table: map<Bytes, U8>, n: nat)
    requires n <= 256
  {
    && (forall b: U8 {:trigger Symbol(b)} :: b < n ==> Symbol(b) in table && table[Symbol(b)] == b)
    && (forall ch {:trigger table[ch]} :: ch in table ==> table[ch] < n && ch == Symbol(table[ch]))
  }

  lemma SymbolsDiffer(a: U8, b: U8)
    requires Symbol(a) == Symbol(b)
    ensures a == b
  {
    DecodeEncoded(CodePointOf(a), []);
    DecodeEncoded(CodePointOf(b), []);
    CodePointsDiffer(a, b);
  }

  /** A symbol is one byte exactly when it is its own byte, and no symbol contains a space. */
  lemma SymbolBytes(b: U8)
    ensures forall c :: c in Symbol(b) ==> c != 32
    ensures |Symbol(b)| == 1 <==> Symbol(b) == [b]
    ensures |Symbol(b)| == 1 <==> forall c :: c in Symbol(b) ==> c < 0x80
  {
    assert Symbol(b)[0] in Symbol(b);
  }

  /** Bytes mapped one by one. */
  function MapBytes(text: Bytes): (mapped: Bytes)
    ensures |mapped| >= |text|
  {
    if text == [] then [] else Symbol(text[0]) + MapBytes(text[1..])
  }

  /** Back from symbols to bytes; what is not a symbol passes through. */
  function Unmap(table: map<Bytes, U8>, mapped: Bytes): Bytes
    decreases |mapped|
  {
    if mapped == [] then []
    else
      var len := DecodeUtf8(mapped, 0).len;
      var ch := mapped[..len];
      (if ch in table then [table[ch]] else ch) + Unmap(table, mapped[len..])
  }

  lemma {:induction false} MapBytesConcat(a: Bytes, b: Bytes)
    ensures MapBytes(a + b) == MapBytes(a) + MapBytes(b)
  {
    if a == [] {
      assert a + b == b;
    } else {
      assert (a + b)[1..] == a[1..] + b;
      MapBytesConcat(a[1..], b);
    }
  }

  /** The bijection: mapping loses nothing. */
  lemma {:induction false} UnmapMapped(table: map<Bytes, U8>, text: Bytes)
    requires Inverts(table, 256)
    ensures Unmap(table, MapBytes(text)) == text
  {
    if text != [] {
      var sym, rest := Symbol(text[0]), MapBytes(text[1..]);
      DecodeEncoded(CodePointOf(text[0]), rest);
      assert (sym + rest)[..|sym|] == sym;
      assert (sym + rest)[|sym|..] == rest;
      UnmapMapped(table, text[1..]);
    }
  }

  predicate Ascii(s: Bytes) {
    forall c :: c in s ==> c < 0x80
  }

  /** Mapping keeps the length exactly for ASCII symbols, and then changes nothing. */
  lemma {:induction false} MappedAscii(text: Bytes)
    ensures Ascii(MapBytes(text)) <==> |MapBytes(text)| == |text|
    ensures Ascii(MapBytes(text)) ==> MapBytes(text) == text
  {
    if text != [] {
      SymbolBytes(text[0]);
      MappedAscii(text[1..]);
      assert forall c :: c in MapBytes(text) <==> c in Symbol(text[0]) || c in MapBytes(text[1..]);
    }
  }
}
