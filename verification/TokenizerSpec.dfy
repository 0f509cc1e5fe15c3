/** What encoding and decoding come to, and when they undo each other. */
module TokenizerSpec {
  import opened Utf8
  import opened ByteTables
  import opened PreTokenizer
  import opened Bpe

  const TOKEN_INVALID := -1

  type Ids = map<Bytes, nat>

  /** Each entry of a list with its last position among the first n. */
  function LastIndex(list: seq<Bytes>, n: nat): (ids: Ids)
    requires n <= |list|
    ensures forall s {:trigger ids[s]} :: s in ids ==> ids[s] < n && list[ids[s]] == s
    ensures forall i: nat :: i < n ==> list[i] in ids && i <= ids[list[i]]
  {
    if n == 0 then map[] else LastIndex(list, n - 1)[list[n - 1] := n - 1]
  }

  /** A merge entry holds exactly one space. */
  predicate OneSpace(s: Bytes) {
    FirstSpace(s) < |s| && NoSpace(s[FirstSpace(s) + 1..])
  }

  lemma OneSpaceIsKey(s: Bytes)
    ensures OneSpace(s) <==> exists l, r :: NoSpace(l) && NoSpace(r) && s == Key(l, r)
  {
    var k := FirstSpace(s);
    if OneSpace(s) {
      assert s == Key(s[..k], s[k + 1..]);
    }
    forall l, r | NoSpace(l) && NoSpace(r) && s == Key(l, r) ensures OneSpace(s) {
      FirstSpaceOfKey(l, r);
      assert s[|l| + 1..] == r;
    }
  }

  // ---------------------------------------------------------------------------------------------
  // Encoding
  // ---------------------------------------------------------------------------------------------

  function SymbolsOf(piece: Bytes): Symbols {
    if piece == [] then [] else [Symbol(piece[0])] + SymbolsOf(piece[1..])
  }

  /** The final symbols of a text, piece after piece. */
  function FinalSymbols(m: Ranks, pieces: seq<Bytes>): Symbols {
    if pieces == [] then [] else BpeAll(m, SymbolsOf(pieces[0])) + FinalSymbols(m, pieces[1..])
  }

  /** Byte by byte, what the vocabulary knows. */
  function ByteIds(ids: Ids, s: Bytes): seq<int> {
    if s == [] then []
    else (if Symbol(s[0]) in ids then [ids[Symbol(s[0])]] else []) + ByteIds(ids, s[1..])
  }

  /** The ids of a list of symbols; a symbol that is not in the vocabulary falls back to its bytes. */
  function SymbolIds(ids: Ids, symbols: Symbols): seq<int> {
    if symbols == [] then []
    else
      (if symbols[0] in ids then [ids[symbols[0]]] else ByteIds(ids, symbols[0])) + SymbolIds(ids, symbols[1..])
  }

  lemma {:induction false} SymbolIdsConcat(ids: Ids, a: Symbols, b: Symbols)
    ensures SymbolIds(ids, a + b) == SymbolIds(ids, a) + SymbolIds(ids, b)
  {
    if a == [] {
      assert a + b == b;
    } else {
      assert (a + b)[1..] == a[1..] + b;
      SymbolIdsConcat(ids, a[1..], b);
    }
  }

  lemma {:induction false} ByteIdsConcat(ids: Ids, a: Bytes, b: Bytes)
    ensures ByteIds(ids, a + b) == ByteIds(ids, a) + ByteIds(ids, b)
  {
    if a == [] {
      assert a + b == b;
    } else {
      assert (a + b)[1..] == a[1..] + b;
      ByteIdsConcat(ids, a[1..], b);
    }
  }

  lemma {:induction false} SymbolsOfConcat(a: Bytes, b: Bytes)
    ensures SymbolsOf(a + b) == SymbolsOf(a) + SymbolsOf(b)
  {
    if a == [] {
      assert a + b == b;
    } else {
      assert (a + b)[1..] == a[1..] + b;
      SymbolsOfConcat(a[1..], b);
    }
  }

  lemma {:induction false} FinalSymbolsConcat(m: Ranks, a: seq<Bytes>, b: seq<Bytes>)
    ensures FinalSymbols(m, a + b) == FinalSymbols(m, a) + FinalSymbols(m, b)
  {
    if a == [] {
      assert a + b == b;
    } else {
      assert (a + b)[1..] == a[1..] + b;
      FinalSymbolsConcat(m, a[1..], b);
    }
  }

  // ---------------------------------------------------------------------------------------------
  // Decoding
  // ---------------------------------------------------------------------------------------------

  /** Out-of-range ids spell nothing, nor do control (3) and unused (5) tokens when they are skipped. */
  predicate Spells(vocab: seq<Bytes>, types: seq<int>, skipSpecial: bool, id: int) {
    && 0 <= id < |vocab|
    && !(skipSpecial && id < |types| && (types[id] == 3 || types[id] == 5))
  }

  function Spelling(vocab: seq<Bytes>, types: seq<int>, skipSpecial: bool, tokens: seq<int>): Bytes {
    if tokens == [] then []
    else
      (if Spells(vocab, types, skipSpecial, tokens[0]) then vocab[tokens[0]] else [])
        + Spelling(vocab, types, skipSpecial, tokens[1..])
  }

  /** The tokens that are shown where control tokens (3) and unused ones (5) are not. */
  function Shown(types: seq<int>, tokens: seq<int>): seq<int> {
    if tokens == [] then []
    else
      (if 0 <= tokens[0] < |types| && types[tokens[0]] in {3, 5} then [] else [tokens[0]]) + Shown(types, tokens[1..])
  }

  /** Skipping special tokens is leaving them out. */
  lemma {:induction false} SkippingLeavesOut(vocab: seq<Bytes>, types: seq<int>, tokens: seq<int>)
    ensures Spelling(vocab, types, true, tokens) == Spelling(vocab, types, false, Shown(types, tokens))
  {
    if tokens != [] {
      SkippingLeavesOut(vocab, types, tokens[1..]);
      var first := if 0 <= tokens[0] < |types| && types[tokens[0]] in {3, 5} then [] else [tokens[0]];
      SpellingConcat(vocab, types, false, first, Shown(types, tokens[1..]));
    }
  }

  /** With nothing skipped a token spells its entry; an id behind the vocabulary, or a negative one, nothing. */
  lemma TokenSpells(vocab: seq<Bytes>, types: seq<int>, id: int)
    ensures Spelling(vocab, types, false, [id]) == if 0 <= id < |vocab| then vocab[id] else []
  {
  }

  lemma {:induction false} SpellingConcat(vocab: seq<Bytes>, types: seq<int>, skip: bool, a: seq<int>, b: seq<int>)
    ensures Spelling(vocab, types, skip, a + b) == Spelling(vocab, types, skip, a) + Spelling(vocab, types, skip, b)
  {
    if a == [] {
      assert a + b == b;
    } else {
      assert (a + b)[1..] == a[1..] + b;
      SpellingConcat(vocab, types, skip, a[1..], b);
    }
  }

  // ---------------------------------------------------------------------------------------------
  // The symbols spell the text
  // ---------------------------------------------------------------------------------------------

  lemma {:induction false} SymbolsSpell(piece: Bytes)
    ensures Joined(SymbolsOf(piece)) == MapBytes(piece)
  {
    if piece != [] {
      SymbolsSpell(piece[1..]);
    }
  }

  /** Merging never crosses a piece and never changes what is spelled. */
  lemma {:induction false} FinalSymbolsSpell(m: Ranks, pieces: seq<Bytes>)
    ensures Joined(FinalSymbols(m, pieces)) == MapBytes(Joined(pieces))
  {
    if pieces != [] {
      var s := SymbolsOf(pieces[0]);
      BpeKeepsText(m, s);
      SymbolsSpell(pieces[0]);
      JoinedConcat(BpeAll(m, s), FinalSymbols(m, pieces[1..]));
      FinalSymbolsSpell(m, pieces[1..]);
      MapBytesConcat(pieces[0], Joined(pieces[1..]));
    }
  }

  /** A symbol that is the image of some bytes. */
  predicate Mapped(table: map<Bytes, U8>, sym: Bytes) {
    MapBytes(Unmap(table, sym)) == sym
  }

  predicate AllMapped(table: map<Bytes, U8>, symbols: Symbols) {
    forall x :: x in symbols ==> Mapped(table, x)
  }

  lemma MappedImage(table: map<Bytes, U8>, bytes: Bytes)
    requires Inverts(table, 256)
    ensures Mapped(table, MapBytes(bytes))
  {
    UnmapMapped(table, bytes);
  }

  lemma {:induction false} SymbolsMapped(table: map<Bytes, U8>, piece: Bytes)
    requires Inverts(table, 256)
    ensures AllMapped(table, SymbolsOf(piece))
  {
    if piece != [] {
      SymbolsMapped(table, piece[1..]);
      MappedImage(table, [piece[0]]);
      assert MapBytes([piece[0]]) == Symbol(piece[0]);
    }
  }

  lemma {:induction false} BpeMapped(table: map<Bytes, U8>, m: Ranks, s: Symbols)
    requires Inverts(table, 256) && AllMapped(table, s)
    ensures AllMapped(table, BpeAll(m, s))
    decreases |s|
  {
    hide Inverts, Mapped;
    var best := Best(m, s);
    if best.Some? {
      var l, r := s[best.value], s[best.value + 1];
      assert Mapped(table, l) && Mapped(table, r) by {
        assert l in s && r in s;
      }
      MergedMapped(table, l, r);
      MergeAllShrinks(s, best.value);
      MergeAllSymbols(s, l, r);
      BpeMapped(table, m, MergeAll(s, l, r));
    }
  }

  lemma MergedMapped(table: map<Bytes, U8>, l: Bytes, r: Bytes)
    requires Inverts(table, 256) && Mapped(table, l) && Mapped(table, r)
    ensures Mapped(table, l + r)
  {
    var a, b := Unmap(table, l), Unmap(table, r);
    MapBytesConcat(a, b);
    MappedImage(table, a + b);
  }

  lemma {:induction false} FinalSymbolsMapped(table: map<Bytes, U8>, m: Ranks, pieces: seq<Bytes>)
    requires Inverts(table, 256)
    ensures AllMapped(table, FinalSymbols(m, pieces))
  {
    hide Inverts, Mapped;
    if pieces != [] {
      SymbolsMapped(table, pieces[0]);
      BpeMapped(table, m, SymbolsOf(pieces[0]));
      FinalSymbolsMapped(table, m, pieces[1..]);
    }
  }

  // ---------------------------------------------------------------------------------------------
  // Round trip
  // ---------------------------------------------------------------------------------------------

  /** The bytes a list of symbols stands for. */
  function Meant(table: map<Bytes, U8>, symbols: Symbols): Bytes {
    if symbols == [] then [] else Unmap(table, symbols[0]) + Meant(table, symbols[1..])
  }

  /** The bytes whose symbols the vocabulary has. */
  function KnownBytes(ids: Ids, s: Bytes): Bytes {
    if s == [] then []
    else (if Symbol(s[0]) in ids then [s[0]] else []) + KnownBytes(ids, s[1..])
  }

  /**
   * The bytes that come back for one symbol: outside the vocabulary it comes back still mapped, less the
   * bytes not known.
   */
  function Back(table: map<Bytes, U8>, ids: Ids, sym: Bytes): Bytes {
    if sym in ids then Unmap(table, sym) else KnownBytes(ids, sym)
  }

  function Returned(table: map<Bytes, U8>, ids: Ids, symbols: Symbols): Bytes {
    if symbols == [] then [] else Back(table, ids, symbols[0]) + Returned(table, ids, symbols[1..])
  }

  lemma {:induction false} AllBytesKnown(ids: Ids, s: Bytes)
    requires KnowsAllBytes(ids)
    ensures KnownBytes(ids, s) == s
  {
    if s != [] {
      AllBytesKnown(ids, s[1..]);
    }
  }

  lemma {:induction false} ReturnedAsMeant(table: map<Bytes, U8>, ids: Ids, symbols: Symbols)
    requires forall x :: x in symbols ==> Back(table, ids, x) == Unmap(table, x)
    ensures Returned(table, ids, symbols) == Meant(table, symbols)
  {
    if symbols != [] {
      assert symbols[0] in symbols;
      ReturnedAsMeant(table, ids, symbols[1..]);
    }
  }

  ghost predicate KnowsAllBytes(ids: Ids) {
    forall b: U8 :: Symbol(b) in ids
  }

  /** A symbol survives when the vocabulary has it, or when mapping its bytes again changes nothing. */
  predicate Survives(ids: Ids, sym: Bytes) {
    sym in ids || Ascii(sym)
  }

  lemma {:induction false} MeantImage(table: map<Bytes, U8>, symbols: Symbols)
    requires AllMapped(table, symbols)
    ensures MapBytes(Meant(table, symbols)) == Joined(symbols)
  {
    if symbols != [] {
      MeantImage(table, symbols[1..]);
      assert Mapped(table, symbols[0]);
      MapBytesConcat(Unmap(table, symbols[0]), Meant(table, symbols[1..]));
    }
  }

  /** The fallback spells the symbol's own bytes, as far as they are known, mapped a second time. */
  lemma {:induction false} FallbackSpells(vocab: seq<Bytes>, types: seq<int>, s: Bytes)
    ensures var ids := LastIndex(vocab, |vocab|);
      Spelling(vocab, types, false, ByteIds(ids, s)) == MapBytes(KnownBytes(ids, s))
  {
    hide Symbol, LastIndex;
    var ids := LastIndex(vocab, |vocab|);
    if s != [] {
      FallbackSpells(vocab, types, s[1..]);
      if Symbol(s[0]) in ids {
        var id := ids[Symbol(s[0])];
        assert ByteIds(ids, s) == [id] + ByteIds(ids, s[1..]);
        SpellingOne(vocab, types, id);
        SpellingConcat(vocab, types, false, [id], ByteIds(ids, s[1..]));
        MapBytesConcat([s[0]], KnownBytes(ids, s[1..]));
        assert MapBytes([s[0]]) == Symbol(s[0]);
      } else {
        assert ByteIds(ids, s) == ByteIds(ids, s[1..]) && KnownBytes(ids, s) == KnownBytes(ids, s[1..]);
      }
    }
  }

  lemma SpellingOne(vocab: seq<Bytes>, types: seq<int>, id: nat)
    requires id < |vocab|
    ensures Spelling(vocab, types, false, [id]) == vocab[id]
  {
  }

  lemma {:induction false} ReturnedImage(table: map<Bytes, U8>, vocab: seq<Bytes>, types: seq<int>, symbols: Symbols)
    requires AllMapped(table, symbols)
    ensures var ids := LastIndex(vocab, |vocab|);
      Spelling(vocab, types, false, SymbolIds(ids, symbols)) == MapBytes(Returned(table, ids, symbols))
  {
    hide LastIndex;
    var ids := LastIndex(vocab, |vocab|);
    if symbols != [] {
      var sym, rest := symbols[0], symbols[1..];
      ReturnedImage(table, vocab, types, rest);
      assert Mapped(table, sym);
      if sym in ids {
        SpellingOne(vocab, types, ids[sym]);
        SpellingConcat(vocab, types, false, [ids[sym]], SymbolIds(ids, rest));
        MapBytesConcat(Unmap(table, sym), Returned(table, ids, rest));
      } else {
        FallbackSpells(vocab, types, sym);
        SpellingConcat(vocab, types, false, ByteIds(ids, sym), SymbolIds(ids, rest));
        MapBytesConcat(KnownBytes(ids, sym), Returned(table, ids, rest));
      }
    }
  }

  /** What comes back is never shorter, and it is what was meant exactly when every symbol survives. */
  lemma {:induction false} ReturnedIsMeant(table: map<Bytes, U8>, ids: Ids, symbols: Symbols)
    requires AllMapped(table, symbols) && KnowsAllBytes(ids)
    ensures |Returned(table, ids, symbols)| >= |Meant(table, symbols)|
    ensures |Returned(table, ids, symbols)| == |Meant(table, symbols)| <==> forall x :: x in symbols ==>
      Survives(ids, x)
    ensures (forall x :: x in symbols ==> Survives(ids, x)) ==> Returned(table, ids, symbols) == Meant(table, symbols)
  {
    hide KnowsAllBytes;
    if symbols != [] {
      var sym, rest := symbols[0], symbols[1..];
      AllBytesKnown(ids, sym);
      ReturnedIsMeant(table, ids, rest);
      assert Mapped(table, sym);
      MappedAscii(Unmap(table, sym));
      assert forall x :: x in symbols <==> x == sym || x in rest;
    }
  }

  /**
   * What decoding an encoding returns, for every vocabulary: symbol after symbol, the bytes it stands
   * for or, outside the vocabulary, those of its own bytes that are known. So a text comes back if
   * each of its final symbols does, and with every byte symbol in the vocabulary only then: exactly if
   * each final symbol is in the vocabulary or is plain ASCII.
   */
  lemma RoundTripIff(table: map<Bytes, U8>, vocab: seq<Bytes>, types: seq<int>, m: Ranks, text: Bytes)
    requires Inverts(table, 256)
    ensures var ids, symbols := LastIndex(vocab, |vocab|), FinalSymbols(m, Pieces(text));
      var result := Unmap(table, Spelling(vocab, types, false, SymbolIds(ids, symbols)));
      && result == Returned(table, ids, symbols) && text == Meant(table, symbols)
      && ((forall x :: x in symbols ==> Back(table, ids, x) == Unmap(table, x)) ==> result == text)
      && (KnowsAllBytes(ids) ==> (result == text <==> forall x :: x in symbols ==> Survives(ids, x)))
  {
    hide Inverts, KnowsAllBytes, Survives, Back;
    var ids, symbols := LastIndex(vocab, |vocab|), FinalSymbols(m, Pieces(text));
    FinalSymbolsMapped(table, m, Pieces(text));
    FinalSymbolsSpell(m, Pieces(text));
    PiecesPartition(text);
    MeantImage(table, symbols);
    UnmapMapped(table, text);
    UnmapMapped(table, Meant(table, symbols));
    ReturnedImage(table, vocab, types, symbols);
    UnmapMapped(table, Returned(table, ids, symbols));
    if forall x :: x in symbols ==> Back(table, ids, x) == Unmap(table, x) {
      ReturnedAsMeant(table, ids, symbols);
    }
    if KnowsAllBytes(ids) {
      ReturnedIsMeant(table, ids, symbols);
    }
  }

  /** A vocabulary that lacks byte symbols: the letter a and the bytes C2 and A1 alone. */
  function ThreeBytes(): (vocab: seq<Bytes>)
    ensures |vocab| == 3
  {
    [Symbol(0x61), Symbol(0xc2), Symbol(0xa1)]
  }

  /** Two merges whose results it lacks as well. */
  function TwoMerges(): Ranks {
    map[Key(Symbol(0x61), Symbol(0xc2)) := 0, Key(Symbol(0xa1), Symbol(0x61)) := 1]
  }

  /**
   * There losses can cancel: neither of the two final symbols of this text comes back as what it stands
   * for, and the text does all the same.
   */
  lemma LossesCancel(table: map<Bytes, U8>, types: seq<int>)
    requires Inverts(table, 256)
    ensures var text, ids := [0x61, 0xc2, 0xa1, 0x61], LastIndex(ThreeBytes(), 3);
      var x, y := [0x61, 0xc3, 0x82], [0xc2, 0xa1, 0x61];
      && FinalSymbols(TwoMerges(), Pieces(text)) == [x, y]
      && Back(table, ids, x) != Unmap(table, x) && Back(table, ids, y) != Unmap(table, y)
      && Unmap(table, Spelling(ThreeBytes(), types, false, SymbolIds(ids, [x, y]))) == text
  {
    hide Inverts, Unmap, Returned, Meant, Spelling, SymbolIds, FinalSymbols, Pieces, LastIndex, Back, TwoMerges,
      ThreeBytes;
    var text, ids := [0x61, 0xc2, 0xa1, 0x61], LastIndex(ThreeBytes(), 3);
    var x, y := [0x61, 0xc3, 0x82], [0xc2, 0xa1, 0x61];
    CancelFinal();
    CancelBack(table, ids);
    CancelReturned(table, types, text);
    OfTwo(table, ids, x, y);
    assert [0x61] + y == [0x61, 0xc2] + [0xa1, 0x61];
  }

  lemma CancelReturned(table: map<Bytes, U8>, types: seq<int>, text: Bytes)
    requires Inverts(table, 256)
    ensures var ids, symbols := LastIndex(ThreeBytes(), 3), FinalSymbols(TwoMerges(), Pieces(text));
      && Unmap(table, Spelling(ThreeBytes(), types, false, SymbolIds(ids, symbols))) == Returned(table, ids, symbols)
      && text == Meant(table, symbols)
  {
    hide Inverts, Unmap, Returned, Meant, Spelling, SymbolIds, FinalSymbols, Pieces, LastIndex, Back, TwoMerges,
      KnowsAllBytes, Survives, Symbol;
    RoundTripIff(table, ThreeBytes(), types, TwoMerges(), text);
  }

  lemma CancelBack(table: map<Bytes, U8>, ids: Ids)
    requires Inverts(table, 256) && ids == LastIndex(ThreeBytes(), 3)
    ensures Back(table, ids, [0x61, 0xc3, 0x82]) == [0x61] && Unmap(table, [0x61, 0xc3, 0x82]) == [0x61, 0xc2]
    ensures Back(table, ids, [0xc2, 0xa1, 0x61]) == [0xc2, 0xa1, 0x61]
    ensures Unmap(table, [0xc2, 0xa1, 0x61]) == [0xa1, 0x61]
  {
    hide Inverts, Unmap, Symbol, LastIndex, MapBytes, KnownBytes, ThreeBytes;
    ThreeIds(ids);
    UnmapMapped(table, [0x61, 0xc2]);
    UnmapMapped(table, [0xa1, 0x61]);
    CancelMapped();
    CancelKnown(ids);
  }

  lemma CancelMapped()
    ensures MapBytes([0x61, 0xc2]) == [0x61, 0xc3, 0x82] && MapBytes([0xa1, 0x61]) == [0xc2, 0xa1, 0x61]
  {
    ThreeSymbols();
    hide Symbol;
    MapOne(0x61);
    MapOne(0xc2);
    MapOne(0xa1);
    hide MapBytes;
    MapBytesConcat([0x61], [0xc2]);
    MapBytesConcat([0xa1], [0x61]);
    assert [0x61] + [0xc2] == [0x61, 0xc2] && [0xa1] + [0x61] == [0xa1, 0x61];
    assert [0x61] + [0xc3, 0x82] == [0x61, 0xc3, 0x82] && [0xc2, 0xa1] + [0x61] == [0xc2, 0xa1, 0x61];
  }

  lemma MapOne(b: U8)
    ensures MapBytes([b]) == Symbol(b)
  {
    hide Symbol;
  }

  lemma CancelKnown(ids: Ids)
    requires Symbol(0x61) in ids && Symbol(0xc2) in ids && Symbol(0xa1) in ids
    requires Symbol(0xc3) !in ids && Symbol(0x82) !in ids && [0x61, 0xc3, 0x82] !in ids && [0xc2, 0xa1, 0x61] !in ids
    ensures KnownBytes(ids, [0x61, 0xc3, 0x82]) == [0x61]
    ensures KnownBytes(ids, [0xc2, 0xa1, 0x61]) == [0xc2, 0xa1, 0x61]
  {
    hide Symbol, KnownBytes;
    var none: Bytes := [];
    KnownStep(ids, 0x61, none);
    KnownStep(ids, 0x82, none);
    KnownStep(ids, 0xc3, [0x82]);
    KnownStep(ids, 0x61, [0xc3, 0x82]);
    KnownStep(ids, 0xa1, [0x61]);
    KnownStep(ids, 0xc2, [0xa1, 0x61]);
    assert [0x61] + none == [0x61] && [0x82] + none == [0x82];
    assert [0xc3] + [0x82] == [0xc3, 0x82] && [0x61] + [0xc3, 0x82] == [0x61, 0xc3, 0x82];
    assert [0xa1] + [0x61] == [0xa1, 0x61] && [0xc2] + [0xa1, 0x61] == [0xc2, 0xa1, 0x61];
  }

  lemma KnownStep(ids: Ids, b: U8, rest: Bytes)
    ensures KnownBytes(ids, [b] + rest) == (if Symbol(b) in ids then [b] else []) + KnownBytes(ids, rest)
    ensures KnownBytes(ids, []) == []
  {
    assert ([b] + rest)[1..] == rest;
  }

  lemma OfTwo(table: map<Bytes, U8>, ids: Ids, x: Bytes, y: Bytes)
    ensures Returned(table, ids, [x, y]) == Back(table, ids, x) + Back(table, ids, y)
    ensures Meant(table, [x, y]) == Unmap(table, x) + Unmap(table, y)
  {
    hide Back, Unmap;
    var both, last, none: Symbols := [x, y], [y], [];
    assert both[1..] == last && last[1..] == none;
    assert Returned(table, ids, last) == Back(table, ids, y) + Returned(table, ids, none);
    assert Meant(table, last) == Unmap(table, y) + Meant(table, none);
  }

  lemma ThreeSymbols()
    ensures Symbol(0x61) == [0x61] && Symbol(0xc2) == [0xc3, 0x82] && Symbol(0xa1) == [0xc2, 0xa1]
    ensures Symbol(0xc3) !in ThreeBytes() && Symbol(0x82) !in ThreeBytes()
  {
  }

  lemma ThreeIds(ids: Ids)
    requires ids == LastIndex(ThreeBytes(), 3)
    ensures Symbol(0x61) in ids && Symbol(0xc2) in ids && Symbol(0xa1) in ids
    ensures Symbol(0xc3) !in ids && Symbol(0x82) !in ids && [0x61, 0xc3, 0x82] !in ids && [0xc2, 0xa1, 0x61] !in ids
  {
    ThreeSymbols();
    hide Symbol;
    var list := ThreeBytes();
    assert list[0] == [0x61] && list[1] == [0xc3, 0x82] && list[2] == [0xc2, 0xa1];
  }

  /** The text is one run of letters. */
  lemma CancelPiece()
    ensures Pieces([0x61, 0xc2, 0xa1, 0x61]) == [[0x61, 0xc2, 0xa1, 0x61]]
  {
    var s := [0x61, 0xc2, 0xa1, 0x61];
    var t, u := [0xc2, 0xa1, 0x61], [0x61];
    assert DecodeUtf8(s, 0) == Decoded(0x61, 1) && s[1..] == t;
    assert DecodeUtf8(t, 0) == Decoded(0xa1, 2) && t[2..] == u;
    assert DecodeUtf8(u, 0) == Decoded(0x61, 1) && |u[1..]| == 0;
    assert RunLen(u, IsLetter) == 1;
    assert RunLen(t, IsLetter) == 3;
    assert FirstPiece(s) == 4;
    assert s[..4] == s && s[4..] == [];
  }

  lemma CancelFinal()
    ensures FinalSymbols(TwoMerges(), Pieces([0x61, 0xc2, 0xa1, 0x61])) == [[0x61, 0xc3, 0x82], [0xc2, 0xa1, 0x61]]
  {
    var s: Bytes := [0x61, 0xc2, 0xa1, 0x61];
    CancelPiece();
    CancelSymbols();
    CancelMerged();
    hide BpeAll, SymbolsOf, Pieces, TwoMerges;
    var none: seq<Bytes> := [];
    assert [s][1..] == none && FinalSymbols(TwoMerges(), none) == [];
  }

  lemma CancelSymbols()
    ensures SymbolsOf([0x61, 0xc2, 0xa1, 0x61]) == [[0x61], [0xc3, 0x82], [0xc2, 0xa1], [0x61]]
  {
    ThreeSymbols();
    hide Symbol;
    var s: Bytes := [0x61, 0xc2, 0xa1, 0x61];
    assert s[1..] == [0xc2, 0xa1, 0x61] && s[1..][1..] == [0xa1, 0x61] && s[1..][1..][1..] == [0x61];
    assert |s[1..][1..][1..][1..]| == 0;
  }

  const LETTER: Bytes := [0x61]
  const BYTE_C2: Bytes := [0xc3, 0x82]
  const BYTE_A1: Bytes := [0xc2, 0xa1]

  /** The keys of both merges, and those of the other pairs that occur. */
  lemma CancelKeys()
    ensures TwoMerges() == map[Key(LETTER, BYTE_C2) := 0, Key(BYTE_A1, LETTER) := 1]
    ensures Key(LETTER, BYTE_C2) != Key(BYTE_A1, LETTER)
    ensures Key(BYTE_C2, BYTE_A1) !in TwoMerges() && Key(LETTER + BYTE_C2, BYTE_A1) !in TwoMerges()
    ensures Key(LETTER + BYTE_C2, BYTE_A1 + LETTER) !in TwoMerges()
  {
    ThreeSymbols();
    hide Symbol;
    assert Key(LETTER, BYTE_C2) == [0x61, 32, 0xc3, 0x82] && Key(BYTE_A1, LETTER) == [0xc2, 0xa1, 32, 0x61];
    assert Key(BYTE_C2, BYTE_A1) == [0xc3, 0x82, 32, 0xc2, 0xa1];
    assert Key(LETTER + BYTE_C2, BYTE_A1) == [0x61, 0xc3, 0x82, 32, 0xc2, 0xa1];
    assert Key(LETTER + BYTE_C2, BYTE_A1 + LETTER) == [0x61, 0xc3, 0x82, 32, 0xc2, 0xa1, 0x61];
  }

  lemma CancelMerged()
    ensures BpeAll(TwoMerges(), [[0x61], [0xc3, 0x82], [0xc2, 0xa1], [0x61]])
         == [[0x61, 0xc3, 0x82], [0xc2, 0xa1, 0x61]]
  {
    CancelKeys();
    CancelLetters();
    hide TwoMerges, Key, LETTER, BYTE_C2, BYTE_A1;
    var m, a, c, e := TwoMerges(), LETTER, BYTE_C2, BYTE_A1;
    FirstMerge(m, a, c, e);
    SecondMerge(m, a, c, e);
  }

  lemma CancelLetters()
    ensures LETTER == [0x61] && BYTE_C2 == [0xc3, 0x82] && BYTE_A1 == [0xc2, 0xa1]
    ensures LETTER + BYTE_C2 == [0x61, 0xc3, 0x82] && BYTE_A1 + LETTER == [0xc2, 0xa1, 0x61]
    ensures BYTE_A1 != LETTER && LETTER + BYTE_C2 != BYTE_A1
  {
  }

  lemma FirstMerge(m: Ranks, a: Bytes, c: Bytes, e: Bytes)
    requires m == map[Key(a, c) := 0, Key(e, a) := 1] && Key(a, c) != Key(e, a) && Key(c, e) !in m && e != a
    ensures BpeAll(m, [a, c, e, a]) == BpeAll(m, [a + c, e, a])
  {
    hide Key;
    var s, t := [a, c, e, a], [a + c, e, a];
    assert PairKey(s, 0) == Key(a, c) && PairKey(s, 1) == Key(c, e) && PairKey(s, 2) == Key(e, a);
    BestIs(m, s, 0);
    assert MergeAll(s[2..], a, c) == [e, a] && MergeAll(s, a, c) == t;
  }

  lemma SecondMerge(m: Ranks, a: Bytes, c: Bytes, e: Bytes)
    requires m == map[Key(a, c) := 0, Key(e, a) := 1] && Key(a + c, e) !in m && Key(a + c, e + a) !in m
    requires a + c != e
    ensures BpeAll(m, [a + c, e, a]) == [a + c, e + a]
  {
    hide Key;
    var s, t := [a + c, e, a], [a + c, e + a];
    assert PairKey(s, 0) == Key(a + c, e) && PairKey(s, 1) == Key(e, a);
    BestIs(m, s, 1);
    assert MergeAll(s[1..], e, a) == [e + a] && MergeAll(s, e, a) == t;
    assert PairKey(t, 0) == Key(a + c, e + a);
    assert Best(m, t).None?;
  }

  /** Merges that are out of order, of symbols that no text has. */
  function Unused(): Ranks {
    map[Key([0xff], [0xff]) := 1, Key([0xff, 0xff], [0xfe]) := 0]
  }

  /** The order of merges is enough for sweeping and single merges to agree, but not needed. */
  lemma OrderIsNotNeeded(piece: Bytes)
    ensures !Stratified(Unused()) && Injective(Unused())
    ensures BpeAll(Unused(), SymbolsOf(piece)) == BpeOne(Unused(), SymbolsOf(piece))
  {
    var m, s := Unused(), SymbolsOf(piece);
    assert Key([0xff], [0xff]) == [0xff, 32, 0xff] && Key([0xff, 0xff], [0xfe]) == [0xff, 0xff, 32, 0xfe];
    assert [0xff] + [0xff] == [0xff, 0xff];
    assert NoSpace([0xff]) && NoSpace([0xfe]) && !RanksAfter(m, [0xff], [0xff], [0xfe]);
    SymbolsStartLow(piece);
    forall k: nat | k + 1 < |s|
      ensures !Mergeable(m, s, k)
    {
      assert s[k] in s;
      assert PairKey(s, k)[0] == s[k][0];
    }
  }

  lemma {:induction false} SymbolsStartLow(piece: Bytes)
    ensures forall x :: x in SymbolsOf(piece) ==> x != [] && x[0] != 0xff
  {
    if piece != [] {
      SymbolsStartLow(piece[1..]);
      SymbolStartsLow(piece[0]);
    }
  }

  lemma SymbolStartsLow(b: U8)
    ensures Symbol(b) != [] && Symbol(b)[0] != 0xff
  {
  }

  /** The vocabulary has every byte symbol and the result of every merge. */
  ghost predicate ClosedVocabulary(ids: Ids, m: Ranks) {
    && KnowsAllBytes(ids)
    && forall l, r :: Key(l, r) in m ==> l + r in ids
  }

  lemma {:induction false} SymbolsKnown(ids: Ids, piece: Bytes)
    requires KnowsAllBytes(ids)
    ensures forall x :: x in SymbolsOf(piece) ==> x in ids
  {
    if piece != [] {
      SymbolsKnown(ids, piece[1..]);
    }
  }

  lemma {:induction false} FinalSymbolsKnown(ids: Ids, m: Ranks, pieces: seq<Bytes>)
    requires ClosedVocabulary(ids, m)
    ensures forall x :: x in FinalSymbols(m, pieces) ==> x in ids
  {
    if pieces != [] {
      SymbolsKnown(ids, pieces[0]);
      FinalSymbolsKnown(ids, m, pieces[1..]);
      forall x | x in BpeAll(m, SymbolsOf(pieces[0])) ensures x in ids {
        BpeSymbols(m, SymbolsOf(pieces[0]), x);
      }
    }
  }

  /** With a closed vocabulary every byte string comes back. */
  lemma RoundTrip(table: map<Bytes, U8>, vocab: seq<Bytes>, types: seq<int>, m: Ranks, text: Bytes)
    requires Inverts(table, 256) && ClosedVocabulary(LastIndex(vocab, |vocab|), m)
    ensures var ids := LastIndex(vocab, |vocab|);
      Unmap(table, Spelling(vocab, types, false, SymbolIds(ids, FinalSymbols(m, Pieces(text))))) == text
  {
    var ids := LastIndex(vocab, |vocab|);
    FinalSymbolsKnown(ids, m, Pieces(text));
    RoundTripIff(table, vocab, types, m, text);
  }

  /** The vocabulary of the 256 byte symbols alone. */
  function ByteVocabulary(): (vocab: seq<Bytes>)
    ensures |vocab| == 256 && forall b: U8 :: vocab[b] == Symbol(b)
  {
    seq(256, b requires 0 <= b < 256 => Symbol(b))
  }

  lemma SymbolLengths()
    ensures |Symbol(32)| == 2 && |Symbol(97)| == 1
  {
  }

  /** It knows every byte, and nothing longer than a symbol. */
  lemma ByteVocabularyKnows()
    ensures var ids := LastIndex(ByteVocabulary(), 256);
      KnowsAllBytes(ids) && forall s :: s in ids ==> |s| <= 2
  {
    hide Symbol;
    var vocab := ByteVocabulary();
    var ids := LastIndex(vocab, 256);
    forall b: U8 ensures Symbol(b) in ids {
      assert vocab[b] == Symbol(b);
    }
    forall s | s in ids ensures |s| <= 2 {
      var b := ids[s];
      assert vocab[b] == Symbol(b);
    }
  }

  /** One merge, of the space's symbol with the letter a. */
  function SpaceA(): Ranks {
    map[Key(Symbol(32), Symbol(97)) := 0]
  }

  lemma SpaceAIsOnePiece()
    ensures Pieces([32, 97]) == [[32, 97]]
  {
    var s := [32, 97];
    assert DecodeUtf8(s, 0) == Decoded(32, 1) && Second(s) == Decoded(97, 1);
    assert s[1..] == [97] && DecodeUtf8(s[1..], 0) == Decoded(97, 1) && s[1..][1..] == [];
    assert RunLen(s[1..], IsLetter) == 1 by {
      assert RunLen(s[1..][1..], IsLetter) == 0;
    }
    assert FirstPiece(s) == 2;
    assert s[..2] == s && s[2..] == [];
  }

  lemma SpaceAIsMerged()
    ensures FinalSymbols(SpaceA(), [[32, 97]]) == [Symbol(32) + Symbol(97)]
  {
    hide Symbol;
    var m, s, t := SpaceA(), [Symbol(32), Symbol(97)], [Symbol(32) + Symbol(97)];
    assert [32, 97][1..] == [97] && [97][1..] == [];
    assert SymbolsOf([97]) == [Symbol(97)] && SymbolsOf([32, 97]) == s;
    assert PairKey(s, 0) == Key(Symbol(32), Symbol(97));
    BestIs(m, s, 0);
    assert MergeAll(s, Symbol(32), Symbol(97)) == t;
    assert Best(m, t).None? && BpeAll(m, t) == t;
    assert FinalSymbols(m, [[32, 97]][1..]) == [];
  }

  /** Without the merge's result in the vocabulary, a space before an a does not come back. */
  lemma FallbackLosesText(table: map<Bytes, U8>, types: seq<int>)
    requires Inverts(table, 256)
    ensures var ids, symbols := LastIndex(ByteVocabulary(), 256), FinalSymbols(SpaceA(), Pieces([32, 97]));
      Unmap(table, Spelling(ByteVocabulary(), types, false, SymbolIds(ids, symbols))) != [32, 97]
  {
    hide Inverts, KnowsAllBytes, Symbol, LastIndex, FinalSymbols, Pieces, Unmap, Spelling, SymbolIds;
    var ids, sym := LastIndex(ByteVocabulary(), 256), Symbol(32) + Symbol(97);
    ByteVocabularyKnows();
    SpaceAIsOnePiece();
    SpaceAIsMerged();
    SymbolLengths();
    SpaceAIsNotAscii();
    assert sym in [sym] && !Survives(ids, sym);
    RoundTripIff(table, ByteVocabulary(), types, SpaceA(), [32, 97]);
  }

  lemma SpaceAIsNotAscii()
    ensures !Ascii(Symbol(32) + Symbol(97))
  {
    SymbolLengths();
    SymbolBytes(32);
    var c :| c in Symbol(32) && c >= 0x80;
    assert c in Symbol(32) + Symbol(97);
  }
}
