/** The byte-level BPE tokenizer: loading, encoding, decoding. */
module HydroXLTokenizers {
  import opened ModelTypes
  import opened Utf8
  import opened ByteTables
  import opened PreTokenizer
  import opened Bpe
  import opened TokenizerSpec
  import opened GgufValues

  const MODEL_KEY := Literal("tokenizer.ggml.model")
  const TOKENS_KEY := Literal("tokenizer.ggml.tokens")
  const MERGES_KEY := Literal("tokenizer.ggml.merges")
  const TYPES_KEY := Literal("tokenizer.ggml.token_type")
  const BOS_KEY := Literal("tokenizer.ggml.bos_token_id")
  const EOS_KEY := Literal("tokenizer.ggml.eos_token_id")
  const UNK_KEY := Literal("tokenizer.ggml.unknown_token_id")
  const ADD_BOS_KEY := Literal("tokenizer.ggml.add_bos_token")
  const GPT2 := Literal("gpt2")

  /** Token types: 1 everywhere the metadata array does not say otherwise. */
  function TypesOf(kv: Metadata, n: nat): (types: seq<int>)
    ensures |types| == n
  {
    var given := if TYPES_KEY in kv && kv[TYPES_KEY].Int32s? then kv[TYPES_KEY].i32s else [];
    if n <= |given| then given[..n] else given + seq(n - |given|, _ => 1)
  }

  /** What a file must hold for a tokenizer to be built from it. */
  predicate Loadable(kv: Metadata) {
    && KvString(kv, MODEL_KEY, []) == GPT2
    && KvStringArray(kv, TOKENS_KEY) != []
    && KvStringArray(kv, MERGES_KEY) != []
    && forall merge :: merge in KvStringArray(kv, MERGES_KEY) ==> OneSpace(merge)
  }

  /** An id read as unsigned 32-bit and kept as signed; absent means invalid. */
  function SpecialId(kv: Metadata, key: Bytes): int {
    ToInt32(KvUInt32(kv, key, TWO_32 - 1) % TWO_32)
  }

  /** A special id is -1 where it is absent, and otherwise the number the file gives, read as signed 32 bits. */
  lemma SpecialIdIs(kv: Metadata, key: Bytes, n: int)
    requires -0x8000_0000 <= n < 0x8000_0000
    ensures key !in kv ==> SpecialId(kv, key) == -1
    ensures SpecialId(kv[key := Int32(n)], key) == n
    ensures n >= 0 ==> SpecialId(kv[key := UInt32(n)], key) == SpecialId(kv[key := UInt64(n)], key) == n
    ensures n < 0 ==> SpecialId(kv[key := UInt32(n + 0x1_0000_0000)], key) == n
    ensures n < 0 ==> SpecialId(kv[key := UInt64(n + 0x1_0000_0000)], key) == n
  {
  }

  function AddsBos(kv: Metadata, before: bool): bool {
    if ADD_BOS_KEY !in kv then false
    else if kv[ADD_BOS_KEY].Bool? then kv[ADD_BOS_KEY].b
    else before
  }

  class HydroXLTokenizer {
    var loaded: bool
    var addBos: bool
    var vocab: seq<Bytes>
    var strToId: Ids
    var mergeRank: Ranks
    var tokenType: seq<int>
    const byteToUnicode: array<Bytes>
    var unicodeToByte: map<Bytes, U8>
    var byteTablesBuilt: bool
    var bosId: int
    var eosId: int
    var unkId: int

    ghost predicate TablesValid()
      reads this, byteToUnicode
    {
      && byteToUnicode.Length == 256
      && (byteTablesBuilt ==>
            (forall b: U8 :: byteToUnicode[b] == Symbol(b)) && Inverts(unicodeToByte, 256))
      && (!byteTablesBuilt ==> unicodeToByte == map[])
    }

    ghost predicate Valid()
      reads this, byteToUnicode
    {
      && TablesValid()
      && (loaded ==> byteTablesBuilt && strToId == LastIndex(vocab, |vocab|) && Injective(mergeRank))
    }

    constructor ()
      ensures Valid() && !loaded && fresh(byteToUnicode)
    {
      loaded, addBos := false, false;
      vocab, strToId, mergeRank, tokenType := [], map[], map[], [];
      byteToUnicode := new Bytes[256](_ => []);
      unicodeToByte, byteTablesBuilt := map[], false;
      bosId, eosId, unkId := 151643, 151645, TOKEN_INVALID;
    }

    /** Fill both tables; every byte ends with a symbol of its own. */
    method BuildByteTables()
      requires TablesValid()
      modifies this`unicodeToByte, this`byteTablesBuilt, byteToUnicode
      ensures TablesValid() && byteTablesBuilt
    {
      hide Symbol, Skipped, CodePointOf, Inverts, EncodeUtf8;
      if byteTablesBuilt {
        return;
      }
      NothingBuilt();
      var next: nat := 256;
      var b := 0;
      while b < 256
        invariant 0 <= b <= 256 && next == 256 + Skipped(b)
        invariant forall c: U8 :: c < b ==> byteToUnicode[c] == Symbol(c)
        invariant Inverts(unicodeToByte, b)
      {
        var cp;
        CodePointStep(b, next);
        if 33 <= b <= 126 || 161 <= b <= 172 || 174 <= b <= 255 {
          cp := b;
        } else {
          cp := next;
          next := next + 1;
        }
        var utf8 := EncodeUtf8(cp);
        SymbolStep(b, cp, unicodeToByte);
        byteToUnicode[b] := utf8;
        unicodeToByte := unicodeToByte[utf8 := b];
        b := b + 1;
      }
      byteTablesBuilt := true;
    }

    /** Read the vocabulary and the merges; on failure the tokenizer stays unloaded. */
    method LoadFromGGUF(kv: Metadata) returns (ok: bool)
      requires Valid()
      modifies this, byteToUnicode
      ensures Valid()
      ensures ok == loaded == Loadable(kv)
      ensures ok ==> vocab == KvStringArray(kv, TOKENS_KEY)
      ensures ok ==> mergeRank == LastIndex(KvStringArray(kv, MERGES_KEY), |KvStringArray(kv, MERGES_KEY)|)
      ensures ok ==> tokenType == TypesOf(kv, |vocab|)
      ensures ok ==>
        bosId == SpecialId(kv, BOS_KEY) && eosId == SpecialId(kv, EOS_KEY) && unkId == SpecialId(kv, UNK_KEY)
      ensures ok ==> addBos == AddsBos(kv, old(addBos))
    {
      hide LastIndex, Inverts, Symbol, SpecialId, AddsBos, TypesOf, Injective, OneSpace, KvString,
        KvStringArray, Literal;
      loaded := false;
      BuildByteTables();
      if KvString(kv, MODEL_KEY, []) != GPT2 {
        return false;
      }
      var tokens := KvStringArray(kv, TOKENS_KEY);
      if tokens == [] {
        return false;
      }
      var merges := KvStringArray(kv, MERGES_KEY);
      if merges == [] {
        return false;
      }
      ReadTokens(tokens);
      ok := ReadMerges(merges);
      if !ok {
        return false;
      }
      ReadTypes(kv);
      ReadSpecialIds(kv);
      loaded := true;
      LastIndexInjective(merges, |merges|);
      return true;
    }

    method ReadTokens(tokens: seq<Bytes>)
      modifies this`vocab, this`strToId
      ensures vocab == tokens && strToId == LastIndex(vocab, |vocab|)
    {
      hide LastIndex;
      LastIndexNone(tokens);
      vocab := tokens;
      strToId := map[];
      var id := 0;
      while id < |vocab|
        invariant 0 <= id <= |vocab| && vocab == tokens && strToId == LastIndex(vocab, id)
      {
        LastIndexStep(tokens, id);
        strToId := strToId[vocab[id] := id];
        id := id + 1;
      }
    }

    /** The special ids, and whether encoding starts with BOS (a value that is no bool leaves it as it was). */
    method ReadSpecialIds(kv: Metadata)
      modifies this`bosId, this`eosId, this`unkId, this`addBos
      ensures bosId == SpecialId(kv, BOS_KEY) && eosId == SpecialId(kv, EOS_KEY) && unkId == SpecialId(kv, UNK_KEY)
      ensures addBos == AddsBos(kv, old(addBos))
    {
      hide SpecialId;
      bosId := SpecialId(kv, BOS_KEY);
      eosId := SpecialId(kv, EOS_KEY);
      unkId := SpecialId(kv, UNK_KEY);
      if ADD_BOS_KEY in kv {
        if kv[ADD_BOS_KEY].Bool? {
          addBos := kv[ADD_BOS_KEY].b;
        }
      } else {
        addBos := false;
      }
    }

    method ReadMerges(merges: seq<Bytes>) returns (ok: bool)
      modifies this`mergeRank
      ensures ok <==> forall merge :: merge in merges ==> OneSpace(merge)
      ensures ok ==> mergeRank == LastIndex(merges, |merges|)
    {
      hide LastIndex;
      LastIndexNone(merges);
      mergeRank := map[];
      var i := 0;
      while i < |merges|
        invariant 0 <= i <= |merges| && mergeRank == LastIndex(merges, i)
        invariant forall k :: 0 <= k < i ==> OneSpace(merges[k])
      {
        var merge := merges[i];
        var sp := FirstSpace(merge);
        if sp == |merge| || FirstSpace(merge[sp + 1..]) < |merge[sp + 1..]| {
          assert merge in merges;
          return false;
        }
        assert merge[sp + 1..] == merge[sp + 1..][..FirstSpace(merge[sp + 1..])];
        LastIndexStep(merges, i);
        mergeRank := mergeRank[merge := i];
        i := i + 1;
      }
      return true;
    }

    method ReadTypes(kv: Metadata)
      modifies this`tokenType
      ensures tokenType == TypesOf(kv, |vocab|)
    {
      tokenType := seq(|vocab|, _ => 1);
      if TYPES_KEY in kv && kv[TYPES_KEY].Int32s? {
        var given := kv[TYPES_KEY].i32s;
        var i := 0;
        while i < |given| && i < |tokenType|
          invariant 0 <= i <= |given| && i <= |tokenType| == |vocab|
          invariant forall k :: 0 <= k < |vocab| ==> tokenType[k] == if k < i then given[k] else 1
        {
          tokenType := tokenType[i := given[i]];
          i := i + 1;
        }
      }
    }

    function TokenToId(s: Bytes): int
      reads this
    {
      if s in strToId then strToId[s] else TOKEN_INVALID
    }

    /** Scan for the best pair. */
    method FindBest(symbols: Symbols) returns (best: Option<nat>)
      requires |symbols| > 1
      ensures best == Best(mergeRank, symbols)
    {
      best := None;
      var s := 0;
      while s + 1 < |symbols|
        invariant 0 <= s < |symbols| && best == BestBefore(mergeRank, symbols, s)
      {
        var pair := symbols[s] + [32] + symbols[s + 1];
        if pair in mergeRank && (best.None? || mergeRank[pair] < mergeRank[PairKey(symbols, best.value)]) {
          best := Some(s);
        }
        s := s + 1;
      }
    }

    /** Merge every occurrence of a pair, left to right. */
    method Sweep(symbols: Symbols, l: Bytes, r: Bytes) returns (next: Symbols)
      ensures next == MergeAll(symbols, l, r)
    {
      hide MergeAll;
      next := [];
      var merged := l + r;
      var s := 0;
      assert symbols[s..] == symbols;
      while s < |symbols|
        invariant 0 <= s <= |symbols| && next + MergeAll(symbols[s..], l, r) == MergeAll(symbols, l, r)
      {
        MergeAllStep(symbols, l, r, s);
        if s + 1 < |symbols| && symbols[s] == l && symbols[s + 1] == r {
          next := next + [merged];
          s := s + 2;
        } else {
          next := next + [symbols[s]];
          s := s + 1;
        }
      }
      MergeAllStep(symbols, l, r, s);
    }

    /** The ids of one piece. */
    method BpePiece(piece: Bytes) returns (ids: seq<int>)
      requires Valid() && loaded
      ensures ids == SymbolIds(strToId, BpeAll(mergeRank, SymbolsOf(piece)))
    {
      hide BpeAll, Best, MergeAll, Symbol, Inverts, LastIndex, Injective;
      var symbols := MapPiece(piece);
      while |symbols| > 1
        invariant BpeAll(mergeRank, symbols) == BpeAll(mergeRank, SymbolsOf(piece))
        decreases |symbols|
      {
        BpeStep(mergeRank, symbols);
        var best := FindBest(symbols);
        if best.None? {
          break;
        }
        MergeAllShrinks(symbols, best.value);
        symbols := Sweep(symbols, symbols[best.value], symbols[best.value + 1]);
      }
      BpeStep(mergeRank, symbols);
      ids := LookUp(symbols);
    }

    method MapPiece(piece: Bytes) returns (symbols: Symbols)
      requires TablesValid() && byteTablesBuilt
      ensures symbols == SymbolsOf(piece)
    {
      hide Symbol, Inverts;
      symbols := [];
      var i := 0;
      while i < |piece|
        invariant 0 <= i <= |piece| && symbols == SymbolsOf(piece[..i])
      {
        symbols := symbols + [byteToUnicode[piece[i]]];
        assert piece[..i + 1] == piece[..i] + [piece[i]];
        SymbolsOfConcat(piece[..i], [piece[i]]);
        i := i + 1;
      }
      assert piece[..i] == piece;
    }

    method LookUp(symbols: Symbols) returns (ids: seq<int>)
      requires Valid() && loaded
      ensures ids == SymbolIds(strToId, symbols)
    {
      hide Symbol, Inverts, LastIndex, Injective;
      ids := [];
      var i := 0;
      while i < |symbols|
        invariant 0 <= i <= |symbols| && ids == SymbolIds(strToId, symbols[..i])
      {
        var sym := symbols[i];
        var id := TokenToId(sym);
        if id == TOKEN_INVALID {
          var bytes := LookUpBytes(sym);
          ids := ids + bytes;
        } else {
          ids := ids + [id];
        }
        assert symbols[..i + 1] == symbols[..i] + [sym];
        SymbolIdsConcat(strToId, symbols[..i], [sym]);
        i := i + 1;
      }
      assert symbols[..i] == symbols;
    }

    method LookUpBytes(sym: Bytes) returns (ids: seq<int>)
      requires Valid() && loaded
      ensures ids == ByteIds(strToId, sym)
    {
      hide Symbol, Inverts, LastIndex, Injective;
      ids := [];
      var i := 0;
      while i < |sym|
        invariant 0 <= i <= |sym| && ids == ByteIds(strToId, sym[..i])
      {
        var id := TokenToId(byteToUnicode[sym[i]]);
        assert sym[..i + 1] == sym[..i] + [sym[i]];
        ByteIdsConcat(strToId, sym[..i], [sym[i]]);
        if id != TOKEN_INVALID {
          ids := ids + [id];
        }
        i := i + 1;
      }
      assert sym[..i] == sym;
    }

    /** The ids a text is encoded to. */
    ghost function Encoding(text: Bytes, withBos: bool): seq<int>
      reads this
    {
      (if withBos && bosId != TOKEN_INVALID then [bosId] else [])
        + SymbolIds(strToId, FinalSymbols(mergeRank, Pieces(text)))
    }

    method Encode(text: Bytes, withBos: bool) returns (ids: seq<int>)
      requires Valid()
      ensures ids == if loaded then Encoding(text, withBos) else []
    {
      hide Inverts, LastIndex, Injective, FinalSymbols, SymbolIds, BpeAll, Pieces;
      ids := [];
      if !loaded {
        return;
      }
      if withBos && bosId != TOKEN_INVALID {
        ids := [bosId];
      }
      ghost var head := ids;
      var pieces := PreTokenize(text);
      FinalSymbolsNone(strToId, mergeRank);
      var i := 0;
      while i < |pieces|
        invariant 0 <= i <= |pieces| && ids == head + SymbolIds(strToId, FinalSymbols(mergeRank, pieces[..i]))
      {
        var more := BpePiece(pieces[i]);
        FinalSymbolsNext(strToId, mergeRank, pieces, i);
        ids := ids + more;
        i := i + 1;
      }
      assert pieces[..i] == pieces;
    }

    /** The bytes a list of ids is decoded to. */
    ghost function Decoding(ids: seq<int>, skipSpecial: bool): Bytes
      reads this
    {
      Unmap(unicodeToByte, Spelling(vocab, tokenType, skipSpecial, ids))
    }

    method Decode(ids: seq<int>, skipSpecial: bool) returns (text: Bytes)
      ensures text == if loaded then Decoding(ids, skipSpecial) else []
    {
      if !loaded {
        return [];
      }
      var mapped: Bytes := [];
      var k := 0;
      while k < |ids|
        invariant 0 <= k <= |ids| && mapped == Spelling(vocab, tokenType, skipSpecial, ids[..k])
      {
        if Spells(vocab, tokenType, skipSpecial, ids[k]) {
          mapped := mapped + vocab[ids[k]];
        }
        assert ids[..k + 1] == ids[..k] + [ids[k]];
        SpellingConcat(vocab, tokenType, skipSpecial, ids[..k], [ids[k]]);
        k := k + 1;
      }
      assert ids[..k] == ids;
      text := UnmapAll(mapped);
    }

    method UnmapAll(mapped: Bytes) returns (text: Bytes)
      ensures text == Unmap(unicodeToByte, mapped)
    {
      hide Unmap, DecodeUtf8;
      UnmapNone(unicodeToByte);
      text := [];
      var i := 0;
      while i < |mapped|
        invariant 0 <= i <= |mapped| && text + Unmap(unicodeToByte, mapped[i..]) == Unmap(unicodeToByte, mapped)
        decreases |mapped| - i
      {
        var len := DecodeUtf8(mapped, i).len;
        var ch := mapped[i..i + len];
        UnmapStep(unicodeToByte, mapped, i);
        if ch in unicodeToByte {
          text := text + [unicodeToByte[ch]];
        } else {
          text := text + ch;
        }
        i := i + len;
      }
      assert mapped[i..] == [];
    }

    /** On a loaded tokenizer whose merges are in order, sweeping is byte-pair encoding as it is defined. */
    lemma PieceMergesOneByOne(piece: Bytes)
      requires Valid() && loaded && Stratified(mergeRank)
      ensures BpeAll(mergeRank, SymbolsOf(piece)) == BpeOne(mergeRank, SymbolsOf(piece))
    {
      hide Inverts, Injective, LastIndex, Stratified, Spaceless, BpeAll, BpeOne;
      SymbolsSpaceless(piece);
      SweepRefinesSingle(mergeRank, SymbolsOf(piece));
    }

    /**
     * Encoding then decoding, on every loaded tokenizer: what comes back. With every byte symbol in the
     * vocabulary it is the text exactly if each final symbol is known or plain ASCII.
     */
    lemma DecodeEncode(text: Bytes)
      requires Valid() && loaded
      ensures var symbols, result := FinalSymbols(mergeRank, Pieces(text)), Decoding(Encoding(text, false), false);
        && result == Returned(unicodeToByte, strToId, symbols) && text == Meant(unicodeToByte, symbols)
        && ((forall x :: x in symbols ==> Back(unicodeToByte, strToId, x) == Unmap(unicodeToByte, x)) ==>
            result == text)
        && (KnowsAllBytes(strToId) ==> (result == text <==> forall x :: x in symbols ==> Survives(strToId, x)))
    {
      hide Inverts, KnowsAllBytes, Injective, LastIndex, Survives, FinalSymbols, SymbolIds, Spelling,
        Back, Returned, Meant;
      assert Encoding(text, false) == SymbolIds(strToId, FinalSymbols(mergeRank, Pieces(text)));
      RoundTripIff(unicodeToByte, vocab, tokenType, mergeRank, text);
    }

    /** With a closed vocabulary every byte string comes back. */
    lemma DecodeEncodeClosed(text: Bytes)
      requires Valid() && loaded && ClosedVocabulary(strToId, mergeRank)
      ensures Decoding(Encoding(text, false), false) == text
    {
      hide Inverts, ClosedVocabulary, Injective, LastIndex, FinalSymbols, SymbolIds, Spelling;
      assert Encoding(text, false) == SymbolIds(strToId, FinalSymbols(mergeRank, Pieces(text)));
      RoundTrip(unicodeToByte, vocab, tokenType, mergeRank, text);
    }
  }

  lemma NothingBuilt()
    ensures Skipped(0) == 0 && Inverts(map[], 0)
  {
  }

  lemma CodePointStep(b: U8, next: nat)
    requires next == 256 + Skipped(b)
    ensures CodePointOf(b) == if Printable(b) then b else next
    ensures 256 + Skipped(b + 1) == if Printable(b) then next else next + 1
    ensures Printable(b) <==> 33 <= b <= 126 || 161 <= b <= 172 || 174 <= b <= 255
  {
  }

  lemma SymbolStep(b: U8, cp: nat, table: map<Bytes, U8>)
    requires cp == CodePointOf(b) && Inverts(table, b)
    ensures EncodeUtf8(cp) == Symbol(b)
    ensures Inverts(table[Symbol(b) := b], b + 1)
  {
    forall c: U8 | c < b ensures Symbol(c) != Symbol(b) {
      if Symbol(c) == Symbol(b) {
        SymbolsDiffer(c, b);
      }
    }
    hide Symbol;
  }

  lemma LastIndexNone(list: seq<Bytes>)
    ensures LastIndex(list, 0) == map[]
  {
  }

  lemma LastIndexStep(list: seq<Bytes>, n: nat)
    requires n < |list|
    ensures LastIndex(list, n + 1) == LastIndex(list, n)[list[n] := n]
  {
  }

  lemma LastIndexInjective(list: seq<Bytes>, n: nat)
    requires n <= |list|
    ensures Injective(LastIndex(list, n))
  {
  }

  /** Byte symbols hold no space, so that merge keys are unambiguous. */
  lemma {:induction false} SymbolsSpaceless(piece: Bytes)
    ensures Spaceless(SymbolsOf(piece))
  {
    hide Symbol;
    if piece != [] {
      SymbolsSpaceless(piece[1..]);
      SymbolBytes(piece[0]);
      var s := Symbol(piece[0]);
      forall i | 0 <= i < |s| ensures s[i] != 32 {
        assert s[i] in s;
      }
    }
  }

  lemma BpeStep(m: Ranks, s: Symbols)
    ensures var best := Best(m, s);
      BpeAll(m, s) == if best.None? then s else BpeAll(m, MergeAll(s, s[best.value], s[best.value + 1]))
  {
    if Best(m, s).Some? {
      MergeAllShrinks(s, Best(m, s).value);
    }
  }

  lemma FinalSymbolsNone(ids: Ids, m: Ranks)
    ensures SymbolIds(ids, FinalSymbols(m, [])) == []
  {
  }

  lemma FinalSymbolsNext(ids: Ids, m: Ranks, pieces: seq<Bytes>, i: nat)
    requires i < |pieces|
    ensures SymbolIds(ids, FinalSymbols(m, pieces[..i + 1]))
         == SymbolIds(ids, FinalSymbols(m, pieces[..i])) + SymbolIds(ids, BpeAll(m, SymbolsOf(pieces[i])))
  {
    hide BpeAll, SymbolIds;
    assert pieces[..i + 1] == pieces[..i] + [pieces[i]];
    FinalSymbolsConcat(m, pieces[..i], [pieces[i]]);
    assert FinalSymbols(m, [pieces[i]]) == BpeAll(m, SymbolsOf(pieces[i]));
    SymbolIdsConcat(ids, FinalSymbols(m, pieces[..i]), BpeAll(m, SymbolsOf(pieces[i])));
  }

  lemma UnmapNone(table: map<Bytes, U8>)
    ensures Unmap(table, []) == []
  {
  }

  lemma UnmapStep(table: map<Bytes, U8>, mapped: Bytes, i: nat)
    requires i < |mapped|
    ensures var len := DecodeUtf8(mapped, i).len;
      var ch := mapped[i..i + len];
      Unmap(table, mapped[i..]) == (if ch in table then [table[ch]] else ch) + Unmap(table, mapped[i + len..])
  {
    DecodeIgnoresPrefix(mapped, i);
    var len := DecodeUtf8(mapped, i).len;
    assert mapped[i..][..len] == mapped[i..i + len] && mapped[i..][len..] == mapped[i + len..];
  }
}
