/** Splitting text into pieces by the Qwen2 rules, one piece at a time from the front. */
module PreTokenizer {
  import opened Utf8

  // ---------------------------------------------------------------------------------------------
  // Character classes: precise for ASCII, everything else counts as a letter
  // ---------------------------------------------------------------------------------------------

  predicate IsSpace(cp: nat) { cp == 32 || 9 <= cp <= 13 }
  predicate IsNewline(cp: nat) { cp == 13 || cp == 10 }
  predicate IsDigit(cp: nat) { 48 <= cp <= 57 }
  predicate IsLetter(cp: nat) { 97 <= cp <= 122 || 65 <= cp <= 90 || cp >= 0x80 }
  predicate IsOther(cp: nat) { !IsSpace(cp) && !IsDigit(cp) && !IsLetter(cp) }
  predicate IsPrefixable(cp: nat) { !IsNewline(cp) && !IsDigit(cp) && !IsLetter(cp) }
  predicate IsPunctuation(cp: nat) { IsOther(cp) && !IsNewline(cp) }

  /** A code point narrowed to a byte and then lower-cased, as the contraction rule compares it. */
  function AsciiLower(cp: nat): nat {
    var c := cp % 256;
    if 65 <= c <= 90 then c + 32 else c
  }

  // ---------------------------------------------------------------------------------------------
  // Runs
  // ---------------------------------------------------------------------------------------------

  /** The bytes of the longest run of code points in a class at the front of s. */
  function RunLen(s: Bytes, p: nat -> bool): (n: nat)
    ensures n <= |s|
    decreases |s|
  {
    if s == [] then 0
    else
      var d := DecodeUtf8(s, 0);
      if p(d.cp) then d.len + RunLen(s[d.len..], p) else 0
  }

  /** The bytes of at most k digits at the front of s. */
  function DigitRun(s: Bytes, k: nat): (n: nat)
    ensures n <= |s| && (k == 0 ==> n == 0)
    decreases k
  {
    if s == [] || k == 0 then 0
    else
      var d := DecodeUtf8(s, 0);
      if IsDigit(d.cp) then d.len + DigitRun(s[d.len..], k - 1) else 0
  }

  /** Where the last newline of the white space at the front of s ends; 0 when it has none. */
  function LastNewline(s: Bytes): (n: nat)
    ensures n <= |s|
    decreases |s|
  {
    if s == [] then 0
    else
      var d := DecodeUtf8(s, 0);
      if !IsSpace(d.cp) then 0
      else
        var later := LastNewline(s[d.len..]);
        if later > 0 then d.len + later else if IsNewline(d.cp) then d.len else 0
  }

  // ---------------------------------------------------------------------------------------------
  // The rules
  // ---------------------------------------------------------------------------------------------

  /** The code point at index i, or 0 (in one byte) when the text ends before it. */
  function Peek(s: Bytes, i: nat): (d: Decoded)
    ensures d.cp != 0 ==> i + d.len <= |s|
  {
    if i < |s| then DecodeUtf8(s, i) else Decoded(0, 1)
  }

  function Second(s: Bytes): Decoded
    requires s != []
  {
    Peek(s, DecodeUtf8(s, 0).len)
  }

  function Third(s: Bytes): Decoded
    requires s != []
  {
    var c1 := Second(s);
    Peek(s, DecodeUtf8(s, 0).len + if c1.cp != 0 then c1.len else 0)
  }

  /** Rule 1: 's 't 'm 'd 're 've 'll in either case; 0 when none is there. */
  function ContractionLen(s: Bytes): (n: nat)
    requires s != []
    ensures n <= |s|
  {
    var c0, c1, c2 := DecodeUtf8(s, 0), Second(s), Third(s);
    if c0.cp == 39 && c1.cp != 0 then
      var a := AsciiLower(c1.cp);
      if a == 115 || a == 116 || a == 109 || a == 100 then c0.len + c1.len
      else if c2.cp != 0 then
        var b := AsciiLower(c2.cp);
        if (a == 114 && b == 101) || (a == 118 && b == 101) || (a == 108 && b == 108) then c0.len + c1.len + c2.len
        else 0
      else 0
    else 0
  }

  /** A space in front of punctuation belongs to it. */
  function SpaceLead(s: Bytes): (n: nat)
    requires s != []
    ensures n <= |s|
  {
    var c0, c1 := DecodeUtf8(s, 0), Second(s);
    if c0.cp == 32 && c1.cp != 0 && IsPunctuation(c1.cp) then c0.len else 0
  }

  /** Rule 4: an optional space, punctuation, and the newlines behind it; 0 without punctuation. */
  function PunctuationLen(s: Bytes): (n: nat)
    requires s != []
    ensures n <= |s|
  {
    var lead := SpaceLead(s);
    var run := RunLen(s[lead..], IsPunctuation);
    if run == 0 then 0 else lead + run + RunLen(s[lead + run..], IsNewline)
  }

  /** Rules 5 and 6: up to the last newline, or all of it at the end, or all but the last byte. */
  function WhiteSpaceLen(s: Bytes): (n: nat)
    requires s != [] && IsSpace(DecodeUtf8(s, 0).cp)
    ensures 0 < n <= |s|
  {
    var run := RunLen(s, IsSpace);
    if LastNewline(s) > 0 then LastNewline(s)
    else if run == |s| then run
    else if run >= 2 then run - 1
    else run
  }

  function FirstPiece(s: Bytes): (n: nat)
    requires s != []
    ensures 0 < n <= |s|
  {
    var c0, c1 := DecodeUtf8(s, 0), Second(s);
    if ContractionLen(s) > 0 then ContractionLen(s)
    else if IsLetter(c0.cp) || (IsPrefixable(c0.cp) && c1.cp != 0 && IsLetter(c1.cp)) then
      c0.len + RunLen(s[c0.len..], IsLetter)
    else if IsDigit(c0.cp) then c0.len + DigitRun(s[c0.len..], 2)
    else if PunctuationLen(s) > 0 then PunctuationLen(s)
    else if IsSpace(c0.cp) then WhiteSpaceLen(s)
    else c0.len
  }

  function Pieces(s: Bytes): seq<Bytes>
    decreases |s|
  {
    if s == [] then [] else [s[..FirstPiece(s)]] + Pieces(s[FirstPiece(s)..])
  }

  /** The pieces partition the text: nothing is lost, doubled, reordered or empty. */
  lemma {:induction false} PiecesPartition(s: Bytes)
    ensures Joined(Pieces(s)) == s
    ensures forall piece :: piece in Pieces(s) ==> piece != []
    decreases |s|
  {
    hide FirstPiece;
    if s != [] {
      PiecesPartition(s[FirstPiece(s)..]);
      assert s[..FirstPiece(s)] + s[FirstPiece(s)..] == s;
    }
  }

  /** The rules cover every code point: the catch-all that would take a single one is never needed. */
  lemma RulesAreExhaustive(s: Bytes)
    requires s != []
    ensures var c0, c1 := DecodeUtf8(s, 0), Second(s);
      ContractionLen(s) > 0 || IsLetter(c0.cp) || IsDigit(c0.cp) || PunctuationLen(s) > 0 || IsSpace(c0.cp)
  {
    var c0 := DecodeUtf8(s, 0);
    if IsOther(c0.cp) {
      assert s[0..] == s;
    }
  }

  // ---------------------------------------------------------------------------------------------
  // The loops
  // ---------------------------------------------------------------------------------------------

  lemma RunLenStep(text: Bytes, i: nat, p: nat -> bool)
    requires i < |text|
    ensures var d := DecodeUtf8(text, i);
      RunLen(text[i..], p) == if p(d.cp) then d.len + RunLen(text[i + d.len..], p) else 0
  {
    DecodeIgnoresPrefix(text, i);
    var d := DecodeUtf8(text, i);
    assert text[i..][d.len..] == text[i + d.len..];
  }

  lemma DigitRunStep(text: Bytes, i: nat, k: nat)
    requires i < |text| && k > 0
    ensures var d := DecodeUtf8(text, i);
      DigitRun(text[i..], k) == if IsDigit(d.cp) then d.len + DigitRun(text[i + d.len..], k - 1) else 0
  {
    DecodeIgnoresPrefix(text, i);
    var d := DecodeUtf8(text, i);
    assert text[i..][d.len..] == text[i + d.len..];
  }

  lemma LastNewlineStep(text: Bytes, i: nat)
    requires i < |text|
    ensures var d := DecodeUtf8(text, i);
      var later := LastNewline(text[i + d.len..]);
      LastNewline(text[i..]) ==
      if !IsSpace(d.cp) then 0 else if later > 0 then d.len + later else if IsNewline(d.cp) then d.len else 0
  {
    DecodeIgnoresPrefix(text, i);
    var d := DecodeUtf8(text, i);
    assert text[i..][d.len..] == text[i + d.len..];
  }

  /** Skip code points while they are in a class. */
  method SkipRun(text: Bytes, start: nat, p: nat -> bool) returns (j: nat)
    requires start <= |text|
    ensures j == start + RunLen(text[start..], p)
  {
    hide RunLen, DecodeUtf8;
    j := start;
    while j < |text|
      invariant start <= j <= |text|
      invariant j + RunLen(text[j..], p) == start + RunLen(text[start..], p)
      decreases |text| - j
    {
      var d := DecodeUtf8(text, j);
      RunLenStep(text, j, p);
      if !p(d.cp) {
        break;
      }
      j := j + d.len;
    }
  }

  /** Skip up to three digits, the first of which is already behind `start`. */
  method SkipDigits(text: Bytes, start: nat) returns (j: nat)
    requires start <= |text|
    ensures j == start + DigitRun(text[start..], 2)
  {
    hide DigitRun, DecodeUtf8;
    j := start;
    var count := 1;
    while j < |text| && count < 3
      invariant start <= j <= |text| && 1 <= count <= 3
      invariant j + DigitRun(text[j..], 3 - count) == start + DigitRun(text[start..], 2)
      decreases 3 - count
    {
      var d := DecodeUtf8(text, j);
      DigitRunStep(text, j, 3 - count);
      if !IsDigit(d.cp) {
        break;
      }
      j := j + d.len;
      count := count + 1;
    }
  }

  /** Skip white space, remembering where its last newline ended. */
  method SkipSpace(text: Bytes, start: nat) returns (j: nat, lastNewline: nat)
    requires start <= |text|
    ensures j == start + RunLen(text[start..], IsSpace)
    ensures lastNewline == LastNewline(text[start..])
  {
    hide RunLen, LastNewline, DecodeUtf8;
    j, lastNewline := start, 0;
    while j < |text|
      invariant start <= j <= |text| && lastNewline <= j - start
      invariant j + RunLen(text[j..], IsSpace) == start + RunLen(text[start..], IsSpace)
      invariant LastNewline(text[start..]) ==
        if LastNewline(text[j..]) > 0 then j - start + LastNewline(text[j..]) else lastNewline
      decreases |text| - j
    {
      var d := DecodeUtf8(text, j);
      RunLenStep(text, j, IsSpace);
      LastNewlineStep(text, j);
      if !IsSpace(d.cp) {
        break;
      }
      if IsNewline(d.cp) {
        lastNewline := j + d.len - start;
      }
      j := j + d.len;
    }
  }

  lemma PeekIgnoresPrefix(text: Bytes, i: nat, k: nat)
    requires i <= |text|
    ensures Peek(text, i + k) == Peek(text[i..], k)
  {
    if i + k < |text| {
      DecodeIgnoresPrefix(text, i + k);
      DecodeIgnoresPrefix(text[i..], k);
      assert text[i..][k..] == text[i + k..];
    }
  }

  /** Rule 1 at index i: how much it takes, or 0. */
  method TakeContraction(text: Bytes, i: nat) returns (take: nat)
    requires i < |text|
    ensures take == ContractionLen(text[i..])
  {
    var c0 := DecodeUtf8(text, i);
    var c1 := Peek(text, i + c0.len);
    var c2 := Peek(text, i + c0.len + if c1.cp != 0 then c1.len else 0);
    DecodeIgnoresPrefix(text, i);
    PeekIgnoresPrefix(text, i, c0.len);
    PeekIgnoresPrefix(text, i, c0.len + if c1.cp != 0 then c1.len else 0);
    assert c1 == Second(text[i..]) && c2 == Third(text[i..]);
    hide DecodeUtf8, Peek, Second, Third;
    take := 0;
    if c0.cp == 39 && c1.cp != 0 {
      var a := AsciiLower(c1.cp);
      if a == 115 || a == 116 || a == 109 || a == 100 {
        take := c0.len + c1.len;
      } else if c2.cp != 0 {
        var b := AsciiLower(c2.cp);
        if (a == 114 && b == 101) || (a == 118 && b == 101) || (a == 108 && b == 108) {
          take := c0.len + c1.len + c2.len;
        }
      }
    }
  }

  lemma Suffixes(text: Bytes, i: nat, k: nat)
    requires i + k <= |text|
    ensures text[i..][k..] == text[i + k..]
  {
  }

  /** Rule 4, read in the whole text. */
  lemma PunctuationAt(text: Bytes, i: nat, run: nat)
    requires i < |text|
    requires run == RunLen(text[i + SpaceLead(text[i..])..], IsPunctuation)
    ensures i + SpaceLead(text[i..]) + run <= |text|
    ensures var lead := SpaceLead(text[i..]);
      PunctuationLen(text[i..]) == if run == 0 then 0 else lead + run + RunLen(text[i + lead + run..], IsNewline)
  {
    hide RunLen, SpaceLead;
    Suffixes(text, i, SpaceLead(text[i..]));
    Suffixes(text, i, SpaceLead(text[i..]) + run);
  }

  method TakeSpaceLead(text: Bytes, i: nat) returns (lead: nat)
    requires i < |text|
    ensures lead == SpaceLead(text[i..])
  {
    var c0 := DecodeUtf8(text, i);
    var c1 := Peek(text, i + c0.len);
    DecodeIgnoresPrefix(text, i);
    PeekIgnoresPrefix(text, i, c0.len);
    lead := if c0.cp == 32 && c1.cp != 0 && IsPunctuation(c1.cp) then c0.len else 0;
  }

  /** Rule 4 at index i: punctuation, with an optional space in front and newlines behind; or 0. */
  method TakePunctuation(text: Bytes, i: nat) returns (take: nat)
    requires i < |text|
    ensures take == PunctuationLen(text[i..])
  {
    hide RunLen, SpaceLead, PunctuationLen;
    var lead := TakeSpaceLead(text, i);
    var k := SkipRun(text, i + lead, IsPunctuation);
    PunctuationAt(text, i, k - i - lead);
    if k == i + lead {
      return 0;
    }
    k := SkipRun(text, k, IsNewline);
    take := k - i;
  }

  /** Rules 5 and 6 at index i. */
  method TakeWhiteSpace(text: Bytes, i: nat) returns (take: nat)
    requires i < |text| && IsSpace(DecodeUtf8(text[i..], 0).cp)
    ensures take == WhiteSpaceLen(text[i..])
  {
    hide RunLen, LastNewline, DecodeUtf8;
    var j, lastNewline := SkipSpace(text, i);
    if lastNewline > 0 {
      return lastNewline;
    }
    if j == |text| {
      return j - i;
    }
    if j - i >= 2 {
      return j - 1 - i;
    }
    return j - i;
  }

  /** How far the piece at index i reaches. */
  method NextCut(text: Bytes, i: nat) returns (next: nat)
    requires i < |text|
    ensures next == i + FirstPiece(text[i..])
  {
    var c0 := DecodeUtf8(text, i);
    var c1 := Peek(text, i + c0.len);
    DecodeIgnoresPrefix(text, i);
    PeekIgnoresPrefix(text, i, c0.len);
    assert c1 == Second(text[i..]);
    hide RunLen, DigitRun, DecodeUtf8, Peek, Second, ContractionLen, PunctuationLen, WhiteSpaceLen;
    assert text[i..][c0.len..] == text[i + c0.len..];

    var take := TakeContraction(text, i);
    if take > 0 {
      return i + take;
    }
    // Rule 2: letters, with one optional character in front
    if IsLetter(c0.cp) || (IsPrefixable(c0.cp) && c1.cp != 0 && IsLetter(c1.cp)) {
      next := SkipRun(text, i + c0.len, IsLetter);
      return;
    }
    // Rule 3: digits in groups of up to three
    if IsDigit(c0.cp) {
      next := SkipDigits(text, i + c0.len);
      return;
    }
    take := TakePunctuation(text, i);
    if take > 0 {
      return i + take;
    }
    if IsSpace(c0.cp) {
      take := TakeWhiteSpace(text, i);
      return i + take;
    }
    return i + c0.len;
  }

  method PreTokenize(text: Bytes) returns (pieces: seq<Bytes>)
    ensures pieces == Pieces(text)
  {
    hide FirstPiece;
    pieces := [];
    var i := 0;
    while i < |text|
      invariant 0 <= i <= |text|
      invariant pieces + Pieces(text[i..]) == Pieces(text)
      decreases |text| - i
    {
      var next := NextCut(text, i);
      assert text[i..][..next - i] == text[i..next];
      assert text[i..][next - i..] == text[next..];
      pieces := pieces + [text[i..next]];
      i := next;
    }
  }
}
