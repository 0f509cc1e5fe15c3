/** Where texts are cut, told by their characters alone. */
module PreTokenizerLaws {
  import opened Utf8
  import opened PreTokenizer

  type Text = seq<nat>

  predicate Encodable(t: Text) {
    forall i :: 0 <= i < |t| ==> t[i] < 0x200000
  }

  function Encoded(t: Text): Bytes
    requires Encodable(t)
  {
    if t == [] then [] else EncodeUtf8(t[0]) + Encoded(t[1..])
  }

  // ---------------------------------------------------------------------------------------------
  // Characters
  // ---------------------------------------------------------------------------------------------

  /** ASCII letters; everything beyond ASCII is taken for one. */
  predicate Letter(c: nat) {
    'a' as nat <= c <= 'z' as nat || 'A' as nat <= c <= 'Z' as nat || c > 127
  }

  predicate Digit(c: nat) {
    '0' as nat <= c <= '9' as nat
  }

  predicate Newline(c: nat) {
    c == '\n' as nat || c == '\r' as nat
  }

  /** White space within a line: blanks, tabs (9), vertical tabs (11) and form feeds (12). */
  predicate Blank(c: nat) {
    c == ' ' as nat || c == '\t' as nat || c == 11 || c == 12
  }

  /** Anything else of ASCII. */
  predicate Mark(c: nat) {
    !Letter(c) && !Digit(c) && !Newline(c) && !Blank(c)
  }

  /** A character in either case; those beyond ASCII are compared by their lowest byte. */
  predicate Low(c: nat, small: char, capital: char) {
    c % 256 == small as nat || c % 256 == capital as nat
  }

  /** 's 't 'm 'd */
  predicate ShortContraction(a: nat, b: nat) {
    a == '\'' as nat && (Low(b, 's', 'S') || Low(b, 't', 'T') || Low(b, 'm', 'M') || Low(b, 'd', 'D'))
  }

  /** 're 've 'll */
  predicate LongContraction(a: nat, b: nat, c: nat) {
    a == '\'' as nat
    && ((Low(b, 'r', 'R') && Low(c, 'e', 'E')) || (Low(b, 'v', 'V') && Low(c, 'e', 'E'))
        || (Low(b, 'l', 'L') && Low(c, 'l', 'L')))
  }

  predicate White(c: nat) {
    Blank(c) || Newline(c)
  }

  /** The white space at the front has a newline. */
  predicate NewlineAhead(t: Text) {
    t != [] && (Newline(t[0]) || (Blank(t[0]) && NewlineAhead(t[1..])))
  }

  /** A mark is last, or only newlines stand behind it. */
  predicate MarkBehind(t: Text) {
    t != [] && (Mark(t[|t| - 1]) || (Newline(t[|t| - 1]) && MarkBehind(t[..|t| - 1])))
  }

  /**
   * Whether a cut comes before character k, from the two characters around it, the white space near
   * them, and whether pieces begin one, two and three characters earlier.
   */
  predicate Rule(t: Text, k: nat, one: bool, two: bool, three: bool)
    requires 0 < k < |t|
  {
    var a, b := t[k - 1], t[k];
    if Letter(a) && Letter(b) then
      || (k >= 2 && two && ShortContraction(t[k - 2], a))
      || (k >= 3 && three && LongContraction(t[k - 3], t[k - 2], a))
    else if Digit(a) && Digit(b) then
      k >= 3 && three && Digit(t[k - 3]) && Digit(t[k - 2])
    else if Mark(a) then
      Digit(b) || Blank(b) || (Letter(b) && !one)
    else if Blank(a) && White(b) then
      !NewlineAhead(t[k..]) && k + 1 < |t| && !White(t[k + 1])
    else if Blank(a) then
      !Letter(b) && !(a == ' ' as nat && Mark(b) && b != 0)
    else if Newline(a) && White(b) then
      Blank(b) && (!NewlineAhead(t[k..]) || MarkBehind(t[..k]))
    else true
  }

  /** The same from the text alone: one cut after the other, from the left. */
  predicate CutBefore(t: Text, k: nat)
    requires k < |t|
  {
    k == 0 || Rule(t, k, k >= 1 && CutBefore(t, k - 1), k >= 2 && CutBefore(t, k - 2), k >= 3 && CutBefore(t, k - 3))
  }

  /** One piece ends and another begins after p bytes. */
  predicate IsCut(pieces: seq<Bytes>, p: nat) {
    && |pieces| > 1
    && (p == |pieces[0]| || (p > |pieces[0]| && IsCut(pieces[1..], p - |pieces[0]|)))
  }

  lemma Classes(c: nat)
    ensures IsLetter(c) <==> Letter(c)
    ensures IsDigit(c) <==> Digit(c)
    ensures IsNewline(c) <==> Newline(c)
    ensures IsSpace(c) <==> Blank(c) || Newline(c)
    ensures IsPunctuation(c) <==> Mark(c)
    ensures IsPrefixable(c) <==> Mark(c) || Blank(c)
  {
  }

  // ---------------------------------------------------------------------------------------------
  // The rules on characters
  // ---------------------------------------------------------------------------------------------

  /** How many characters at the front are in a class. */
  function Run(t: Text, p: nat -> bool): (n: nat)
    ensures n <= |t| && (forall i :: 0 <= i < n ==> p(t[i])) && (n < |t| ==> !p(t[n]))
  {
    if t == [] || !p(t[0]) then 0 else 1 + Run(t[1..], p)
  }

  function Size(t: Text, n: nat): nat
    requires Encodable(t) && n <= |t|
  {
    |Encoded(t[..n])|
  }

  lemma {:induction false} EncodedConcat(a: Text, b: Text)
    requires Encodable(a) && Encodable(b)
    ensures Encodable(a + b) && Encoded(a + b) == Encoded(a) + Encoded(b)
  {
    if a == [] {
      assert a + b == b;
    } else {
      assert (a + b)[1..] == a[1..] + b;
      EncodedConcat(a[1..], b);
    }
  }

  /** A text cut after n characters is cut after their bytes. */
  lemma EncodedSplit(t: Text, n: nat)
    requires Encodable(t) && n <= |t|
    ensures Encoded(t) == Encoded(t[..n]) + Encoded(t[n..])
    ensures Size(t, n) <= |Encoded(t)|
    ensures Encoded(t)[Size(t, n)..] == Encoded(t[n..]) && Encoded(t)[..Size(t, n)] == Encoded(t[..n])
  {
    assert t[..n] + t[n..] == t;
    EncodedConcat(t[..n], t[n..]);
  }

  lemma FirstDecoded(t: Text)
    requires Encodable(t) && t != []
    ensures Encoded(t) != [] && DecodeUtf8(Encoded(t), 0) == Decoded(t[0], Size(t, 1))
    ensures Size(t, 1) == |EncodeUtf8(t[0])| && (t[0] < 0x80 ==> Size(t, 1) == 1)
  {
    DecodeEncoded(t[0], Encoded(t[1..]));
    assert t[..1] == [t[0]] && t[..1][1..] == [];
    assert Encoded(t[..1]) == EncodeUtf8(t[0]) + [];
  }

  lemma SizeNext(t: Text, n: nat)
    requires Encodable(t) && n < |t|
    ensures Size(t, n + 1) == Size(t, 1) + Size(t[1..], n)
    ensures Size(t, 0) == 0
  {
    var front := t[..n + 1];
    assert front[1..] == t[1..][..n] && front[0] == t[0];
    assert Encoded(front) == EncodeUtf8(t[0]) + Encoded(front[1..]);
    FirstDecoded(t);
    assert t[..0] == [];
  }

  lemma SizeGrows(t: Text, m: nat, n: nat)
    requires Encodable(t) && m < n <= |t|
    ensures Size(t, m) < Size(t, n)
    ensures Size(t, n) == Size(t, m) + Size(t[m..], n - m)
  {
    assert t[..m] + t[m..n] == t[..n] && t[m..][..n - m] == t[m..n];
    EncodedConcat(t[..m], t[m..n]);
    var rest := t[m..n];
    assert Encoded(rest) == EncodeUtf8(rest[0]) + Encoded(rest[1..]);
  }

  lemma {:induction false} RunEncoded(t: Text, p: nat -> bool)
    requires Encodable(t)
    ensures RunLen(Encoded(t), p) == Size(t, Run(t, p))
  {
    if t == [] {
      assert t[..0] == [];
    } else {
      FirstDecoded(t);
      EncodedSplit(t, 1);
      SizeNext(t, 0);
      if p(t[0]) {
        RunEncoded(t[1..], p);
        SizeNext(t, Run(t[1..], p));
      }
    }
  }

  function Least(a: nat, b: nat): nat {
    if a < b then a else b
  }

  lemma {:induction false} DigitsEncoded(t: Text, k: nat)
    requires Encodable(t)
    ensures DigitRun(Encoded(t), k) == Size(t, Least(k, Run(t, IsDigit)))
    decreases k
  {
    if t == [] || k == 0 {
      assert t[..0] == [];
    } else {
      FirstDecoded(t);
      EncodedSplit(t, 1);
      SizeNext(t, 0);
      if IsDigit(t[0]) {
        DigitsEncoded(t[1..], k - 1);
        SizeNext(t, Least(k - 1, Run(t[1..], IsDigit)));
      }
    }
  }

  /** How many characters of the white space at the front its last newline ends. */
  function LastBreak(t: Text): (n: nat)
    ensures n <= Run(t, IsSpace)
    ensures n > 0 ==> IsNewline(t[n - 1])
    ensures forall i :: n <= i < Run(t, IsSpace) ==> !IsNewline(t[i])
  {
    if t == [] || !IsSpace(t[0]) then 0
    else
      var later := LastBreak(t[1..]);
      if later > 0 then 1 + later else if IsNewline(t[0]) then 1 else 0
  }

  lemma {:induction false} BreakEncoded(t: Text)
    requires Encodable(t)
    ensures LastNewline(Encoded(t)) == Size(t, LastBreak(t))
  {
    if t == [] {
      assert t[..0] == [];
    } else {
      FirstDecoded(t);
      EncodedSplit(t, 1);
      SizeNext(t, 0);
      if IsSpace(t[0]) {
        BreakEncoded(t[1..]);
        SizeNext(t, LastBreak(t[1..]));
        if LastBreak(t[1..]) > 0 {
          SizeGrows(t[1..], 0, LastBreak(t[1..]));
        } else {
          assert t[1..][..0] == [];
        }
      }
    }
  }

  /** The character at an index, or 0 behind the end. */
  function CharAt(t: Text, i: nat): nat {
    if i < |t| then t[i] else 0
  }

  function ContractionCount(t: Text): (n: nat)
    requires t != []
    ensures n <= |t|
  {
    if CharAt(t, 1) == 0 then 0
    else if ShortContraction(t[0], t[1]) then 2
    else if CharAt(t, 2) != 0 && LongContraction(t[0], t[1], t[2]) then 3
    else 0
  }

  /** Whether a space stands in front of the marks. */
  function MarkLead(t: Text): (n: nat)
    requires t != []
    ensures n <= |t|
  {
    if t[0] == 32 && CharAt(t, 1) != 0 && IsPunctuation(CharAt(t, 1)) then 1 else 0
  }

  function MarkCount(t: Text): (n: nat)
    requires t != []
    ensures n <= |t|
  {
    var run := Run(t[MarkLead(t)..], IsPunctuation);
    if run == 0 then 0 else MarkLead(t) + run + Run(t[MarkLead(t) + run..], IsNewline)
  }

  function SpaceCount(t: Text): (n: nat)
    requires t != []
    ensures n <= |t| && (IsSpace(t[0]) ==> n > 0)
  {
    var run := Run(t, IsSpace);
    if LastBreak(t) > 0 then LastBreak(t) else if run == |t| then run else if run >= 2 then run - 1 else run
  }

  /** How many characters the first piece has. */
  function FirstCount(t: Text): (n: nat)
    requires t != []
    ensures 0 < n <= |t|
  {
    if ContractionCount(t) > 0 then ContractionCount(t)
    else if IsLetter(t[0]) || (IsPrefixable(t[0]) && IsLetter(CharAt(t, 1))) then 1 + Run(t[1..], IsLetter)
    else if IsDigit(t[0]) then 1 + Least(2, Run(t[1..], IsDigit))
    else if MarkCount(t) > 0 then MarkCount(t)
    else if IsSpace(t[0]) then SpaceCount(t)
    else 1
  }

  // ---------------------------------------------------------------------------------------------
  // The rules on bytes are those on characters
  // ---------------------------------------------------------------------------------------------

  lemma PeekEncoded(t: Text, n: nat)
    requires Encodable(t) && n <= |t|
    ensures var d := Peek(Encoded(t), Size(t, n));
      d.cp == CharAt(t, n) && (n < |t| ==> Size(t, n + 1) == Size(t, n) + d.len)
  {
    hide Size, Encoded, EncodeUtf8, DecodeUtf8;
    EncodedSplit(t, n);
    WholeSize(t);
    if n < |t| {
      FirstDecoded(t[n..]);
      SizeGrows(t, n, |t|);
      DecodeIgnoresPrefix(Encoded(t), Size(t, n));
      SizeOfNext(t, n);
    }
  }

  lemma SizeOfNext(t: Text, n: nat)
    requires Encodable(t) && n < |t|
    ensures Size(t, n + 1) == Size(t, n) + Size(t[n..], 1)
  {
    SizeGrows(t, n, n + 1);
  }

  lemma SecondEncoded(t: Text)
    requires Encodable(t) && t != []
    ensures Encoded(t) != []
    ensures DecodeUtf8(Encoded(t), 0) == Decoded(t[0], Size(t, 1))
    ensures Second(Encoded(t)).cp == CharAt(t, 1)
    ensures |t| > 1 ==> Size(t, 2) == Size(t, 1) + Second(Encoded(t)).len
    ensures CharAt(t, 1) != 0 ==> Third(Encoded(t)).cp == CharAt(t, 2)
    ensures |t| > 2 && CharAt(t, 1) != 0 ==> Size(t, 3) == Size(t, 2) + Third(Encoded(t)).len
  {
    hide DecodeUtf8, EncodeUtf8, Encoded, Peek, Size;
    FirstDecoded(t);
    PeekEncoded(t, 1);
    if CharAt(t, 1) != 0 {
      PeekEncoded(t, 2);
    }
  }

  lemma ContractionEncoded(t: Text)
    requires Encodable(t) && t != []
    ensures Encoded(t) != []
    ensures ContractionLen(Encoded(t)) == Size(t, ContractionCount(t))
  {
    hide DecodeUtf8, EncodeUtf8, Encoded, Second, Third, Size;
    SecondEncoded(t);
    SizeIsZero(t);
  }

  lemma SizeIsZero(t: Text)
    requires Encodable(t)
    ensures Size(t, 0) == 0
  {
    assert t[..0] == [];
  }

  lemma LeadEncoded(t: Text)
    requires Encodable(t) && t != []
    ensures Encoded(t) != [] && SpaceLead(Encoded(t)) == Size(t, MarkLead(t))
  {
    hide DecodeUtf8, EncodeUtf8, Encoded, Second, Third, Size, IsPunctuation;
    SecondEncoded(t);
    SizeIsZero(t);
  }

  /** A run of one class and a run of another behind it. */
  lemma RunsEncoded(t: Text, n: nat, p: nat -> bool, q: nat -> bool)
    requires Encodable(t) && n <= |t|
    ensures Size(t, n) <= |Encoded(t)|
    ensures var s := Encoded(t);
      var run, bytes := Run(t[n..], p), RunLen(s[Size(t, n)..], p);
      && (run == 0 <==> bytes == 0)
      && Size(t, n + run) == Size(t, n) + bytes
      && Size(t, n + run) <= |s|
      && Size(t, n + run + Run(t[n + run..], q)) == Size(t, n + run) + RunLen(s[Size(t, n + run)..], q)
  {
    hide Encoded, Size, Run, RunLen;
    var run := Run(t[n..], p);
    EncodedSplit(t, n);
    RunEncoded(t[n..], p);
    SizeSum(t, n, run);
    EncodedSplit(t, n + run);
    RunEncoded(t[n + run..], q);
    SizeSum(t, n + run, Run(t[n + run..], q));
    SizeIsZero(t[n..]);
    if run > 0 {
      SizeGrows(t[n..], 0, run);
    }
  }

  lemma MarksEncoded(t: Text)
    requires Encodable(t) && t != []
    ensures Encoded(t) != []
    ensures PunctuationLen(Encoded(t)) == Size(t, MarkCount(t))
  {
    hide Encoded, Size, Run, RunLen, SpaceLead, MarkLead;
    LeadEncoded(t);
    RunsEncoded(t, MarkLead(t), IsPunctuation, IsNewline);
    SizeIsZero(t);
  }

  /** Rules 2 and 3. */
  lemma WordsEncoded(t: Text)
    requires Encodable(t) && t != []
    ensures var s := Encoded(t);
      && Size(t, 1) <= |s|
      && Size(t, 1 + Run(t[1..], IsLetter)) == Size(t, 1) + RunLen(s[Size(t, 1)..], IsLetter)
      && Size(t, 1 + Least(2, Run(t[1..], IsDigit))) == Size(t, 1) + DigitRun(s[Size(t, 1)..], 2)
  {
    hide Encoded, Size, Run, RunLen, DigitRun;
    EncodedSplit(t, 1);
    RunEncoded(t[1..], IsLetter);
    SizeSum(t, 1, Run(t[1..], IsLetter));
    DigitsEncoded(t[1..], 2);
    SizeSum(t, 1, Least(2, Run(t[1..], IsDigit)));
  }

  lemma SizeSum(t: Text, m: nat, n: nat)
    requires Encodable(t) && m + n <= |t|
    ensures Size(t, m + n) == Size(t, m) + Size(t[m..], n)
  {
    SizeIsZero(t[m..]);
    if n > 0 {
      SizeGrows(t, m, m + n);
    }
  }

  /** The last of a run of white space is a single byte. */
  lemma LastIsOneByte(t: Text, run: nat)
    requires Encodable(t) && 0 < run <= |t| && IsSpace(t[run - 1])
    ensures Size(t, run) == Size(t, run - 1) + 1
  {
    SizeGrows(t, run - 1, run);
    FirstDecoded(t[run - 1..]);
    hide Size, Encoded;
  }

  lemma SpacesEncoded(t: Text)
    requires Encodable(t) && t != [] && IsSpace(t[0])
    ensures Encoded(t) != [] && IsSpace(DecodeUtf8(Encoded(t), 0).cp)
    ensures WhiteSpaceLen(Encoded(t)) == Size(t, SpaceCount(t))
  {
    FirstDecoded(t);
    RunEncoded(t, IsSpace);
    BreakEncoded(t);
    SizeIsZero(t);
    WholeSize(t);
    var run := Run(t, IsSpace);
    assert run > 0;
    hide Run, LastBreak, Size, Encoded, EncodeUtf8, DecodeUtf8, RunLen, LastNewline;
    if LastBreak(t) > 0 {
      SizeGrows(t, 0, LastBreak(t));
    } else {
      if run < |t| {
        SizeGrows(t, run, |t|);
      }
      LastIsOneByte(t, run);
      if run > 1 {
        SizeGrows(t, 0, run - 1);
      }
    }
  }

  lemma FirstPieceEncoded(t: Text)
    requires Encodable(t) && t != []
    ensures Encoded(t) != []
    ensures FirstPiece(Encoded(t)) == Size(t, FirstCount(t))
  {
    hide DecodeUtf8, EncodeUtf8, Encoded, Second, Third, Size, Run, RunLen, DigitRun;
    hide ContractionLen, PunctuationLen, WhiteSpaceLen, MarkCount, SpaceCount, ContractionCount;
    SecondEncoded(t);
    ContractionEncoded(t);
    MarksEncoded(t);
    SizeIsZero(t);
    WordsEncoded(t);
    if ContractionCount(t) > 0 {
      SizeGrows(t, 0, ContractionCount(t));
    }
    if MarkCount(t) > 0 {
      SizeGrows(t, 0, MarkCount(t));
    }
    if IsSpace(t[0]) {
      SpacesEncoded(t);
    }
  }

  // ---------------------------------------------------------------------------------------------
  // The first piece ends where the characters say
  // ---------------------------------------------------------------------------------------------

  /** In the first n characters of a text a cut comes before none but the last one's successor. */
  predicate CutIs(t: Text, n: nat, k: nat)
    requires 0 < k < |t|
  {
    k == n <==> Rule(t, k, k == 1, k == 2, k == 3)
  }

  lemma AfterContraction(t: Text, k: nat)
    requires t != [] && 0 < k <= ContractionCount(t) && k < |t|
    ensures CutIs(t, ContractionCount(t), k)
  {
  }

  lemma AfterLetters(t: Text, k: nat)
    requires t != [] && ContractionCount(t) == 0
    requires IsLetter(t[0]) || (IsPrefixable(t[0]) && IsLetter(CharAt(t, 1)))
    requires 0 < k <= 1 + Run(t[1..], IsLetter) && k < |t|
    ensures CutIs(t, 1 + Run(t[1..], IsLetter), k)
  {
    var n := 1 + Run(t[1..], IsLetter);
    assert forall i :: 0 < i < n ==> t[i] == t[1..][i - 1];
    assert t[k] == t[1..][k - 1];
    Classes(t[k]);
    Classes(t[k - 1]);
    Classes(t[0]);
    hide Run, NewlineAhead, MarkBehind;
    if k == 1 {
    } else if k < n {
      assert Letter(t[k - 1]) && Letter(t[k]);
    } else {
      assert Letter(t[k - 1]) && !Letter(t[k]);
    }
  }

  lemma AfterDigits(t: Text, k: nat)
    requires t != [] && IsDigit(t[0])
    requires 0 < k <= 1 + Least(2, Run(t[1..], IsDigit)) && k < |t|
    ensures CutIs(t, 1 + Least(2, Run(t[1..], IsDigit)), k)
  {
    var run := Run(t[1..], IsDigit);
    assert forall i :: 0 < i <= run ==> t[i] == t[1..][i - 1];
    assert t[k] == t[1..][k - 1];
    hide Run, NewlineAhead, MarkBehind;
  }

  /** An optional space, marks, newlines. */
  predicate MarksThenNewlines(t: Text, lead: nat, m: nat, n: nat) {
    && lead < m <= n <= |t|
    && (forall i :: lead <= i < m ==> Mark(t[i]))
    && (forall i :: m <= i < n ==> Newline(t[i]))
    && (n < |t| ==> !Newline(t[n]) && (n == m ==> !Mark(t[n])))
  }

  lemma RunFrom(t: Text, n: nat, p: nat -> bool)
    requires n <= |t|
    ensures var end := n + Run(t[n..], p);
      end <= |t| && (forall i :: n <= i < end ==> p(t[i])) && (end < |t| ==> !p(t[end]))
  {
    assert forall i :: n <= i < |t| ==> t[i] == t[n..][i - n];
  }

  lemma MarksShape(t: Text)
    requires t != [] && MarkCount(t) > 0
    ensures var m := MarkLead(t) + Run(t[MarkLead(t)..], IsPunctuation);
      MarksThenNewlines(t, MarkLead(t), m, MarkCount(t))
  {
    var lead := MarkLead(t);
    var m := lead + Run(t[lead..], IsPunctuation);
    RunFrom(t, lead, IsPunctuation);
    RunFrom(t, m, IsNewline);
    forall i | 0 <= i < |t| ensures (IsPunctuation(t[i]) <==> Mark(t[i])) && (IsNewline(t[i]) <==> Newline(t[i])) {
      Classes(t[i]);
    }
    hide Run, MarkLead, IsPunctuation, IsNewline, Mark, Newline;
  }

  lemma AfterMarks(t: Text, k: nat)
    requires t != [] && ContractionCount(t) == 0
    requires !IsLetter(t[0]) && !(IsPrefixable(t[0]) && IsLetter(CharAt(t, 1)))
    requires 0 < k <= MarkCount(t) && k < |t|
    ensures CutIs(t, MarkCount(t), k)
  {
    var lead := MarkLead(t);
    var m := lead + Run(t[lead..], IsPunctuation);
    MarksShape(t);
    hide Run, NewlineAhead, MarkBehind, MarkCount, ContractionCount, CutIs;
    if k >= m {
      NewlinesBehind(t, m, k);
    }
    MarksRule(t, lead, m, MarkCount(t), k);
  }

  lemma MarksRule(t: Text, lead: nat, m: nat, n: nat, k: nat)
    requires MarksThenNewlines(t, lead, m, n) && 0 < k <= n && k < |t|
    requires lead > 0 ==> lead == 1 && t[0] == ' ' as nat && t[1] != 0
    requires lead == 0 ==> !Letter(CharAt(t, 1))
    requires k >= m ==> MarkBehind(t[..k])
    ensures CutIs(t, n, k)
  {
    hide NewlineAhead, MarkBehind;
  }

  lemma {:induction false} NewlinesBehind(t: Text, m: nat, k: nat)
    requires 0 < m <= k <= |t| && Mark(t[m - 1]) && (forall i :: m <= i < k ==> Newline(t[i]))
    ensures MarkBehind(t[..k])
  {
    if m < k {
      NewlinesBehind(t, m, k - 1);
      assert t[..k][..k - 1] == t[..k - 1];
    }
  }

  lemma {:induction false} NoMarkBehind(t: Text)
    requires forall i :: 0 <= i < |t| ==> White(t[i])
    ensures !MarkBehind(t)
  {
    if t != [] {
      NoMarkBehind(t[..|t| - 1]);
    }
  }

  lemma {:induction false} AheadIff(t: Text, k: nat)
    requires k <= Run(t, IsSpace)
    ensures NewlineAhead(t[k..]) <==> k < LastBreak(t)
    decreases |t| - k
  {
    if k < Run(t, IsSpace) {
      AheadIff(t, k + 1);
      assert t[k..][1..] == t[k + 1..];
    }
  }

  lemma SpacesShape(t: Text)
    ensures var run, last := Run(t, IsSpace), LastBreak(t);
      && (forall i :: 0 <= i < run ==> White(t[i]))
      && (forall i :: last <= i < run ==> Blank(t[i]))
      && (run < |t| ==> !White(t[run]))
      && (last > 0 ==> Newline(t[last - 1]))
  {
    forall i | 0 <= i < |t| ensures (IsSpace(t[i]) <==> White(t[i])) && (IsNewline(t[i]) <==> Newline(t[i])) {
      Classes(t[i]);
    }
    hide Run, LastBreak, IsSpace, IsNewline, Newline;
  }

  /** A space alone, in front of what is neither a letter nor a mark. */
  lemma LoneSpace(t: Text)
    requires |t| > 1 && IsSpace(t[0]) && MarkCount(t) == 0 && !IsNewline(t[0])
    requires !(IsPrefixable(t[0]) && IsLetter(CharAt(t, 1)))
    ensures !Letter(t[1]) && !(t[0] == ' ' as nat && Mark(t[1]) && t[1] != 0)
  {
    Classes(t[0]);
    Classes(t[1]);
    assert t[1..][0] == t[1];
  }

  lemma AfterSpaces(t: Text, k: nat)
    requires t != [] && IsSpace(t[0]) && MarkCount(t) == 0
    requires !(IsPrefixable(t[0]) && IsLetter(CharAt(t, 1)))
    requires 0 < k <= SpaceCount(t) && k < |t|
    ensures CutIs(t, SpaceCount(t), k)
  {
    var run, last := Run(t, IsSpace), LastBreak(t);
    NoMarkBehind(t[..k]);
    AheadIff(t, k);
    SpacesShape(t);
    if |t| > 1 && !IsNewline(t[0]) {
      LoneSpace(t);
    }
    hide Run, NewlineAhead, MarkBehind, MarkCount, LastBreak, IsSpace, CutIs;
    if last > 0 {
      BreaksRule(t, last, k);
    } else {
      BlanksRule(t, run, k);
    }
  }

  /** White space up to its last newline. */
  lemma BreaksRule(t: Text, n: nat, k: nat)
    requires 0 < k <= n <= |t| && k < |t|
    requires forall i :: 0 <= i < n ==> White(t[i])
    requires Newline(t[n - 1]) && !MarkBehind(t[..k])
    requires NewlineAhead(t[k..]) <==> k < n
    ensures CutIs(t, n, k)
  {
    hide MarkBehind;
  }

  /** White space without newlines. */
  lemma BlanksRule(t: Text, run: nat, k: nat)
    requires 0 < run <= |t| && (forall i :: 0 <= i < run ==> Blank(t[i]))
    requires 0 < k <= (if run < |t| && run > 1 then run - 1 else run) && k < |t|
    requires run < |t| ==> !White(t[run])
    requires !NewlineAhead(t[k..])
    requires run == 1 < |t| ==> !Letter(t[1]) && !(t[0] == ' ' as nat && Mark(t[1]) && t[1] != 0)
    ensures CutIs(t, if run < |t| && run > 1 then run - 1 else run, k)
  {
    hide NewlineAhead, MarkBehind;
  }

  lemma FirstCut(t: Text, k: nat)
    requires t != [] && 0 < k <= FirstCount(t) && k < |t|
    ensures CutIs(t, FirstCount(t), k)
  {
    hide CutIs, SpaceCount, ContractionCount;
    if ContractionCount(t) > 0 {
      AfterContraction(t, k);
    } else if IsLetter(t[0]) || (IsPrefixable(t[0]) && IsLetter(CharAt(t, 1))) {
      AfterLetters(t, k);
    } else if IsDigit(t[0]) {
      AfterDigits(t, k);
    } else if MarkCount(t) > 0 {
      AfterMarks(t, k);
    } else {
      assert !IsPunctuation(t[0]) by {
        assert t[0..] == t;
      }
      AfterSpaces(t, k);
    }
  }

  // ---------------------------------------------------------------------------------------------
  // Every cut
  // ---------------------------------------------------------------------------------------------

  /** A piece of the text begins at character k. */
  predicate Begins(t: Text, k: nat)
    requires k < |t|
    decreases |t|
  {
    k == 0 || (FirstCount(t) <= k && Begins(t[FirstCount(t)..], k - FirstCount(t)))
  }

  predicate BeginsBefore(t: Text, k: nat, back: nat)
    requires k < |t|
  {
    k >= back && Begins(t, k - back)
  }

  lemma {:induction false} MarkBehindFrom(t: Text, n: nat, k: nat)
    requires 0 < n < k <= |t| && !(Newline(t[n]) && (Mark(t[n - 1]) || Newline(t[n - 1])))
    ensures MarkBehind(t[..k]) <==> MarkBehind(t[n..][..k - n])
  {
    var front, back := t[..k], t[n..][..k - n];
    assert front[|front| - 1] == t[k - 1] == back[|back| - 1];
    assert front[..|front| - 1] == t[..k - 1];
    if k == n + 1 {
      assert back[..|back| - 1] == [];
    } else {
      MarkBehindFrom(t, n, k - 1);
      assert back[..|back| - 1] == t[n..][..k - 1 - n];
    }
  }

  /** Newlines behind a mark or a newline are in its piece. */
  lemma NewlinesStay(t: Text)
    requires t != [] && FirstCount(t) < |t|
    ensures var n := FirstCount(t);
      !(Newline(t[n]) && (Mark(t[n - 1]) || Newline(t[n - 1])))
  {
    FirstCut(t, FirstCount(t));
    hide FirstCount;
  }

  /** Behind the first piece the rule does not look into it. */
  lemma RuleBehind(t: Text, k: nat, one: bool, two: bool, three: bool)
    requires t != []
    requires FirstCount(t) < k < |t|
    ensures var n := FirstCount(t);
      Rule(t, k, one, two && k - n >= 2, three && k - n >= 3) == Rule(t[n..], k - n, one, two, three)
  {
    hide FirstCount, NewlineAhead, MarkBehind, ShortContraction, LongContraction;
    var n := FirstCount(t);
    NewlinesStay(t);
    var rest := t[n..];
    assert forall i :: n <= i < |t| ==> t[i] == rest[i - n];
    assert t[k..] == rest[k - n..];
    MarkBehindFrom(t, n, k);
  }

  /** A contraction or three digits at the front are not cut. */
  lemma FrontIsWhole(t: Text, k: nat)
    requires t != [] && FirstCount(t) < k < |t|
    ensures k == 2 ==> !ShortContraction(t[0], t[1])
    ensures k == 3 ==> !LongContraction(t[0], t[1], t[2])
    ensures k == 3 ==> !(Digit(t[0]) && Digit(t[1]) && Digit(t[2]))
  {
    if k == 3 && Digit(t[0]) && Digit(t[1]) && Digit(t[2]) {
      assert t[1..][0] == t[1] && t[1..][1..][0] == t[2];
    }
  }

  /** What begins in the first piece is its front, too far back to matter. */
  lemma RuleAtFront(t: Text, k: nat, one: bool, two: bool, three: bool)
    requires t != [] && FirstCount(t) < k < |t|
    requires two ==> k - FirstCount(t) >= 2
    requires three ==> k - FirstCount(t) >= 3
    ensures Rule(t, k, one, two, three) == Rule(t, k, one, two || k == 2, three || k == 3)
  {
    FrontIsWhole(t, k);
    hide FirstCount, NewlineAhead, MarkBehind, ShortContraction, LongContraction;
  }

  lemma {:induction false} BeginsIsRule(t: Text, k: nat)
    requires 0 < k < |t|
    ensures Begins(t, k) <==> Rule(t, k, BeginsBefore(t, k, 1), BeginsBefore(t, k, 2), BeginsBefore(t, k, 3))
    decreases |t|
  {
    hide FirstCount, Rule;
    var n := FirstCount(t);
    if k <= n {
      FirstCut(t, k);
    } else {
      var rest := t[n..];
      BeginsIsRule(rest, k - n);
      var one, two, three := BeginsBefore(rest, k - n, 1), BeginsBefore(rest, k - n, 2), BeginsBefore(rest, k - n, 3);
      RuleBehind(t, k, one, two, three);
      RuleAtFront(t, k, one, two, three);
    }
  }

  lemma {:induction false} BeginsIff(t: Text, k: nat)
    requires k < |t|
    ensures CutBefore(t, k) <==> Begins(t, k)
    decreases k
  {
    hide Rule;
    if k > 0 {
      BeginsIsRule(t, k);
      BeginsIff(t, k - 1);
      if k > 1 {
        BeginsIff(t, k - 2);
      }
      if k > 2 {
        BeginsIff(t, k - 3);
      }
    }
  }

  lemma CutStep(s: Bytes, p: nat)
    requires s != []
    ensures var n := FirstPiece(s);
      IsCut(Pieces(s), p) <==> n < |s| && (p == n || (p > n && IsCut(Pieces(s[n..]), p - n)))
  {
    hide FirstPiece;
    var n := FirstPiece(s);
    assert Pieces(s)[1..] == Pieces(s[n..]);
    if n < |s| {
      assert s[n..] != [];
      assert |Pieces(s[n..])| > 0;
    }
  }

  lemma {:induction false} PiecesBegin(t: Text, k: nat)
    requires Encodable(t) && 0 < k < |t|
    ensures IsCut(Pieces(Encoded(t)), Size(t, k)) <==> Begins(t, k)
    decreases |t|
  {
    hide FirstCount, FirstPiece, Encoded, Size, Pieces, IsCut;
    var n := FirstCount(t);
    FirstPieceEncoded(t);
    EncodedSplit(t, n);
    CutStep(Encoded(t), Size(t, k));
    WholeSize(t);
    if n < |t| {
      SizeGrows(t, n, |t|);
    }
    if k < n {
      SizeGrows(t, k, n);
    } else if n < k {
      SizeGrows(t, n, k);
      PiecesBegin(t[n..], k - n);
    }
  }

  lemma WholeSize(t: Text)
    requires Encodable(t)
    ensures Size(t, |t|) == |Encoded(t)|
  {
    assert t[..|t|] == t;
  }

  /**
   * In the bytes of every text the pieces are cut where the characters say. A backward reading of
   * the characters around each place decides what the rules decide reading forward.
   */
  lemma CutIff(t: Text, k: nat)
    requires Encodable(t) && 0 < k < |t|
    ensures IsCut(Pieces(Encoded(t)), Size(t, k)) <==> CutBefore(t, k)
  {
    PiecesBegin(t, k);
    BeginsIff(t, k);
  }

  /** No character is cut in two. */
  lemma {:induction false} CutsAreBetweenCharacters(t: Text, p: nat)
    requires Encodable(t) && IsCut(Pieces(Encoded(t)), p)
    ensures exists k :: 0 < k < |t| && p == Size(t, k)
    decreases |t|
  {
    NothingEncoded();
    hide FirstCount, FirstPiece, Encoded, Size, Pieces, IsCut;
    if t != [] {
      var n := FirstCount(t);
      FirstPieceEncoded(t);
      EncodedSplit(t, n);
      CutStep(Encoded(t), p);
      WholeSize(t);
      if p > Size(t, n) {
        CutsAreBetweenCharacters(t[n..], p - Size(t, n));
        var k :| 0 < k < |t[n..]| && p - Size(t, n) == Size(t[n..], k);
        SizeGrows(t, n, n + k);
      }
    }
  }

  lemma NothingEncoded()
    ensures !IsCut(Pieces(Encoded([])), 0) && (forall p :: !IsCut(Pieces(Encoded([])), p))
  {
    var none: Bytes := [];
    assert Pieces(none) == [];
  }

  /** Letters are only cut behind a contraction, and one space is never cut from the letter behind it. */
  lemma WordsStayWhole(t: Text, k: nat)
    requires Encodable(t) && 0 < k < |t|
    requires IsCut(Pieces(Encoded(t)), Size(t, k)) && Letter(t[k])
    ensures t[k - 1] != ' ' as nat
    ensures Letter(t[k - 1]) ==>
      || (k >= 2 && ShortContraction(t[k - 2], t[k - 1]))
      || (k >= 3 && LongContraction(t[k - 3], t[k - 2], t[k - 1]))
  {
    hide *;
    PiecesBegin(t, k);
    BeginsIsRule(t, k);
    RuleOfLetters(t, k, BeginsBefore(t, k, 1), BeginsBefore(t, k, 2), BeginsBefore(t, k, 3));
  }

  lemma RuleOfLetters(t: Text, k: nat, one: bool, two: bool, three: bool)
    requires 0 < k < |t| && Letter(t[k]) && Rule(t, k, one, two, three)
    ensures t[k - 1] != ' ' as nat
    ensures Letter(t[k - 1]) ==>
      || (k >= 2 && ShortContraction(t[k - 2], t[k - 1]))
      || (k >= 3 && LongContraction(t[k - 3], t[k - 2], t[k - 1]))
  {
    hide NewlineAhead, MarkBehind, ShortContraction, LongContraction;
  }

  /** A cut between digits stands behind exactly three of them that are a piece. */
  lemma DigitsAreCutInThrees(t: Text, k: nat)
    requires Encodable(t) && 0 < k < |t| && Digit(t[k - 1]) && Digit(t[k])
    ensures IsCut(Pieces(Encoded(t)), Size(t, k)) <==>
      && k >= 3 && Digit(t[k - 3]) && Digit(t[k - 2])
      && (k == 3 || IsCut(Pieces(Encoded(t)), Size(t, k - 3)))
  {
    CutIff(t, k);
    if k > 3 {
      CutIff(t, k - 3);
    }
    hide IsCut, Pieces, Size, Encoded;
  }

  predicate DigitByte(b: U8) {
    '0' as nat <= b <= '9' as nat
  }

  /** A piece that begins with a digit is one to three digits. */
  lemma {:induction false} DigitPieces(t: Text, i: nat)
    requires Encodable(t)
    requires i < |Pieces(Encoded(t))| && Pieces(Encoded(t))[i] != [] && DigitByte(Pieces(Encoded(t))[i][0])
    ensures var piece := Pieces(Encoded(t))[i];
      |piece| <= 3 && forall j :: 0 <= j < |piece| ==> DigitByte(piece[j])
    decreases |t|
  {
    if t != [] {
      FirstPieceEncoded(t);
      EncodedSplit(t, FirstCount(t));
      if i > 0 {
        DigitPieces(t[FirstCount(t)..], i - 1);
      } else {
        DigitsFirst(t);
      }
    }
  }

  lemma DigitsFirst(t: Text)
    requires Encodable(t) && t != [] && Encoded(t) != [] && DigitByte(Encoded(t)[0])
    ensures Size(t, FirstCount(t)) <= 3
    ensures forall j :: 0 <= j < Size(t, FirstCount(t)) && j < |Encoded(t)| ==> DigitByte(Encoded(t)[j])
  {
    assert Encoded(t)[0] == EncodeUtf8(t[0])[0];
    assert Digit(t[0]);
    var n := FirstCount(t);
    assert n <= 3 && forall i :: 0 <= i < n ==> Digit(t[i]);
    EncodedSplit(t, n);
    AsciiEncoded(t[..n]);
  }

  lemma {:induction false} AsciiEncoded(t: Text)
    requires forall i :: 0 <= i < |t| ==> t[i] < 0x80
    ensures Encodable(t) && Encoded(t) == t
  {
    if t != [] {
      AsciiEncoded(t[1..]);
    }
  }
}
