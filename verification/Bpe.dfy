/** Byte-pair merging: sweeping over all occurrences of the best pair, against merging one at a time. */
module Bpe {
  import opened ModelTypes
  import opened Utf8

  type Symbols = seq<Bytes>

  /** Ranks of the merges, each written as its two symbols with one space between them. */
  type Ranks = map<Bytes, nat>

  predicate NoSpace(s: Bytes) {
    forall i :: 0 <= i < |s| ==> s[i] != 32
  }

  function Key(l: Bytes, r: Bytes): Bytes {
    l + [32] + r
  }

  /** Where the first space of s is; |s| when it has none. */
  function FirstSpace(s: Bytes): (k: nat)
    ensures k <= |s| && NoSpace(s[..k]) && (k < |s| ==> s[k] == 32)
  {
    if s == [] || s[0] == 32 then 0 else 1 + FirstSpace(s[1..])
  }

  lemma {:induction false} FirstSpaceOfKey(l: Bytes, r: Bytes)
    requires NoSpace(l)
    ensures FirstSpace(Key(l, r)) == |l|
  {
    if l != [] {
      assert Key(l, r)[1..] == Key(l[1..], r);
      FirstSpaceOfKey(l[1..], r);
    }
  }

  /** A key names its two symbols. */
  lemma KeyInjective(l: Bytes, r: Bytes, l': Bytes, r': Bytes)
    requires NoSpace(l) && NoSpace(l') && Key(l, r) == Key(l', r')
    ensures l == l' && r == r'
  {
    FirstSpaceOfKey(l, r);
    FirstSpaceOfKey(l', r');
    assert l == Key(l, r)[..|l|] && l' == Key(l', r')[..|l'|];
    assert r == Key(l, r)[|l| + 1..] && r' == Key(l', r')[|l'| + 1..];
  }

  /** The pair that starts at index k. */
  function PairKey(s: Symbols, k: nat): Bytes
    requires k + 1 < |s|
  {
    Key(s[k], s[k + 1])
  }

  predicate Mergeable(m: Ranks, s: Symbols, k: nat) {
    k + 1 < |s| && PairKey(s, k) in m
  }

  /** Different merges have different ranks. */
  ghost predicate Injective(m: Ranks) {
    forall a, b {:trigger m[a], m[b]} :: a in m && b in m && m[a] == m[b] ==> a == b
  }

  predicate Spaceless(s: Symbols) {
    forall x :: x in s ==> NoSpace(x)
  }

  // ---------------------------------------------------------------------------------------------
  // The best pair
  // ---------------------------------------------------------------------------------------------

  /** Pair k beats pair j: lower rank, or as low and further left. */
  predicate Beats(m: Ranks, s: Symbols, k: nat, j: nat)
    requires Mergeable(m, s, k)
  {
    Mergeable(m, s, j) ==> m[PairKey(s, k)] < m[PairKey(s, j)] || (m[PairKey(s, k)] == m[PairKey(s, j)] && k <= j)
  }

  /** The leftmost of the lowest-rank pairs that start before n. */
  function BestBefore(m: Ranks, s: Symbols, n: nat): (best: Option<nat>)
    requires n == 0 || n < |s|
    ensures best.None? <==> forall j: nat :: j < n ==> !Mergeable(m, s, j)
    ensures best.Some? ==> best.value < n && Mergeable(m, s, best.value)
    ensures best.Some? ==> forall j: nat :: j < n ==> Beats(m, s, best.value, j)
  {
    if n == 0 then None
    else
      var best, k := BestBefore(m, s, n - 1), n - 1;
      if Mergeable(m, s, k) && (best.None? || m[PairKey(s, k)] < m[PairKey(s, best.value)]) then
        assert forall j: nat :: j < n ==> Beats(m, s, k, j) by {
          forall j: nat | j < n ensures Beats(m, s, k, j) {
            assert best.Some? && j < k ==> Beats(m, s, best.value, j);
          }
        }
        Some(k)
      else best
  }

  function Best(m: Ranks, s: Symbols): (best: Option<nat>)
    ensures best.None? <==> forall j: nat :: !Mergeable(m, s, j)
    ensures best.Some? ==> Mergeable(m, s, best.value)
    ensures best.Some? ==> forall j: nat :: Beats(m, s, best.value, j)
  {
    if |s| <= 1 then None else BestBefore(m, s, |s| - 1)
  }

  /** There is only one best pair. */
  lemma BestIs(m: Ranks, s: Symbols, k: nat)
    requires Mergeable(m, s, k) && forall j: nat :: Beats(m, s, k, j)
    ensures Best(m, s) == Some(k)
  {
    assert Beats(m, s, k, Best(m, s).value);
    assert Beats(m, s, Best(m, s).value, k);
  }

  // ---------------------------------------------------------------------------------------------
  // The two algorithms
  // ---------------------------------------------------------------------------------------------

  /** Every occurrence of the pair, left to right. */
  function MergeAll(s: Symbols, l: Bytes, r: Bytes): (t: Symbols)
    ensures |t| <= |s|
    decreases |s|
  {
    if s == [] then []
    else if |s| > 1 && s[0] == l && s[1] == r then [l + r] + MergeAll(s[2..], l, r)
    else [s[0]] + MergeAll(s[1..], l, r)
  }

  /** One step of a sweep, at index i of the whole list. */
  lemma MergeAllStep(s: Symbols, l: Bytes, r: Bytes, i: nat)
    requires i <= |s|
    ensures MergeAll(s[i..], l, r) ==
      if i == |s| then []
      else if i + 1 < |s| && s[i] == l && s[i + 1] == r then [l + r] + MergeAll(s[i + 2..], l, r)
      else [s[i]] + MergeAll(s[i + 1..], l, r)
  {
    if i < |s| {
      assert s[i..][1..] == s[i + 1..];
      if i + 1 < |s| {
        assert s[i..][2..] == s[i + 2..];
      }
    }
  }

  /** The one occurrence at index k. */
  function MergeAt(s: Symbols, k: nat): Symbols
    requires k + 1 < |s|
  {
    s[..k] + [s[k] + s[k + 1]] + s[k + 2..]
  }

  lemma {:induction false} MergeAllShrinks(s: Symbols, k: nat)
    requires k + 1 < |s|
    ensures |MergeAll(s, s[k], s[k + 1])| < |s|
  {
    MergeAllShrinksAt(s, s[k], s[k + 1], k);
  }

  lemma {:induction false} MergeAllShrinksAt(s: Symbols, l: Bytes, r: Bytes, k: nat)
    requires k + 1 < |s| && s[k] == l && s[k + 1] == r
    ensures |MergeAll(s, l, r)| < |s|
    decreases |s|
  {
    if !(s[0] == l && s[1] == r) {
      MergeAllShrinksAt(s[1..], l, r, k - 1);
    }
  }

  /** What the tokenizer does. */
  function BpeAll(m: Ranks, s: Symbols): Symbols
    decreases |s|
  {
    var best := Best(m, s);
    if best.None? then s
    else
      var k := best.value;
      MergeAllShrinks(s, k);
      BpeAll(m, MergeAll(s, s[k], s[k + 1]))
  }

  /** Byte-pair encoding as it is defined: one merge, then look again. */
  function BpeOne(m: Ranks, s: Symbols): Symbols
    decreases |s|
  {
    var best := Best(m, s);
    if best.None? then s else BpeOne(m, MergeAt(s, best.value))
  }

  // ---------------------------------------------------------------------------------------------
  // What merging keeps
  // ---------------------------------------------------------------------------------------------

  lemma {:induction false} MergeAllJoined(s: Symbols, l: Bytes, r: Bytes)
    ensures Joined(MergeAll(s, l, r)) == Joined(s)
    decreases |s|
  {
    if s == [] {
    } else if |s| > 1 && s[0] == l && s[1] == r {
      MergeAllJoined(s[2..], l, r);
      assert s[1..][1..] == s[2..];
    } else {
      MergeAllJoined(s[1..], l, r);
    }
  }

  /** A symbol after a sweep is an old one or the merged one. */
  lemma {:induction false} MergeAllSymbols(s: Symbols, l: Bytes, r: Bytes)
    ensures forall x :: x in MergeAll(s, l, r) ==> x in s || x == l + r
    decreases |s|
  {
    if s == [] {
    } else if |s| > 1 && s[0] == l && s[1] == r {
      MergeAllSymbols(s[2..], l, r);
    } else {
      MergeAllSymbols(s[1..], l, r);
    }
  }

  /** Merging only regroups: the symbols still spell the same text. */
  lemma {:induction false} BpeKeepsText(m: Ranks, s: Symbols)
    ensures Joined(BpeAll(m, s)) == Joined(s)
    decreases |s|
  {
    var best := Best(m, s);
    if best.Some? {
      var k := best.value;
      MergeAllShrinks(s, k);
      MergeAllJoined(s, s[k], s[k + 1]);
      BpeKeepsText(m, MergeAll(s, s[k], s[k + 1]));
    }
  }

  /** When merging stops, no two neighbours are a merge. */
  lemma {:induction false} BpeIsFinished(m: Ranks, s: Symbols, k: nat)
    ensures !Mergeable(m, BpeAll(m, s), k)
    decreases |s|
  {
    var best := Best(m, s);
    if best.Some? {
      MergeAllShrinks(s, best.value);
      BpeIsFinished(m, MergeAll(s, s[best.value], s[best.value + 1]), k);
    }
  }

  /** Every symbol merging ends with was there before, or is the result of a merge in the table. */
  lemma {:induction false} BpeSymbols(m: Ranks, s: Symbols, x: Bytes)
    requires x in BpeAll(m, s)
    ensures x in s || exists l, r :: Key(l, r) in m && x == l + r
    decreases |s|
  {
    var best := Best(m, s);
    if best.Some? {
      var k := best.value;
      MergeAllShrinks(s, k);
      MergeAllSymbols(s, s[k], s[k + 1]);
      BpeSymbols(m, MergeAll(s, s[k], s[k + 1]), x);
    }
  }

  // ---------------------------------------------------------------------------------------------
  // The sweep refines the definition
  // ---------------------------------------------------------------------------------------------

  /** A merge that uses l + r ranks after the merge of l and r. */
  predicate RanksAfter(m: Ranks, l: Bytes, r: Bytes, x: Bytes) {
    Key(l, r) in m ==>
      && (Key(x, l + r) in m ==> m[Key(l, r)] < m[Key(x, l + r)])
      && (Key(l + r, x) in m ==> m[Key(l, r)] < m[Key(l + r, x)])
  }

  ghost predicate Stratified(m: Ranks) {
    forall l, r, x :: NoSpace(l) && NoSpace(r) && NoSpace(x) ==> RanksAfter(m, l, r, x)
  }

  /** No pair of s ranks before the pair (l, r). */
  ghost predicate Lowest(m: Ranks, s: Symbols, l: Bytes, r: Bytes)
    requires Key(l, r) in m
  {
    forall j: nat :: Mergeable(m, s, j) ==> m[Key(l, r)] <= m[PairKey(s, j)]
  }

  /** The pair (l, r) does not start before n. */
  ghost predicate Absent(s: Symbols, l: Bytes, r: Bytes, n: nat) {
    forall j: nat {:trigger PairKey(s, j)} :: j < n && j + 1 < |s| ==> PairKey(s, j) != Key(l, r)
  }

  /** The first occurrence of a pair of the lowest rank is the best pair. */
  lemma FirstIsBest(m: Ranks, s: Symbols, k: nat)
    requires Injective(m) && Mergeable(m, s, k)
    requires Lowest(m, s, s[k], s[k + 1]) && Absent(s, s[k], s[k + 1], k)
    ensures Best(m, s) == Some(k)
  {
    forall j: nat ensures Beats(m, s, k, j) {
      if Mergeable(m, s, j) && j < k {
        assert PairKey(s, j) != PairKey(s, k);
        assert m[PairKey(s, j)] != m[PairKey(s, k)];
      }
    }
    BestIs(m, s, k);
  }

  /** Merging one first occurrence leaves the pair lowest, and still absent so far. */
  lemma MergeAtKeeps(m: Ranks, s: Symbols, k: nat, l: Bytes, r: Bytes)
    requires Stratified(m) && Spaceless(s) && Mergeable(m, s, k) && s[k] == l && s[k + 1] == r
    requires Lowest(m, s, l, r) && Absent(s, l, r, k)
    ensures Spaceless(MergeAt(s, k)) && Lowest(m, MergeAt(s, k), l, r) && Absent(MergeAt(s, k), l, r, k + 1)
  {
    var t := MergeAt(s, k);
    assert NoSpace(l) && NoSpace(r) && NoSpace(l + r);
    forall x | x in t ensures NoSpace(x) {
      if x != l + r {
        assert x in s;
      }
    }
    forall j: nat | j + 1 < |t|
      ensures PairKey(t, j) in m ==> m[Key(l, r)] <= m[PairKey(t, j)]
      ensures j <= k ==> PairKey(t, j) != Key(l, r)
    {
      assert t[j] in t && t[j + 1] in t;
      if j + 1 < k {
        assert PairKey(t, j) == PairKey(s, j);
      } else if j + 1 == k {
        assert RanksAfter(m, l, r, t[j]);
      } else if j == k {
        assert RanksAfter(m, l, r, t[j + 1]);
      } else {
        assert PairKey(t, j) == PairKey(s, j + 1);
        assert Mergeable(m, s, j + 1) <==> PairKey(t, j) in m;
      }
    }
  }

  /** A pair that is not an occurrence of (l, r) extends the part it is absent from. */
  lemma AbsentExtends(s: Symbols, l: Bytes, r: Bytes, k: nat)
    requires Spaceless(s) && NoSpace(l) && k < |s| && Absent(s, l, r, k)
    requires k + 1 < |s| ==> !(s[k] == l && s[k + 1] == r)
    ensures Absent(s, l, r, k + 1)
  {
    if k + 1 < |s| && PairKey(s, k) == Key(l, r) {
      assert s[k] in s;
      KeyInjective(s[k], s[k + 1], l, r);
    }
  }

  /** Midway through a sweep: (l, r) is a lowest pair, and none is left in the part done. */
  ghost predicate Sweeping(m: Ranks, done: Symbols, rest: Symbols, l: Bytes, r: Bytes) {
    && Spaceless(done + rest) && NoSpace(l) && Key(l, r) in m
    && Lowest(m, done + rest, l, r) && Absent(done + rest, l, r, |done|)
  }

  /** An occurrence at the front of the rest is the single merge that comes next. */
  lemma SweepMerges(m: Ranks, done: Symbols, rest: Symbols, l: Bytes, r: Bytes)
    requires Injective(m) && Stratified(m) && Sweeping(m, done, rest, l, r)
    requires |rest| > 1 && rest[0] == l && rest[1] == r
    ensures Sweeping(m, done + [l + r], rest[2..], l, r)
    ensures BpeOne(m, done + rest) == BpeOne(m, (done + [l + r]) + rest[2..])
  {
    hide Injective, Stratified, Spaceless, NoSpace, Lowest, Absent;
    var s, k := done + rest, |done|;
    FirstIsBest(m, s, k);
    MergeAtKeeps(m, s, k, l, r);
    assert MergeAt(s, k) == (done + [l + r]) + rest[2..];
  }

  lemma SweepPasses(m: Ranks, done: Symbols, rest: Symbols, l: Bytes, r: Bytes)
    requires Sweeping(m, done, rest, l, r)
    requires rest != [] && !(|rest| > 1 && rest[0] == l && rest[1] == r)
    ensures Sweeping(m, done + [rest[0]], rest[1..], l, r)
    ensures done + rest == (done + [rest[0]]) + rest[1..]
  {
    hide Spaceless, NoSpace, Lowest, Absent;
    AbsentExtends(done + rest, l, r, |done|);
    assert done + rest == (done + [rest[0]]) + rest[1..];
  }

  /** From the left part done so far, one sweep over the rest is what single merges come to. */
  lemma {:induction false} SweepIsSingleMerges(m: Ranks, done: Symbols, rest: Symbols, l: Bytes, r: Bytes)
    requires Injective(m) && Stratified(m) && Sweeping(m, done, rest, l, r)
    ensures BpeOne(m, done + rest) == BpeOne(m, done + MergeAll(rest, l, r))
    decreases |rest|
  {
    hide Injective, Stratified, Sweeping, BpeOne;
    if rest == [] {
    } else if |rest| > 1 && rest[0] == l && rest[1] == r {
      SweepMerges(m, done, rest, l, r);
      SweepIsSingleMerges(m, done + [l + r], rest[2..], l, r);
      assert done + MergeAll(rest, l, r) == (done + [l + r]) + MergeAll(rest[2..], l, r);
    } else {
      SweepPasses(m, done, rest, l, r);
      SweepIsSingleMerges(m, done + [rest[0]], rest[1..], l, r);
      assert done + MergeAll(rest, l, r) == (done + [rest[0]]) + MergeAll(rest[1..], l, r);
    }
  }

  /** A sweep starts with nothing done. */
  lemma SweepStarts(m: Ranks, s: Symbols, k: nat)
    requires Injective(m) && Stratified(m) && Spaceless(s) && Best(m, s) == Some(k)
    ensures BpeOne(m, s) == BpeOne(m, MergeAll(s, s[k], s[k + 1]))
  {
    hide Injective, Stratified, BpeOne;
    var l, r := s[k], s[k + 1];
    assert forall j: nat :: Mergeable(m, s, j) ==> Beats(m, s, k, j);
    assert [] + s == s && [] + MergeAll(s, l, r) == MergeAll(s, l, r);
    assert s[k] in s;
    SweepIsSingleMerges(m, [], s, l, r);
  }

  lemma MergeAllSpaceless(s: Symbols, l: Bytes, r: Bytes)
    requires Spaceless(s) && NoSpace(l) && NoSpace(r)
    ensures Spaceless(MergeAll(s, l, r))
  {
    MergeAllSymbols(s, l, r);
  }

  /** Sweeping over all occurrences of the best pair ends with the same symbols as merging one at a time. */
  lemma {:induction false} SweepRefinesSingle(m: Ranks, s: Symbols)
    requires Injective(m) && Stratified(m) && Spaceless(s)
    ensures BpeAll(m, s) == BpeOne(m, s)
    decreases |s|
  {
    var best := Best(m, s);
    if best.Some? {
      var k := best.value;
      SweepStarts(m, s, k);
      MergeAllShrinks(s, k);
      assert s[k] in s && s[k + 1] in s;
      MergeAllSpaceless(s, s[k], s[k + 1]);
      SweepRefinesSingle(m, MergeAll(s, s[k], s[k + 1]));
    }
  }

  const A: Bytes := [97]
  const B: Bytes := [98]

  /** "ab" merges with "a" before "a" merges with "b". */
  function Unstratified(): Ranks {
    map[Key(A, B) := 1, Key(A + B, A) := 0]
  }

  /** Keys over a and b, spelled out. */
  lemma Spelled()
    ensures Key(A, B) == [97, 32, 98] && Key(B, A) == [98, 32, 97] && Key(A + B, A) == [97, 98, 32, 97]
    ensures Key(A + B, A + B) == [97, 98, 32, 97, 98] && Key(A + B + A, B) == [97, 98, 97, 32, 98]
  {
  }

  /** On "abab" the sweep makes "ab" twice and is done. */
  lemma SweepOnAbab()
    ensures BpeAll(Unstratified(), [A, B, A, B]) == [A + B, A + B]
  {
    var m, s, all := Unstratified(), [A, B, A, B], [A + B, A + B];
    Spelled();
    assert PairKey(s, 0) == Key(A, B) && PairKey(s, 1) == Key(B, A) && PairKey(s, 2) == Key(A, B);
    BestIs(m, s, 0);
    assert MergeAll(s[2..], A, B) == [A + B] && MergeAll(s, A, B) == all;
    assert PairKey(all, 0) == Key(A + B, A + B);
    assert Best(m, all).None?;
  }

  /** After a single "ab" the merge with the following "a" ranks first. */
  lemma SingleOnAbab()
    ensures BpeOne(Unstratified(), [A, B, A, B]) == [A + B + A, B]
  {
    var m, s, one, last := Unstratified(), [A, B, A, B], [A + B, A, B], [A + B + A, B];
    Spelled();
    assert PairKey(s, 0) == Key(A, B) && PairKey(s, 1) == Key(B, A) && PairKey(s, 2) == Key(A, B);
    BestIs(m, s, 0);
    assert MergeAt(s, 0) == one;
    assert PairKey(one, 0) == Key(A + B, A) && PairKey(one, 1) == Key(A, B);
    BestIs(m, one, 0);
    assert MergeAt(one, 0) == last;
    assert PairKey(last, 0) == Key(A + B + A, B);
    assert Best(m, last).None?;
    assert BpeOne(m, last) == last;
    assert BpeOne(m, one) == last;
  }

  /** Without the order of ranks the two algorithms differ. */
  lemma SweepDiffersUnstratified()
    ensures !Stratified(Unstratified())
    ensures BpeAll(Unstratified(), [A, B, A, B]) != BpeOne(Unstratified(), [A, B, A, B])
  {
    SweepOnAbab();
    SingleOnAbab();
    Spelled();
    assert NoSpace(A) && NoSpace(B) && !RanksAfter(Unstratified(), A, B, A);
    assert [A + B, A + B][1] != [A + B + A, B][1];
  }
}
