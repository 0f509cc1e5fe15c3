/** Fixed-width little-endian integers in a byte sequence. */
module LittleEndian {
  import opened Utf8

  /** The number a window of bytes spells, lowest byte first. */
  function Number(s: Bytes): (n: nat)
    ensures n < Power(|s|)
  {
    if s == [] then 0 else s[0] + 256 * Number(s[1..])
  }

  /** 256 to the k. */
  function Power(k: nat): (p: nat)
    ensures p > 0
  {
    if k == 0 then 1 else 256 * Power(k - 1)
  }

  function Spell(n: nat, k: nat): (s: Bytes)
    ensures |s| == k
  {
    if k == 0 then [] else [n % 256] + Spell(n / 256, k - 1)
  }

  lemma {:induction false} NumberOfSpelled(n: nat, k: nat)
    requires n < Power(k)
    ensures Number(Spell(n, k)) == n
  {
    if k > 0 {
      NumberOfSpelled(n / 256, k - 1);
      assert Spell(n, k)[1..] == Spell(n / 256, k - 1);
    }
  }

  lemma Powers()
    ensures Power(1) == 0x100 && Power(2) == 0x1_0000
    ensures Power(4) == 0x1_0000_0000 && Power(8) == 0x1_0000_0000_0000_0000
  {
    assert Power(3) == 256 * Power(2) && Power(4) == 256 * Power(3);
    assert Power(5) == 256 * Power(4) && Power(6) == 256 * Power(5) && Power(7) == 256 * Power(6);
  }

  /** Two's complement on k bytes. */
  function Signed(n: nat, k: nat): int
    requires n < Power(k)
  {
    if 2 * n < Power(k) then n else n - Power(k)
  }

  predicate InRange(i: int, k: nat) {
    0 <= 2 * i + Power(k) && 2 * i < Power(k)
  }

  function Unsigned(i: int, k: nat): (n: nat)
    requires InRange(i, k)
    ensures n < Power(k)
  {
    if i < 0 then i + Power(k) else i
  }

  lemma SignedUnsigned(i: int, k: nat)
    requires InRange(i, k)
    ensures Signed(Unsigned(i, k), k) == i
  {
  }

  // ---------------------------------------------------------------------------------------------
  // Windows
  // ---------------------------------------------------------------------------------------------

  /** The file holds these bytes at a position. */
  predicate At(file: Bytes, pos: nat, bytes: Bytes) {
    pos + |bytes| <= |file| && file[pos..pos + |bytes|] == bytes
  }

  lemma AtSplit(file: Bytes, pos: nat, a: Bytes, b: Bytes)
    requires At(file, pos, a + b)
    ensures At(file, pos, a) && At(file, pos + |a|, b)
  {
    var s := file[pos..pos + |a + b|];
    assert file[pos..pos + |a|] == s[..|a|];
    assert file[pos + |a|..pos + |a| + |b|] == s[|a|..];
  }
}
