/** Identifiers as numbers: the canonical ones are the texts of the 128-bit ULIDs. */
module Ulids {
  import opened Text

  const U128: nat := 0x1_0000_0000_0000_0000_0000_0000_0000_0000

  /** The alphabet: the digits, then the capitals without I, L, O and U. */
  function Letter(k: nat): char
    requires k < 32
  {
    if k < 10 then '0' + k as char
    else if k < 18 then 'A' + (k - 10) as char
    else if k < 20 then 'J' + (k - 18) as char
    else if k < 22 then 'M' + (k - 20) as char
    else if k < 27 then 'P' + (k - 22) as char
    else 'V' + (k - 27) as char
  }

  /** The `width` low digits of `n` in base 32. */
  function Base32(n: nat, width: nat): (s: string)
    ensures |s| == width
    decreases width
  {
    if width == 0 then "" else Base32(n / 32, width - 1) + [Letter(n % 32)]
  }

  /** The place of a letter in the alphabet. */
  function Rank(c: char): (r: int)
    requires UlidLetter(c)
    ensures 0 <= r < 32 && Letter(r) == c
  {
    if c <= '9' then c as int - '0' as int
    else if c <= 'H' then c as int - 'A' as int + 10
    else if c <= 'K' then c as int - 'J' as int + 18
    else if c <= 'N' then c as int - 'M' as int + 20
    else if c <= 'T' then c as int - 'P' as int + 22
    else c as int - 'V' as int + 27
  }

  lemma RankOfLetter(k: int)
    requires 0 <= k < 32
    ensures UlidLetter(Letter(k)) && Rank(Letter(k)) == k
  {
  }

  predicate Letters(s: string) { forall i | 0 <= i < |s| :: UlidLetter(s[i]) }

  function Number(s: string): nat
    requires Letters(s)
  {
    if s == "" then 0 else 32 * Number(s[..|s| - 1]) + Rank(s[|s| - 1])
  }

  function Pow32(k: nat): nat { if k == 0 then 1 else 32 * Pow32(k - 1) }

  lemma Pow32Of25()
    ensures 8 * Pow32(25) == U128
  {
    assert Pow32(5) == 32 * 32 * 32 * 32 * 32;
    assert Pow32(10) == Pow32(5) * 0x200_0000 == 0x4_0000_0000_0000;
    assert Pow32(15) == Pow32(10) * 0x200_0000;
    assert Pow32(20) == Pow32(15) * 0x200_0000;
    assert Pow32(25) == Pow32(20) * 0x200_0000;
  }

  lemma {:induction false} NumberBound(s: string)
    requires Letters(s)
    ensures Number(s) < Pow32(|s|)
    decreases |s|
  {
    if s != "" {
      NumberBound(s[..|s| - 1]);
    }
  }

  lemma ShiftDigit(r: int, p: int, m: int, d: int)
    ensures 32 * (r * p + m) + d == r * (32 * p) + (32 * m + d)
  {
  }

  lemma {:induction false} NumberFirst(s: string)
    requires Letters(s) && s != ""
    ensures Number(s) == Rank(s[0]) * Pow32(|s| - 1) + Number(s[1..])
    decreases |s|
  {
    if |s| == 1 {
      assert s[..0] == "";
    } else {
      var front := s[..|s| - 1];
      NumberFirst(front);
      assert front[1..] == s[1..][..|s| - 2];
      ShiftDigit(Rank(s[0]), Pow32(|s| - 2), Number(front[1..]), Rank(s[|s| - 1]));
    }
  }

  lemma {:induction false} NumberZero(s: string)
    requires Letters(s)
    ensures Number(s) == 0 <==> forall i | 0 <= i < |s| :: s[i] == '0'
    decreases |s|
  {
    if s != "" {
      NumberZero(s[..|s| - 1]);
      assert Rank(s[|s| - 1]) == 0 <==> s[|s| - 1] == '0';
    }
  }

  /** Reading a text and writing its number gives the text back. */
  lemma {:induction false} WriteNumber(s: string)
    requires Letters(s)
    ensures Base32(Number(s), |s|) == s
    decreases |s|
  {
    if s != "" {
      WriteNumber(s[..|s| - 1]);
      assert Number(s) / 32 == Number(s[..|s| - 1]) && Number(s) % 32 == Rank(s[|s| - 1]);
    }
  }

  /** Writing a number that fits and reading it gives the number back. */
  lemma {:induction false} ReadNumber(n: nat, width: nat)
    requires n < Pow32(width)
    ensures Letters(Base32(n, width)) && Number(Base32(n, width)) == n
    decreases width
  {
    if width > 0 {
      ReadNumber(n / 32, width - 1);
      RankOfLetter(n % 32);
      var s := Base32(n, width);
      assert s[..width - 1] == Base32(n / 32, width - 1);
    }
  }

  lemma UlidNumber(s: string)
    requires Letters(s) && |s| == 26
    ensures Ulid(s) <==> Number(s) < U128
  {
    Pow32Of25();
    NumberFirst(s);
    NumberBound(s[1..]);
    TopDigit(Rank(s[0]), Pow32(25), Number(s[1..]));
  }

  lemma TopDigit(r: int, p: int, rest: int)
    requires 0 <= rest < p
    ensures r * p + rest < 8 * p <==> r < 8
  {
    if r < 8 {
      assert r * p <= 7 * p;
    } else {
      assert r * p >= 8 * p;
    }
  }

  /** The texts taken for ULIDs are those of 128-bit numbers, and the canonical ones are not nil. */
  lemma UlidMeans(s: string)
    ensures Ulid(s) <==> exists n: nat :: n < U128 && s == Base32(n, 26)
    ensures CanonicalId(s) <==> exists n: nat :: 0 < n < U128 && s == Base32(n, 26)
  {
    Pow32Of25();
    assert Pow32(26) == 32 * Pow32(25);
    if Ulid(s) {
      UlidNumber(s);
      WriteNumber(s);
      NumberZero(s);
    }
    if n: nat :| n < U128 && s == Base32(n, 26) {
      ReadNumber(n, 26);
      UlidNumber(s);
    }
    if n: nat :| 0 < n < U128 && s == Base32(n, 26) {
      ReadNumber(n, 26);
      UlidNumber(s);
      NumberZero(s);
    }
  }
}
