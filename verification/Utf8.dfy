/** Strings as the bytes Rust stores them in, by the UTF-8 encoding of section 3 of RFC 3629. */
module Utf8 {
  import opened Text

  type Byte = b: int | 0 <= b < 256

  /** Bytes of a character. */
  function Width(c: char): (w: nat)
    ensures 1 <= w <= 4
  {
    if c < '\U{0080}' then 1 else if c < '\U{0800}' then 2 else if c < '\U{10000}' then 3 else 4
  }

  function Encode(c: char): (bytes: seq<Byte>)
    ensures |bytes| == Width(c)
  {
    var n := c as int;
    if n < 0x80 then [n]
    else if n < 0x800 then [0xC0 + n / 0x40, 0x80 + n % 0x40]
    else if n < 0x10000 then [0xE0 + n / 0x1000, 0x80 + n / 0x40 % 0x40, 0x80 + n % 0x40]
    else [0xF0 + n / 0x40000, 0x80 + n / 0x1000 % 0x40, 0x80 + n / 0x40 % 0x40, 0x80 + n % 0x40]
  }

  /** `str::as_bytes`. */
  function Encoded(s: string): seq<Byte> { if s == "" then [] else Encode(s[0]) + Encoded(s[1..]) }

  /** `str::len`. */
  function Bytes(s: string): nat { if s == "" then 0 else Width(s[0]) + Bytes(s[1..]) }

  lemma {:induction false} BytesAreEncoded(s: string)
    ensures |Encoded(s)| == Bytes(s)
    decreases |s|
  {
    if s != "" {
      BytesAreEncoded(s[1..]);
    }
  }

  /** The code point a character's bytes stand for. */
  function Decoded(bytes: seq<int>): int
    requires 1 <= |bytes| <= 4
  {
    if |bytes| == 1 then bytes[0]
    else if |bytes| == 2 then (bytes[0] - 0xC0) * 0x40 + (bytes[1] - 0x80)
    else if |bytes| == 3 then ((bytes[0] - 0xE0) * 0x40 + (bytes[1] - 0x80)) * 0x40 + (bytes[2] - 0x80)
    else (((bytes[0] - 0xF0) * 0x40 + (bytes[1] - 0x80)) * 0x40 + (bytes[2] - 0x80)) * 0x40 + (bytes[3] - 0x80)
  }

  lemma EncodeInverts(c: char)
    ensures Decoded(Encode(c)) == c as int
  {
    var n := c as int;
    assert n / 0x40 / 0x40 == n / 0x1000 && n / 0x1000 / 0x40 == n / 0x40000;
  }

  /** The first byte tells how many follow, so the first character can be read off. */
  lemma EncodeReads(c: char, d: char, x: seq<Byte>, y: seq<Byte>)
    requires Encode(c) + x == Encode(d) + y
    ensures c == d && x == y
  {
    var a, b := Encode(c) + x, Encode(d) + y;
    assert a[0] == Encode(c)[0] && b[0] == Encode(d)[0];
    assert Width(c) == Width(d);
    forall i | 0 <= i < Width(c) ensures Encode(c)[i] == Encode(d)[i] {
      assert a[i] == b[i];
    }
    EncodeInverts(c);
    EncodeInverts(d);
    assert Encode(c) == Encode(d);
    assert x == a[Width(c)..] && y == b[Width(d)..];
  }

  /** Different strings have different bytes. */
  lemma {:induction false} EncodedInjective(a: string, b: string)
    requires Encoded(a) == Encoded(b)
    ensures a == b
    decreases |a|
  {
    if a != "" && b != "" {
      EncodeReads(a[0], b[0], Encoded(a[1..]), Encoded(b[1..]));
      EncodedInjective(a[1..], b[1..]);
      assert a == [a[0]] + a[1..] && b == [b[0]] + b[1..];
    }
  }

  // ---------------------------------------------------------------- order

  /** `x` and `y` agree up to `k`, where `x` has the smaller byte or ends. */
  predicate BelowAt(x: seq<Byte>, y: seq<Byte>, k: nat) {
    k <= |x| && k < |y| && x[..k] == y[..k] && (k == |x| || x[k] < y[k])
  }

  /** Lexicographic order of bytes: decided at the first difference, a proper prefix comes first. */
  ghost predicate Below(x: seq<Byte>, y: seq<Byte>) { exists k :: BelowAt(x, y, k) }

  lemma BelowAsymmetric(x: seq<Byte>, y: seq<Byte>)
    ensures !(Below(x, y) && Below(y, x))
  {
  }

  lemma BelowPrefix(p: seq<Byte>, x: seq<Byte>, y: seq<Byte>)
    ensures Below(p + x, p + y) <==> Below(x, y)
  {
    var a, b := p + x, p + y;
    if k: nat :| BelowAt(x, y, k) {
      assert a[..|p| + k] == p + x[..k] && b[..|p| + k] == p + y[..k];
      assert BelowAt(a, b, |p| + k);
    }
    if k: nat :| BelowAt(a, b, k) {
      if k < |p| {
        assert a[k] == p[k] == b[k];
      } else {
        assert x[..k - |p|] == a[..k][|p|..] && y[..k - |p|] == b[..k][|p|..];
        assert BelowAt(x, y, k - |p|);
      }
    }
  }

  /** Numbers compare as their last six bits and the rest do. */
  lemma SixBitOrder(m: nat, n: nat)
    requires m < n
    ensures m / 0x40 < n / 0x40 || (m / 0x40 == n / 0x40 && m % 0x40 < n % 0x40)
  {
  }

  /** Where the bytes of two characters of one width first differ, the smaller has the smaller byte. */
  predicate SmallerAt(c: char, d: char, k: nat) {
    k < Width(c) && k < Width(d) && Encode(c)[..k] == Encode(d)[..k] && Encode(c)[k] < Encode(d)[k]
  }

  lemma TwoByteOrder(c: char, d: char) returns (k: nat)
    requires c < d && Width(c) == Width(d) == 2
    ensures SmallerAt(c, d, k)
  {
    SixBitOrder(c as int, d as int);
    k := if c as int / 0x40 == d as int / 0x40 then 1 else 0;
  }

  lemma ThreeByteOrder(c: char, d: char) returns (k: nat)
    requires c < d && Width(c) == Width(d) == 3
    ensures SmallerAt(c, d, k)
  {
    var m: nat, n: nat := c as int, d as int;
    SixBitOrder(m, n);
    assert m / 0x1000 == m / 0x40 / 0x40 && n / 0x1000 == n / 0x40 / 0x40;
    if m / 0x40 == n / 0x40 {
      k := 2;
    } else {
      SixBitOrder(m / 0x40, n / 0x40);
      k := if m / 0x1000 == n / 0x1000 then 1 else 0;
    }
  }

  lemma FourByteOrder(c: char, d: char) returns (k: nat)
    requires c < d && Width(c) == Width(d) == 4
    ensures SmallerAt(c, d, k)
  {
    var m: nat, n: nat := c as int, d as int;
    SixBitOrder(m, n);
    assert m / 0x1000 == m / 0x40 / 0x40 && n / 0x1000 == n / 0x40 / 0x40;
    assert m / 0x40000 == m / 0x1000 / 0x40 && n / 0x40000 == n / 0x1000 / 0x40;
    if m / 0x40 == n / 0x40 {
      k := 3;
    } else {
      SixBitOrder(m / 0x40, n / 0x40);
      if m / 0x1000 == n / 0x1000 {
        k := 2;
      } else {
        SixBitOrder(m / 0x1000, n / 0x1000);
        k := if m / 0x40000 == n / 0x40000 then 1 else 0;
      }
    }
  }

  /** The bytes of a smaller character are smaller at some place within both. */
  lemma EncodeOrder(c: char, d: char) returns (k: nat)
    requires c < d
    ensures SmallerAt(c, d, k)
  {
    k := 0;
    if Width(c) == Width(d) == 2 {
      k := TwoByteOrder(c, d);
    } else if Width(c) == Width(d) == 3 {
      k := ThreeByteOrder(c, d);
    } else if Width(c) == Width(d) == 4 {
      k := FourByteOrder(c, d);
    }
  }

  /** Strings compare as their bytes do. */
  lemma {:induction false} LessIsBelow(a: string, b: string)
    ensures Less(a, b) <==> Below(Encoded(a), Encoded(b))
    decreases |a|
  {
    var x, y := Encoded(a), Encoded(b);
    if b == "" {
      assert Below(x, y) ==> |y| > 0;
    } else if a == "" {
      assert BelowAt(x, y, 0);
    } else if a[0] == b[0] {
      LessIsBelow(a[1..], b[1..]);
      BelowPrefix(Encode(a[0]), Encoded(a[1..]), Encoded(b[1..]));
    } else if a[0] < b[0] {
      FirstDecides(a, b);
    } else {
      FirstDecides(b, a);
      BelowAsymmetric(x, y);
    }
  }

  lemma FirstDecides(a: string, b: string)
    requires a != "" && b != "" && a[0] < b[0]
    ensures Below(Encoded(a), Encoded(b))
  {
    var k := EncodeOrder(a[0], b[0]);
    var x, y := Encoded(a), Encoded(b);
    assert x[..k] == Encode(a[0])[..k] && y[..k] == Encode(b[0])[..k];
    assert BelowAt(x, y, k);
  }
}
