/** The byte streams fed to the identity digests, and the hexadecimal rendering of a digest. */
module Encodings {
  import opened Common
  import opened Utf8

  const U64: nat := 0x1_0000_0000_0000_0000

  /** A byte string written in ASCII. */
  function Ascii(text: string): seq<Byte>
    requires forall i | 0 <= i < |text| :: text[i] < '\U{0080}'
  {
    seq(|text|, i requires 0 <= i < |text| => text[i] as int)
  }

  /** The `width` low bytes of `n`, least significant first. */
  function LittleEndian(n: nat, width: nat): (bytes: seq<Byte>)
    ensures |bytes| == width
    decreases width
  {
    if width == 0 then [] else [n % 256] + LittleEndian(n / 256, width - 1)
  }

  /** The same bytes, most significant first. */
  function BigEndian(n: nat, width: nat): (bytes: seq<Byte>)
    ensures |bytes| == width
    decreases width
  {
    if width == 0 then [] else BigEndian(n / 256, width - 1) + [n % 256]
  }

  function Power256(width: nat): (p: nat)
    ensures p > 0
  {
    if width == 0 then 1 else 256 * Power256(width - 1)
  }

  /** The number the bytes stand for, the first of them counting least. */
  function Value(bytes: seq<Byte>): nat { if bytes == [] then 0 else bytes[0] + 256 * Value(bytes[1..]) }

  /** A number that fits can be read off its bytes, and the two orders are mirror images. */
  lemma {:induction false} EndianReads(n: nat, width: nat)
    requires n < Power256(width)
    ensures Value(LittleEndian(n, width)) == n
    ensures forall i | 0 <= i < width :: BigEndian(n, width)[i] == LittleEndian(n, width)[width - 1 - i]
    decreases width
  {
    if width > 0 {
      EndianReads(n / 256, width - 1);
      assert LittleEndian(n, width)[1..] == LittleEndian(n / 256, width - 1);
    }
  }

  lemma {:induction false} LittleEndianInjective(m: nat, n: nat, width: nat)
    requires m < Power256(width) && n < Power256(width) && LittleEndian(m, width) == LittleEndian(n, width)
    ensures m == n
    decreases width
  {
    if width > 0 {
      assert LittleEndian(m, width)[1..] == LittleEndian(m / 256, width - 1);
      assert LittleEndian(n, width)[1..] == LittleEndian(n / 256, width - 1);
      LittleEndianInjective(m / 256, n / 256, width - 1);
      assert LittleEndian(m, width)[0] == m % 256 && LittleEndian(n, width)[0] == n % 256;
    }
  }

  lemma {:induction false} BigEndianInjective(m: nat, n: nat, width: nat)
    requires m < Power256(width) && n < Power256(width) && BigEndian(m, width) == BigEndian(n, width)
    ensures m == n
    decreases width
  {
    if width > 0 {
      assert BigEndian(m, width)[..width - 1] == BigEndian(m / 256, width - 1);
      assert BigEndian(n, width)[..width - 1] == BigEndian(n / 256, width - 1);
      BigEndianInjective(m / 256, n / 256, width - 1);
      assert BigEndian(m, width)[width - 1] == m % 256 && BigEndian(n, width)[width - 1] == n % 256;
    }
  }

  /** The eight-byte length that precedes a part; `big` selects network order. */
  function Length(n: nat, big: bool): (bytes: seq<Byte>)
    ensures |bytes| == 8
  {
    if big then BigEndian(n, 8) else LittleEndian(n, 8)
  }

  lemma LengthInjective(m: nat, n: nat, big: bool)
    requires m < U64 && n < U64 && Length(m, big) == Length(n, big)
    ensures m == n
  {
    assert Power256(8) == U64 by {
      assert Power256(4) == 256 * 256 * 256 * 256;
    }
    if big {
      BigEndianInjective(m, n, 8);
    } else {
      LittleEndianInjective(m, n, 8);
    }
  }

  /** Parts fed one after another, each behind its length. */
  function Framed(parts: seq<seq<Byte>>, big: bool): seq<Byte> {
    if parts == [] then [] else Length(|parts[0]|, big) + parts[0] + Framed(parts[1..], big)
  }

  lemma FramedLast(part: seq<Byte>, big: bool)
    ensures Framed([part], big) == Length(|part|, big) + part
  {
    assert [part][1..] == [];
  }

  predicate Lengths(parts: seq<seq<Byte>>) {
    forall i | 0 <= i < |parts| :: |parts[i]| < U64
  }

  /** The first part and the rest can be read off the stream. */
  lemma FramedReads(parts: seq<seq<Byte>>, big: bool)
    requires parts != []
    ensures var f, k := Framed(parts, big), 8 + |parts[0]|;
            |f| >= k && f[..8] == Length(|parts[0]|, big) && f[8..k] == parts[0] && f[k..] == Framed(parts[1..], big)
  {
    var head := Length(|parts[0]|, big);
    assert Framed(parts, big) == head + parts[0] + Framed(parts[1..], big);
  }

  /** Length framing of equally many parts is injective. */
  lemma {:induction false} FramedInjective(a: seq<seq<Byte>>, b: seq<seq<Byte>>, big: bool)
    requires |a| == |b| && Lengths(a) && Lengths(b) && Framed(a, big) == Framed(b, big)
    ensures a == b
    decreases |a|
  {
    if a != [] {
      FramedReads(a, big);
      FramedReads(b, big);
      LengthInjective(|a[0]|, |b[0]|, big);
      FramedInjective(a[1..], b[1..], big);
      assert a == [a[0]] + a[1..] && b == [b[0]] + b[1..];
    }
  }

  // ---------------------------------------------------------------- user namespaces

  const NAMESPACE_TAG: seq<Byte> := Ascii("graphit-user-namespace-v1\0")

  /** The stream digested for an owner: the tag, then issuer and subject behind big-endian lengths. */
  function NamespaceInput(issuer: seq<Byte>, subject: seq<Byte>): seq<Byte> {
    NAMESPACE_TAG + Framed([issuer, subject], true)
  }

  /** The stream, part by part. */
  lemma NamespaceInputReads(issuer: seq<Byte>, subject: seq<Byte>)
    ensures NamespaceInput(issuer, subject) ==
            NAMESPACE_TAG + (BigEndian(|issuer|, 8) + issuer + (BigEndian(|subject|, 8) + subject))
  {
    var parts := [issuer, subject];
    assert parts[1..] == [subject];
    FramedLast(subject, true);
  }

  /** Distinct owners feed distinct streams to the digest. */
  lemma NamespaceInputInjective(i1: seq<Byte>, s1: seq<Byte>, i2: seq<Byte>, s2: seq<Byte>)
    requires Lengths([i1, s1]) && Lengths([i2, s2])
    ensures NamespaceInput(i1, s1) == NamespaceInput(i2, s2) <==> i1 == i2 && s1 == s2
  {
    if NamespaceInput(i1, s1) == NamespaceInput(i2, s2) {
      var k := |NAMESPACE_TAG|;
      assert NamespaceInput(i1, s1)[k..] == Framed([i1, s1], true);
      assert NamespaceInput(i2, s2)[k..] == Framed([i2, s2], true);
      FramedInjective([i1, s1], [i2, s2], true);
      assert [i1, s1][0] == [i2, s2][0] && [i1, s1][1] == [i2, s2][1];
    }
  }

  function HexDigit(n: int): char
    requires 0 <= n < 16
  {
    "0123456789abcdef"[n]
  }

  function Hex(bytes: seq<Byte>): string {
    if bytes == [] then "" else [HexDigit(bytes[0] / 16), HexDigit(bytes[0] % 16)] + Hex(bytes[1..])
  }

  function HexValue(c: char): int { if c <= '9' then c as int - '0' as int else c as int - 'a' as int + 10 }

  lemma HexDigitReads(n: int)
    requires 0 <= n < 16
    ensures HexValue(HexDigit(n)) == n && ('0' <= HexDigit(n) <= '9' || 'a' <= HexDigit(n) <= 'f')
  {
  }

  /** Two lower-case digits a byte, the high half first. */
  lemma {:induction false} HexReads(bytes: seq<Byte>, i: nat)
    requires i < |bytes|
    ensures |Hex(bytes)| == 2 * |bytes|
    ensures forall k | 2 * i <= k <= 2 * i + 1 :: '0' <= Hex(bytes)[k] <= '9' || 'a' <= Hex(bytes)[k] <= 'f'
    ensures bytes[i] == 16 * HexValue(Hex(bytes)[2 * i]) + HexValue(Hex(bytes)[2 * i + 1])
    decreases |bytes|
  {
    HexDigitReads(bytes[0] / 16);
    HexDigitReads(bytes[0] % 16);
    if |bytes| > 1 {
      HexReads(bytes[1..], if i > 0 then i - 1 else 0);
    }
  }

  lemma HexDigitInjective(m: int, n: int)
    requires 0 <= m < 16 && 0 <= n < 16 && HexDigit(m) == HexDigit(n)
    ensures m == n
  {
  }

  lemma {:induction false} HexInjective(a: seq<Byte>, b: seq<Byte>)
    requires Hex(a) == Hex(b)
    ensures a == b
    decreases |a|
  {
    if a != [] && b != [] {
      assert Hex(a)[0] == Hex(b)[0] && Hex(a)[1] == Hex(b)[1];
      HexDigitInjective(a[0] / 16, b[0] / 16);
      HexDigitInjective(a[0] % 16, b[0] % 16);
      assert Hex(a)[2..] == Hex(a[1..]) && Hex(b)[2..] == Hex(b[1..]);
      HexInjective(a[1..], b[1..]);
      assert a == [a[0]] + a[1..] && b == [b[0]] + b[1..];
    }
  }

  lemma {:induction false} HexHasNoSlash(bytes: seq<Byte>)
    ensures '/' !in Hex(bytes)
    decreases |bytes|
  {
    if bytes != [] {
      HexHasNoSlash(bytes[1..]);
      assert HexDigit(bytes[0] / 16) != '/' && HexDigit(bytes[0] % 16) != '/';
    }
  }

  /** Pushing two characters per byte, as the source does, yields the hexadecimal rendering. */
  method PushHex(bytes: seq<Byte>) returns (key: string)
    ensures key == Hex(bytes) && |key| == 2 * |bytes|
  {
    key := "";
    for i := 0 to |bytes|
      invariant key + Hex(bytes[i..]) == Hex(bytes) && |key| == 2 * i
    {
      key := key + [HexDigit(bytes[i] / 16)];
      key := key + [HexDigit(bytes[i] % 16)];
      assert bytes[i..][1..] == bytes[i + 1..];
    }
  }

  /** `user_namespace` over an arbitrary digest. */
  function Namespace(digest: seq<Byte> -> seq<Byte>, issuer: seq<Byte>, subject: seq<Byte>): string {
    Hex(digest(NamespaceInput(issuer, subject)))
  }

  /** Two owners share a namespace only if the digest collides on their streams. */
  lemma NamespaceSeparates(digest: seq<Byte> -> seq<Byte>, i1: seq<Byte>, s1: seq<Byte>, i2: seq<Byte>, s2: seq<Byte>)
    requires Lengths([i1, s1]) && Lengths([i2, s2])
    requires Namespace(digest, i1, s1) == Namespace(digest, i2, s2)
    requires var a, b := NamespaceInput(i1, s1), NamespaceInput(i2, s2); digest(a) == digest(b) ==> a == b
    ensures i1 == i2 && s1 == s2
  {
    HexInjective(digest(NamespaceInput(i1, s1)), digest(NamespaceInput(i2, s2)));
    NamespaceInputInjective(i1, s1, i2, s2);
  }

  // ---------------------------------------------------------------- inference cache scopes

  const CACHE_TAG: seq<Byte> := Ascii("graphit-rerank-principal-v1")

  /** Whose inference results are cached: nobody in particular, or one principal. */
  datatype CacheOwner = Anonymous | Owned(issuer: seq<Byte>, subject: seq<Byte>, organization: Option<seq<Byte>>)

  function OrganizationBytes(o: CacheOwner): seq<Byte>
    requires o.Owned?
  {
    if o.organization.Some? then o.organization.value else []
  }

  function CacheParts(o: CacheOwner): seq<seq<Byte>>
    requires o.Owned?
  {
    [o.issuer, o.subject, OrganizationBytes(o)]
  }

  /** What follows the tag. */
  function CacheBody(o: CacheOwner): seq<Byte> {
    if o.Anonymous? then [0] else [1] + Framed(CacheParts(o), false)
  }

  function CacheInput(o: CacheOwner): seq<Byte> { CACHE_TAG + CacheBody(o) }

  /** The stream, part by part: an absent organization counts as the empty one. */
  lemma CacheBodyReads(o: CacheOwner)
    ensures CacheBody(o) ==
            match o
            case Anonymous => [0]
            case Owned(issuer, subject, organization) =>
              var last := if organization.Some? then organization.value else [];
              [1] + (LittleEndian(|issuer|, 8) + issuer
                     + (LittleEndian(|subject|, 8) + subject + (LittleEndian(|last|, 8) + last)))
  {
    if o.Owned? {
      var last: seq<Byte> := OrganizationBytes(o);
      assert CacheParts(o)[1..] == [o.subject, last] && [o.subject, last][1..] == [last];
      FramedLast(last, false);
      var two := LittleEndian(|o.subject|, 8) + o.subject + (LittleEndian(|last|, 8) + last);
      assert Framed([o.subject, last], false) == two;
      assert Framed(CacheParts(o), false) == LittleEndian(|o.issuer|, 8) + o.issuer + two;
    }
  }

  /** One byte keeps anonymous and owned streams apart. */
  lemma CacheBodyStarts(o: CacheOwner)
    ensures CacheBody(o) != [] && CacheBody(o)[0] == (if o.Anonymous? then 0 else 1)
    ensures o.Owned? ==> CacheBody(o)[1..] == Framed(CacheParts(o), false)
  {
  }

  lemma TaggedInjective(tag: seq<Byte>, a: seq<Byte>, b: seq<Byte>)
    requires tag + a == tag + b
    ensures a == b
  {
    assert (tag + a)[|tag|..] == a && (tag + b)[|tag|..] == b;
  }

  /** Equal streams mean the same owner, up to an absent organization counting as the empty one. */
  lemma CacheInputInjective(a: CacheOwner, b: CacheOwner)
    requires a.Owned? ==> Lengths(CacheParts(a))
    requires b.Owned? ==> Lengths(CacheParts(b))
    ensures CacheInput(a) == CacheInput(b) <==>
            if a.Owned? && b.Owned?
            then a.issuer == b.issuer && a.subject == b.subject && OrganizationBytes(a) == OrganizationBytes(b)
            else a.Anonymous? && b.Anonymous?
  {
    CacheBodyStarts(a);
    CacheBodyStarts(b);
    if CacheInput(a) == CacheInput(b) {
      TaggedInjective(CACHE_TAG, CacheBody(a), CacheBody(b));
    }
    if CacheInput(a) == CacheInput(b) && a.Owned? {
      var pa, pb := CacheParts(a), CacheParts(b);
      FramedInjective(pa, pb, false);
      assert pa[0] == pb[0] && pa[1] == pb[1] && pa[2] == pb[2];
    }
  }
}
