/** The text operations the policies rely on: trimming, splitting, replacing and comparing strings. */
module Text {

  /** Unicode White_Space, which `str::trim` removes. */
  predicate Whitespace(c: char) {
    || '\t' <= c <= '\r' || c == ' ' || c == '\U{0085}' || c == '\U{00A0}' || c == '\U{1680}'
    || '\U{2000}' <= c <= '\U{200A}' || c == '\U{2028}' || c == '\U{2029}' || c == '\U{202F}'
    || c == '\U{205F}' || c == '\U{3000}'
  }

  function TrimStart(s: string): string {
    if s != "" && Whitespace(s[0]) then TrimStart(s[1..]) else s
  }

  function TrimEnd(s: string): string {
    if s != "" && Whitespace(s[|s| - 1]) then TrimEnd(s[..|s| - 1]) else s
  }

  function Trim(s: string): string { TrimEnd(TrimStart(s)) }

  predicate Trimmed(s: string) {
    s != "" ==> !Whitespace(s[0]) && !Whitespace(s[|s| - 1])
  }

  lemma TrimStartEnds(s: string)
    ensures TrimStart(s) != "" ==> !Whitespace(TrimStart(s)[0])
  {
  }

  lemma TrimEndEnds(s: string)
    ensures TrimEnd(s) <= s
    ensures TrimEnd(s) != "" ==> !Whitespace(TrimEnd(s)[|TrimEnd(s)| - 1])
  {
  }

  /** Trimming leaves no outer whitespace, and changes nothing exactly when there was none. */
  lemma TrimIsTrimmed(s: string)
    ensures Trimmed(Trim(s))
    ensures Trim(s) == s <==> Trimmed(s)
  {
    TrimStartEnds(s);
    TrimEndEnds(TrimStart(s));
  }

  /** `r` is the stretch of `s` from `i` to `j`, and everything outside it is dropped. */
  predicate Between(s: string, drop: char -> bool, i: nat, j: nat, r: string) {
    i <= j <= |s| && r == s[i..j] && (forall k | 0 <= k < i :: drop(s[k])) && (forall k | j <= k < |s| :: drop(s[k]))
  }

  /** `r` is `s` without the characters to drop at its two ends. */
  ghost predicate Strips(s: string, drop: char -> bool, r: string) {
    && (r != "" ==> !drop(r[0]) && !drop(r[|r| - 1]))
    && exists i: nat, j: nat :: Between(s, drop, i, j, r)
  }

  lemma {:induction false} TrimStartCut(s: string) returns (i: nat)
    ensures i <= |s| && TrimStart(s) == s[i..] && forall k | 0 <= k < i :: Whitespace(s[k])
    decreases |s|
  {
    if s != "" && Whitespace(s[0]) {
      var n := TrimStartCut(s[1..]);
      i := n + 1;
    } else {
      i := 0;
    }
  }

  lemma {:induction false} TrimEndCut(s: string) returns (j: nat)
    ensures j <= |s| && TrimEnd(s) == s[..j] && forall k | j <= k < |s| :: Whitespace(s[k])
    decreases |s|
  {
    if s != "" && Whitespace(s[|s| - 1]) {
      j := TrimEndCut(s[..|s| - 1]);
    } else {
      j := |s|;
    }
  }

  /** Trimming removes the whitespace at the two ends and nothing else. */
  lemma TrimMeans(s: string)
    ensures Strips(s, Whitespace, Trim(s))
  {
    var i := TrimStartCut(s);
    var t := TrimStart(s);
    var j := TrimEndCut(t);
    TrimIsTrimmed(s);
    assert t[..j] == s[i..i + j];
    assert forall k | i + j <= k < |s| :: s[k] == t[k - i];
    assert Between(s, Whitespace, i, i + j, Trim(s));
  }

  /** `str::contains` for a nonempty needle. */
  predicate Contains(s: string, needle: string) {
    needle <= s || (s != "" && Contains(s[1..], needle))
  }

  lemma {:induction false} ContainsMeans(s: string, needle: string)
    ensures Contains(s, needle) <==> exists i | 0 <= i <= |s| :: needle <= s[i..]
    decreases |s|
  {
    assert s[0..] == s;
    if s != "" {
      ContainsMeans(s[1..], needle);
      assert forall i | 0 <= i < |s| :: s[1..][i..] == s[i + 1..];
      if i :| 0 <= i <= |s| && needle <= s[i..] {
        assert i > 0 ==> needle <= s[1..][i - 1..];
      }
      if Contains(s[1..], needle) {
        var i :| 0 <= i <= |s[1..]| && needle <= s[1..][i..];
        assert needle <= s[i + 1..];
      }
    }
  }

  /** `str::replace`: every leftmost, non-overlapping occurrence of a nonempty needle. */
  function Replace(s: string, needle: string, value: string): string
    requires needle != ""
  {
    if s == "" then ""
    else if needle <= s then value + Replace(s[|needle|..], needle, value)
    else [s[0]] + Replace(s[1..], needle, value)
  }

  /** `str::split` on one character: always at least one piece. */
  function Split(s: string, sep: char): (pieces: seq<string>)
    ensures pieces != []
  {
    if s == "" then [""]
    else
      var rest := Split(s[1..], sep);
      if s[0] == sep then [""] + rest else [[s[0]] + rest[0]] + rest[1..]
  }

  function Join(pieces: seq<string>, sep: char): string {
    if pieces == [] then ""
    else if |pieces| == 1 then pieces[0]
    else pieces[0] + [sep] + Join(pieces[1..], sep)
  }

  lemma SplitPlain(s: string, sep: char)
    requires sep !in s
    ensures Split(s, sep) == [s]
  {
    if s != "" {
      assert sep !in s[1..];
      assert [s[0]] + s[1..] == s;
    }
  }

  /** Splitting distributes over a separator. */
  lemma {:induction false} SplitConcat(a: string, b: string, sep: char)
    ensures Split(a + [sep] + b, sep) == Split(a, sep) + Split(b, sep)
    decreases |a|
  {
    if a == "" {
      assert (a + [sep] + b)[1..] == b;
    } else {
      SplitConcat(a[1..], b, sep);
      assert (a + [sep] + b)[1..] == a[1..] + [sep] + b;
      SplitStep(a[0], Split(a[1..], sep), Split(b, sep), sep);
    }
  }

  /** One more character in front of split pieces. */
  lemma SplitStep(c: char, pieces: seq<string>, more: seq<string>, sep: char)
    requires pieces != []
    ensures (if c == sep then [""] + (pieces + more) else [[c] + (pieces + more)[0]] + (pieces + more)[1..])
         == (if c == sep then [""] + pieces else [[c] + pieces[0]] + pieces[1..]) + more
  {
    assert (pieces + more)[0] == pieces[0] && (pieces + more)[1..] == pieces[1..] + more;
  }

  /** Joining pieces free of the separator and splitting again gives the pieces back. */
  lemma {:induction false} SplitJoin(pieces: seq<string>, sep: char)
    requires pieces != [] && forall i | 0 <= i < |pieces| :: sep !in pieces[i]
    ensures Split(Join(pieces, sep), sep) == pieces
    decreases |pieces|
  {
    SplitPlain(pieces[0], sep);
    if |pieces| > 1 {
      SplitJoin(pieces[1..], sep);
      SplitConcat(pieces[0], Join(pieces[1..], sep), sep);
    }
  }

  // ---------------------------------------------------------------- order

  /** Byte order of UTF-8 text, which is code point order: `a < b` for Rust strings. */
  predicate Less(a: string, b: string) {
    b != "" && (a == "" || a[0] < b[0] || (a[0] == b[0] && Less(a[1..], b[1..])))
  }

  lemma LessTransitive(a: string, b: string, c: string)
    requires Less(a, b) && Less(b, c)
    ensures Less(a, c)
  {
  }

  lemma LessTotal(a: string, b: string)
    ensures a == b || Less(a, b) || Less(b, a)
    ensures !(Less(a, b) && Less(b, a)) && !Less(a, a)
  {
    if a != "" && b != "" && a[0] == b[0] {
      LessTotal(a[1..], b[1..]);
      assert a == [a[0]] + a[1..] && b == [b[0]] + b[1..];
    }
  }

  // ---------------------------------------------------------------- identifiers

  predicate Alphanumeric(c: char) {
    '0' <= c <= '9' || 'A' <= c <= 'Z' || 'a' <= c <= 'z'
  }

  /** Letters of the ULID alphabet: digits and capitals without I, L, O and U. */
  predicate UlidLetter(c: char) {
    '0' <= c <= '9' || ('A' <= c <= 'Z' && c !in "ILOU")
  }

  /** A canonical ULID: 26 capital letters of the alphabet encoding at most 128 bits. */
  predicate Ulid(s: string) {
    |s| == 26 && (forall i | 0 <= i < |s| :: UlidLetter(s[i])) && s[0] <= '7'
  }

  /** A canonical, non-nil ULID. */
  predicate CanonicalId(s: string) {
    Ulid(s) && exists i | 0 <= i < |s| :: s[i] != '0'
  }

  /** Cc, the control characters: C0, DEL and C1. */
  predicate Control(c: char) { c < ' ' || '\U{007F}' <= c <= '\U{009F}' }

  /** At most 128 letters, digits, dots, dashes and underscores between letters or digits. */
  predicate InstallationId(s: string) {
    && 1 <= |s| <= 128
    && Alphanumeric(s[0]) && Alphanumeric(s[|s| - 1])
    && forall i | 0 <= i < |s| :: Alphanumeric(s[i]) || s[i] == '.' || s[i] == '_' || s[i] == '-'
  }
}
