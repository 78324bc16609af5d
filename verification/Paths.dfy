/** Object keys, slash-separated prefixes and their intersection. */
module Paths {
  import opened Common
  import opened Text

  predicate SafeChar(c: char) { Alphanumeric(c) || c == '.' || c == '_' || c == '-' }

  predicate SafeSegment(s: string) {
    && s != "" && |s| <= 128
    && Alphanumeric(s[0])
    && (forall i | 0 <= i < |s| :: SafeChar(s[i]))
    && s != "." && s != ".."
  }

  predicate SafePath(s: string) {
    s != "" && forall i | 0 <= i < |Split(s, '/')| :: SafeSegment(Split(s, '/')[i])
  }

  /** The object key lies at or below the prefix. */
  predicate Under(key: string, prefix: string) {
    prefix <= key && (|prefix| < |key| ==> key[|prefix|] == '/')
  }

  /** The more specific of two prefixes, if one lies under the other. */
  function Intersect(candidate: string, root: string): Option<string> {
    if candidate == root || (root <= candidate && |root| < |candidate| && candidate[|root|] == '/') then Some(candidate)
    else if candidate <= root && |candidate| < |root| && root[|candidate|] == '/' then Some(root)
    else None
  }

  /** The intersection denotes exactly the keys under both prefixes. */
  lemma IntersectMeans(candidate: string, root: string, key: string)
    ensures Under(key, candidate) && Under(key, root)
            <==> Intersect(candidate, root).Some? && Under(key, Intersect(candidate, root).value)
  {
    var both := Intersect(candidate, root);
    if Under(key, candidate) && Under(key, root) {
      assert candidate == key[..|candidate|] && root == key[..|root|];
      if |root| < |candidate| {
        assert candidate[..|root|] == root;
      } else if |candidate| < |root| {
        assert root[..|candidate|] == candidate;
      }
    }
    if both.Some? && Under(key, both.value) {
      var p := both.value;
      assert p == key[..|p|];
      assert candidate <= p && root <= p;
      assert candidate == key[..|candidate|] && root == key[..|root|];
    }
  }

  lemma UnderSelf(p: string)
    ensures Under(p, p)
  {
  }

  /** The segments of a prefix begin the segments of every key under it. */
  lemma UnderSegments(key: string, prefix: string)
    requires Under(key, prefix)
    ensures Split(prefix, '/') <= Split(key, '/')
  {
    if |prefix| < |key| {
      var rest := key[|prefix| + 1..];
      assert key == prefix + "/" + rest;
      SplitConcat(prefix, rest, '/');
    } else {
      assert key == prefix;
    }
  }

  // ---------------------------------------------------------------- the shape of a safe path

  /** A segment that is safe except possibly for its length. */
  predicate Wellformed(s: string) {
    s != "" && Alphanumeric(s[0]) && forall i | 0 <= i < |s| :: SafeChar(s[i])
  }

  /** Read left to right: every segment begins with a letter or digit and holds only safe characters. */
  predicate Shape(s: string, start: bool) {
    if s == "" then !start
    else if start then Alphanumeric(s[0]) && Shape(s[1..], false)
    else if s[0] == '/' then Shape(s[1..], true)
    else SafeChar(s[0]) && Shape(s[1..], false)
  }

  predicate AllSafe(s: string) { forall i | 0 <= i < |s| :: SafeChar(s[i]) }

  lemma AllSafeCons(c: char, v: string)
    ensures AllSafe([c] + v) <==> SafeChar(c) && AllSafe(v)
  {
    var all := [c] + v;
    if AllSafe(all) {
      assert SafeChar(all[0]);
      assert forall i | 0 <= i < |v| :: v[i] == all[i + 1];
    }
  }

  /** The pieces from index `from` on are all well-formed segments. */
  predicate AllWellformed(pieces: seq<string>, from: nat) {
    forall i | from <= i < |pieces| :: Wellformed(pieces[i])
  }

  lemma {:induction false} ShapeIsWellformed(s: string)
    ensures Shape(s, true) <==> AllWellformed(Split(s, '/'), 0)
    ensures Shape(s, false) <==> AllSafe(Split(s, '/')[0]) && AllWellformed(Split(s, '/'), 1)
    decreases |s|
  {
    var all := Split(s, '/');
    assert AllWellformed(all, 0) <==> Wellformed(all[0]) && AllWellformed(all, 1);
    if s != "" {
      ShapeIsWellformed(s[1..]);
      var rest := Split(s[1..], '/');
      if s[0] == '/' {
        assert !Wellformed(all[0]);
        assert forall i | 0 <= i < |rest| :: rest[i] == all[i + 1];
        assert AllWellformed(all, 1) <==> AllWellformed(rest, 0);
      } else {
        assert all[0] == [s[0]] + rest[0];
        assert forall i | 1 <= i < |all| :: all[i] == rest[i];
        AllSafeCons(s[0], rest[0]);
        assert Wellformed(all[0]) <==> Alphanumeric(s[0]) && AllSafe(rest[0]);
        assert AllWellformed(all, 1) <==> AllWellformed(rest, 1);
      }
    }
  }

  /** A safe path is a well-shaped one whose segments are at most 128 bytes long. */
  lemma SafePathShape(s: string)
    ensures SafePath(s) <==> Shape(s, true) && forall i | 0 <= i < |Split(s, '/')| :: |Split(s, '/')[i]| <= 128
  {
    ShapeIsWellformed(s);
    forall i | 0 <= i < |Split(s, '/')|
      ensures SafeSegment(Split(s, '/')[i]) <==> Wellformed(Split(s, '/')[i]) && |Split(s, '/')[i]| <= 128
    {}
  }

  lemma {:induction false} ShapeSafeTail(v: string, rest: string)
    requires AllSafe(v)
    ensures Shape(v + rest, false) == Shape(rest, false)
    decreases |v|
  {
    if v == "" {
      assert v + rest == rest;
    } else {
      assert (v + rest)[1..] == v[1..] + rest;
      ShapeSafeTail(v[1..], rest);
    }
  }

  /** A well-formed segment can stand wherever a character can. */
  lemma ShapeSegment(v: string, rest: string, start: bool)
    requires Wellformed(v)
    ensures Shape(v + rest, start) == Shape(rest, false)
  {
    assert (v + rest)[1..] == v[1..] + rest;
    ShapeSafeTail(v[1..], rest);
  }
}
