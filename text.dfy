/**
 * The pieces of Go's `strings`, `bytes`, `unicode`, `regexp` and `path/filepath`
 * packages that the core relies on, each stated over `string` (a sequence of
 * runes) with the property the core needs from it.
 */
module Text {

  /** `unicode.IsSpace`: the Latin-1 white space runes and Unicode's White_Space above them. */
  predicate IsSpace(c: char) {
    var n := c as int;
    (9 <= n <= 13) || n == 32 || n == 0x85 || n == 0xA0 || n == 0x1680
    || (0x2000 <= n <= 0x200A) || n == 0x2028 || n == 0x2029
    || n == 0x202F || n == 0x205F || n == 0x3000
  }

  predicate AllSpace(s: string) {
    forall i | 0 <= i < |s| :: IsSpace(s[i])
  }

  /** Drops the leading white space. */
  function TrimLeft(s: string): (r: string)
    ensures |r| <= |s| && r == s[|s| - |r|..]
    ensures AllSpace(s[..|s| - |r|])
    ensures r != [] ==> !IsSpace(r[0])
  {
    if s != [] && IsSpace(s[0]) then
      var r := TrimLeft(s[1..]);
      assert s[..|s| - |r|] == [s[0]] + s[1..][..|s| - 1 - |r|];
      r
    else s
  }

  /** Drops the trailing white space. */
  function TrimRight(s: string): (r: string)
    ensures |r| <= |s| && r == s[..|r|]
    ensures AllSpace(s[|r|..])
    ensures r != [] ==> !IsSpace(r[|r| - 1])
  {
    if s != [] && IsSpace(s[|s| - 1]) then
      var r := TrimRight(s[..|s| - 1]);
      assert s[|r|..] == s[..|s| - 1][|r|..] + [s[|s| - 1]];
      r
    else s
  }

  /**
   * `strings.TrimSpace` / `bytes.TrimSpace`: the input with its leading and
   * trailing white space removed and nothing else changed.
   */
  function TrimSpace(s: string): (r: string)
    ensures |r| <= |s|
    ensures r != [] ==> !IsSpace(r[0]) && !IsSpace(r[|r| - 1])
  {
    var l := TrimLeft(s);
    var r := TrimRight(l);
    assert r != [] ==> r[0] == l[0];
    r
  }

  /** Trimming removes only white space, and only at the two ends. */
  lemma TrimSpaceRemovesOnlySpace(s: string)
    ensures exists lead, trail :: s == lead + TrimSpace(s) + trail && AllSpace(lead) && AllSpace(trail)
  {
    var l := TrimLeft(s);
    var r := TrimRight(l);
    assert TrimSpace(s) == r;
    SpaceAround(s, l, r);
  }

  /** A suffix after leading space, cut before trailing space, leaves only space around it. */
  lemma SpaceAround(s: string, l: string, r: string)
    requires |l| <= |s| && l == s[|s| - |l|..] && AllSpace(s[..|s| - |l|])
    requires |r| <= |l| && r == l[..|r|] && AllSpace(l[|r|..])
    ensures exists lead, trail :: s == lead + r + trail && AllSpace(lead) && AllSpace(trail)
  {
    var lead, trail := s[..|s| - |l|], l[|r|..];
    assert s == lead + l;
    assert l == r + trail;
    assert s == lead + r + trail;
  }

  /** Trimming twice is trimming once. */
  lemma TrimSpaceIdempotent(s: string)
    ensures TrimSpace(TrimSpace(s)) == TrimSpace(s)
  {
    var t := TrimSpace(s);
    assert TrimLeft(t) == t;
    assert TrimRight(t) == t;
  }

  /** A regular-expression word character, `[0-9A-Za-z_]`. */
  predicate IsWordChar(c: char) {
    ('0' <= c <= '9') || ('A' <= c <= 'Z') || ('a' <= c <= 'z') || c == '_'
  }

  /** `strings.ToLower` on one ASCII rune; other runes are left as they are. */
  function LowerChar(c: char): (d: char)
    ensures 'A' <= c <= 'Z' ==> 'a' <= d <= 'z'
    ensures !('A' <= c <= 'Z') ==> d == c
  {
    if 'A' <= c <= 'Z' then (c as int - 'A' as int + 'a' as int) as char else c
  }

  /** `strings.ToLower`, ASCII letters only. */
  function ToLower(s: string): (r: string)
    ensures |r| == |s|
    ensures forall i | 0 <= i < |s| :: r[i] == LowerChar(s[i])
  {
    seq(|s|, i requires 0 <= i < |s| => LowerChar(s[i]))
  }

  /** `sub` occurs in `s` starting at index `i`. */
  predicate OccursAt(s: string, sub: string, i: int) {
    0 <= i && i + |sub| <= |s| && s[i..i + |sub|] == sub
  }

  /** `bytes.Contains` / `strings.Contains`. */
  predicate Contains(s: string, sub: string) {
    exists i | 0 <= i <= |s| :: OccursAt(s, sub, i)
  }

  /** The first index at or after `from` where `sub` occurs, or -1. */
  function IndexFrom(s: string, sub: string, from: nat): (r: int)
    requires from <= |s|
    decreases |s| - from
    ensures r == -1 || from <= r <= |s|
    ensures r == -1 <==> forall j | from <= j <= |s| :: !OccursAt(s, sub, j)
    ensures r != -1 ==> OccursAt(s, sub, r) && forall j | from <= j < r :: !OccursAt(s, sub, j)
  {
    if OccursAt(s, sub, from) then from
    else if from == |s| then -1
    else IndexFrom(s, sub, from + 1)
  }

  /** `strings.Index`: the first occurrence of `sub` in `s`, or -1. */
  function Index(s: string, sub: string): (r: int)
    ensures r == -1 <==> !Contains(s, sub)
    ensures r != -1 ==> OccursAt(s, sub, r) && forall j | 0 <= j < r :: !OccursAt(s, sub, j)
  {
    IndexFrom(s, sub, 0)
  }

  /**
   * `strings.Replace(s, pat, "", -1)`: every non-overlapping occurrence of `pat`,
   * found left to right, is deleted. An empty `pat` leaves `s` unchanged.
   */
  function RemoveAll(s: string, pat: string): (r: string)
    ensures |r| <= |s|
    ensures !Contains(s, pat) ==> r == s
    decreases |s|
  {
    if pat == [] || s == [] then s
    else if OccursAt(s, pat, 0) then RemoveAll(s[|pat|..], pat)
    else
      assert forall j :: OccursAt(s[1..], pat, j) ==> OccursAt(s, pat, j + 1);
      [s[0]] + RemoveAll(s[1..], pat)
  }

  /** `strings.Replace(s, pat, "", 1)`: the first occurrence of `pat` is deleted. */
  function RemoveFirst(s: string, pat: string): (r: string)
    ensures !Contains(s, pat) || pat == [] ==> r == s
    ensures Contains(s, pat) && pat != [] ==>
      var i := Index(s, pat); r == s[..i] + s[i + |pat|..]
  {
    if pat == [] then s
    else
      var i := Index(s, pat);
      if i == -1 then s else s[..i] + s[i + |pat|..]
  }

  /** `strings.Join(parts, sep)`. */
  function Join(parts: seq<string>, sep: string): (r: string)
    ensures parts == [] ==> r == []
    ensures |parts| == 1 ==> r == parts[0]
  {
    if parts == [] then []
    else if |parts| == 1 then parts[0]
    else parts[0] + sep + Join(parts[1..], sep)
  }

  /** `s` without its trailing slashes. */
  function TrimTrailingSlashes(s: string): string
  {
    if s != [] && s[|s| - 1] == '/' then TrimTrailingSlashes(s[..|s| - 1]) else s
  }

  /** The text after the last `/` of `s`, or all of `s` when it has none. */
  function LastElement(s: string): string
  {
    if s == [] || s[|s| - 1] == '/' then [] else LastElement(s[..|s| - 1]) + [s[|s| - 1]]
  }

  /**
   * `filepath.Base` with `/` as separator: the last element of the path, `.`
   * for the empty path and `/` for a path of slashes only.
   */
  function Base(path: string): (r: string)
    ensures r != []
    ensures path == [] ==> r == "."
  {
    if path == [] then "."
    else
      var last := LastElement(TrimTrailingSlashes(path));
      if last == [] then "/" else last
  }

  lemma {:induction false} LastElementHasNoSlash(s: string)
    ensures '/' !in LastElement(s)
  {
    if s != [] && s[|s| - 1] != '/' {
      LastElementHasNoSlash(s[..|s| - 1]);
    }
  }

  /** The base is a single path element: `/` itself or a name without `/`. */
  lemma BaseIsElement(path: string)
    ensures Base(path) == "/" || '/' !in Base(path)
  {
    if path != [] {
      LastElementHasNoSlash(TrimTrailingSlashes(path));
    }
  }

  lemma {:induction false} LastElementAfterSlash(dir: string, name: string)
    requires '/' !in name
    ensures LastElement(dir + "/" + name) == name
    decreases |name|
  {
    var p := dir + "/" + name;
    if name == [] {
      assert p[|p| - 1] == '/';
      assert p[..|p| - 1] == dir;
    } else {
      var n := |name| - 1;
      assert p[..|p| - 1] == dir + "/" + name[..n];
      assert p[|p| - 1] == name[n];
      assert '/' !in name[..n] by {
        assert forall k | 0 <= k < n :: name[..n][k] == name[k];
      }
      LastElementAfterSlash(dir, name[..n]);
      assert name[..n] + [name[n]] == name;
    }
  }

  /** The base of `dir/name` is `name` when `name` is a plain file name. */
  lemma BaseOfJoin(dir: string, name: string)
    requires name != [] && '/' !in name
    ensures Base(dir + "/" + name) == name
  {
    var p := dir + "/" + name;
    assert p[|p| - 1] == name[|name| - 1];
    assert TrimTrailingSlashes(p) == p;
    LastElementAfterSlash(dir, name);
  }
}
