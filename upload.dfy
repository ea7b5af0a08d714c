/**
 * The name under which an uploaded profile image is stored: the upload time,
 * a dash, the original base name stripped of everything but ASCII letters,
 * digits, `_` and `-`, and the original extension as it was. The path
 * helpers follow Node's POSIX `path.basename` and `path.extname`.
 */
module Upload {
  import opened Wrappers
  import Text
  import opened Ordering

  /** The path without its trailing slashes. */
  function StripTrailingSlashes(p: string): (r: string)
    ensures r <= p
    ensures r == [] || r[|r| - 1] != '/'
    ensures forall k | |r| <= k < |p| :: p[k] == '/'
  {
    if p != [] && p[|p| - 1] == '/' then StripTrailingSlashes(p[..|p| - 1]) else p
  }

  /** The part of `p` after its last slash. */
  function AfterLastSlash(p: string): (r: string)
    ensures |r| <= |p| && r == p[|p| - |r|..]
    ensures '/' !in r
    ensures |r| < |p| ==> p[|p| - |r| - 1] == '/'
  {
    if p == [] || p[|p| - 1] == '/' then []
    else
      var r := AfterLastSlash(p[..|p| - 1]) + [p[|p| - 1]];
      assert p[..|p| - 1][|p| - |r|..] + [p[|p| - 1]] == p[|p| - |r|..];
      r
  }

  /** `path.basename(p)`: the last component, trailing slashes ignored. */
  function BaseName(p: string): (r: string)
    ensures '/' !in r
  {
    AfterLastSlash(StripTrailingSlashes(p))
  }

  /** The base name of a file in a directory is the file's own name. */
  lemma BaseNameOfJoin(dir: string, name: string)
    requires name != [] && '/' !in name
    ensures BaseName(dir + "/" + name) == name
  {
    var p := dir + "/" + name;
    assert p[|p| - 1] == name[|name| - 1];
    assert StripTrailingSlashes(p) == p;
    assert p[|p| - |name| - 1] == '/';
    assert p[|p| - |name|..] == name;
  }

  /** The position of the last `c` in `s`. */
  function LastIndexOf(s: string, c: char): (r: Option<nat>)
    ensures r.None? <==> c !in s
    ensures r.Some? ==> r.value < |s| && s[r.value] == c && c !in s[r.value + 1..]
  {
    if s == [] then None
    else if s[|s| - 1] == c then Some(|s| - 1)
    else
      var r := LastIndexOf(s[..|s| - 1], c);
      assert s == s[..|s| - 1] + [s[|s| - 1]];
      r
  }

  /** The extension of one path component: from its last dot to its end,
      unless the component has no dot, starts with its only leading dot, or is `..`. */
  function ComponentExt(c: string): (e: string)
    ensures |e| <= |c| && e == c[|c| - |e|..]
    ensures e != [] ==> e[0] == '.' && '.' !in e[1..] && |e| < |c|
  {
    match LastIndexOf(c, '.')
    case None => []
    case Some(d) => if d == 0 || c == ".." then [] else c[d..]
  }

  /** `path.extname(p)`. */
  function ExtName(p: string): string {
    ComponentExt(BaseName(p))
  }

  /** `path.basename(p, path.extname(p))`: the last component without its extension. */
  function Stem(p: string): (s: string)
    ensures s + ExtName(p) == BaseName(p)
  {
    var b := BaseName(p);
    var e := ComponentExt(b);
    var n := |b| - |e|;
    assert e == b[n..];
    assert b == b[..n] + b[n..];
    b[..n]
  }

  /** A character the name filter keeps. */
  predicate Allowed(c: char) {
    ('a' <= c <= 'z') || ('A' <= c <= 'Z') || ('0' <= c <= '9') || c == '_' || c == '-'
  }

  /** `s.replace(/[^a-zA-Z0-9_-]/g, '')`. */
  function Sanitize(s: string): (r: string)
    ensures |r| <= |s|
    ensures forall k | 0 <= k < |r| :: Allowed(r[k])
  {
    Filter(s, Allowed)
  }

  /** Sanitising works character by character: it removes exactly the
      characters that are not allowed and keeps the others in order. */
  lemma {:induction false} SanitizeAppend(a: string, b: string)
    ensures Sanitize(a + b) == Sanitize(a) + Sanitize(b)
  {
    FilterAppend(a, b, Allowed);
  }

  /** A name made only of allowed characters is left as it is. */
  lemma {:induction false} SanitizeKeepsAllowed(s: string)
    requires forall k | 0 <= k < |s| :: Allowed(s[k])
    ensures Sanitize(s) == s
  {
    if s != [] {
      assert s == [s[0]] + s[1..];
      SanitizeAppend([s[0]], s[1..]);
      SanitizeKeepsAllowed(s[1..]);
      assert Filter([s[0]], Allowed) == [s[0]] by {
        assert [s[0]][1..] == [];
      }
    }
  }

  /** Sanitising twice is sanitising once. */
  lemma SanitizeIdempotent(s: string)
    ensures Sanitize(Sanitize(s)) == Sanitize(s)
  {
    SanitizeKeepsAllowed(Sanitize(s));
  }

  /** The multer `filename` callback for an upload named `original` at time `now`. */
  function StoredFilename(now: nat, original: string): string {
    Text.NatToString(now) + "-" + Sanitize(Stem(original)) + ExtName(original)
  }

  /** Neither the sanitised stem nor the extension of a name holds a slash. */
  lemma NoSlashInParts(original: string)
    ensures '/' !in Sanitize(Stem(original)) && '/' !in ExtName(original)
  {
  }

  /** A name assembled as `<t>-<s><e>` from a dash-free, slash-free `t` and
      slash-free `s` and `e`. */
  lemma JoinedShape(t: string, s: string, e: string)
    requires '-' !in t && '/' !in t && '/' !in s && '/' !in e
    ensures var f := t + "-" + s + e;
      '/' !in f && Text.PrefixBefore(f, '-') == t && f[|f| - |e|..] == e
  {
    var f := t + "-" + s + e;
    assert f == t + ['-'] + (s + e);
    Text.PrefixBeforeAppend(t, '-', s + e);
  }

  /** The stored name is a single path component that begins with the
      upload time and a dash and ends with the original extension, unchanged. */
  lemma StoredFilenameShape(now: nat, original: string)
    ensures var f := StoredFilename(now, original);
      && f != [] && '/' !in f
      && Text.PrefixBefore(f, '-') == Text.NatToString(now)
      && f[|f| - |ExtName(original)|..] == ExtName(original)
  {
    Text.DigitsHaveNoSeparator(Text.NatToString(now));
    NoSlashInParts(original);
    JoinedShape(Text.NatToString(now), Sanitize(Stem(original)), ExtName(original));
  }
}
