/**
 * The two POSIX path operations the booth uses to name files:
 * `os.path.join` (two arguments) and `os.path.splitext`.
 */
module Paths {
  import opened Strings

  /** `posixpath.join(a, b)`: an absolute `b` replaces `a`; otherwise one `/` separates them. */
  function Join(a: string, b: string): string {
    if |b| > 0 && b[0] == '/' then b
    else if a == [] || a[|a| - 1] == '/' then a + b
    else a + "/" + b
  }

  /** What `Join` puts in front of a relative name. */
  function JoinPrefix(a: string): string {
    if a == [] || a[|a| - 1] == '/' then a else a + "/"
  }

  lemma JoinRelative(a: string, b: string)
    requires b == [] || b[0] != '/'
    ensures Join(a, b) == JoinPrefix(a) + b
  {
  }

  /** An extension as `splitext` returns it: a dot followed by no dot and no separator. */
  predicate IsExtension(e: string) {
    |e| >= 1 && e[0] == '.' && forall k :: 1 <= k < |e| ==> e[k] != '.' && e[k] != '/'
  }

  /**
   * The last path component of `p` holds a character other than a dot: read
   * from the end, a non-dot comes before any `/`.
   */
  predicate NamedLastComponent(p: string)
    decreases |p|
  {
    p != [] && p[|p| - 1] != '/' && (p[|p| - 1] != '.' || NamedLastComponent(p[..|p| - 1]))
  }

  /**
   * Where the extension of `p` starts, `|p|` when it has none: the last dot
   * of the last component, provided some character of that component before
   * the dot is not a dot (so `.profile` and `..` have no extension).
   */
  function ExtensionStart(p: string): (k: nat)
    ensures k <= |p|
    ensures k < |p| ==> p[k] == '.'
    decreases |p|
  {
    if p == [] then 0
    else
      var n := |p| - 1;
      if p[n] == '/' then |p|
      else if p[n] == '.' then (if NamedLastComponent(p[..n]) then n else |p|)
      else
        var k := ExtensionStart(p[..n]);
        if k == n then |p| else k
  }

  /** `os.path.splitext(p)`: the path without its extension, and the extension. */
  function SplitExt(p: string): (r: (string, string))
    ensures r.0 + r.1 == p
    ensures r.1 == [] || r.1[0] == '.'
  {
    var k := ExtensionStart(p);
    assert p[..k] + p[k..] == p;
    (p[..k], p[k..])
  }

  /** What `splitext` returns as an extension is a dot followed by no dot and no separator. */
  lemma {:induction false} ExtensionShape(p: string)
    ensures SplitExt(p).1 == [] || IsExtension(SplitExt(p).1)
    decreases |p|
  {
    if p != [] {
      var n := |p| - 1;
      if p[n] == '/' {
        assert SplitExt(p).1 == [];
      } else if p[n] == '.' {
        assert SplitExt(p).1 == [] || SplitExt(p).1 == ".";
      } else {
        var q := p[..n];
        ExtensionShape(q);
        var k := ExtensionStart(q);
        assert ExtensionStart(p) == if k == n then |p| else k;
        if k < n {
          var e := q[k..];
          assert SplitExt(q).1 == e && e != [];
          assert p[k..] == e + [p[n]];
          assert IsExtension(e + [p[n]]);
        }
      }
    }
  }

  /** Splitting a named stem followed by an extension gives both parts back. */
  lemma {:induction false} SplitExtOfStemAndExtension(stem: string, ext: string)
    requires IsExtension(ext) && NamedLastComponent(stem)
    ensures SplitExt(stem + ext) == (stem, ext)
    decreases |ext|
  {
    var p := stem + ext;
    var n := |p| - 1;
    if |ext| == 1 {
      assert p[..n] == stem;
    } else {
      var shorter := ext[..|ext| - 1];
      assert IsExtension(shorter);
      SplitExtOfStemAndExtension(stem, shorter);
      assert p[..n] == stem + shorter;
      assert p[n] == ext[|ext| - 1];
    }
    assert ExtensionStart(p) == |stem|;
    assert p[..|stem|] == stem && p[|stem|..] == ext;
  }

  /** A name with no dot and no separator, joined to any directory, has no extension. */
  lemma {:induction false} SplitExtOfJoinedPlainName(dir: string, name: string)
    requires forall k :: 0 <= k < |name| ==> name[k] != '.' && name[k] != '/'
    ensures SplitExt(Join(dir, name)) == (Join(dir, name), [])
    decreases |name|
  {
    JoinRelative(dir, name);
    var p := Join(dir, name);
    if name != [] {
      var shorter := name[..|name| - 1];
      SplitExtOfJoinedPlainName(dir, shorter);
      JoinRelative(dir, shorter);
      assert p[..|p| - 1] == Join(dir, shorter);
      var q := Join(dir, shorter);
      assert p[|p| - 1] == name[|name| - 1];
      assert SplitExt(q).1 == q[ExtensionStart(q)..] == [];
      assert ExtensionStart(q) == |p| - 1;
    } else if p != [] {
      assert p[|p| - 1] == '/';
    }
    assert ExtensionStart(p) == |p|;
    assert p[..|p|] == p;
  }

  /** A name not starting with a dot, joined to a directory, leaves a named last component. */
  lemma {:induction false} JoinedPlainNameIsNamed(dir: string, name: string)
    requires |name| > 0 && name[0] != '.'
    requires forall k :: 0 <= k < |name| ==> name[k] != '/'
    ensures NamedLastComponent(Join(dir, name))
    decreases |name|
  {
    JoinRelative(dir, name);
    var p := Join(dir, name);
    var last := name[|name| - 1];
    assert p[|p| - 1] == last;
    if last == '.' {
      var shorter := name[..|name| - 1];
      JoinedPlainNameIsNamed(dir, shorter);
      JoinRelative(dir, shorter);
      assert p[..|p| - 1] == Join(dir, shorter);
    }
  }
}
