/** `path.extname` of Node's POSIX path module, which both resume upload paths use. */
module NodePath {
  import opened Text

  /** The input without its trailing slashes. */
  function DropTrailingSlashes(p: string): (r: string)
    ensures |r| <= |p| && r == p[..|r|]
    ensures r == [] || r[|r| - 1] != '/'
  {
    if p != [] && p[|p| - 1] == '/' then DropTrailingSlashes(p[..|p| - 1]) else p
  }

  /** The last path component: what follows the last slash. */
  function Basename(p: string): (r: string)
    ensures '/' !in r
    decreases |p|
  {
    if p == [] then []
    else if p[|p| - 1] == '/' then []
    else Basename(p[..|p| - 1]) + [p[|p| - 1]]
  }

  /** Index of the last dot of `s`, or `|s|` when there is none. */
  function LastDot(s: string): (r: nat)
    ensures r <= |s|
    ensures r < |s| ==> s[r] == '.' && '.' !in s[r + 1..]
    ensures r == |s| ==> '.' !in s
  {
    if s == [] then 0
    else if s[|s| - 1] == '.' then |s| - 1
    else
      var k := LastDot(s[..|s| - 1]);
      assert s == s[..|s| - 1] + [s[|s| - 1]];
      if k == |s| - 1 then |s| else k
  }

  /** `path.extname(p)`: from the last dot of the last component to its end; empty when
      the component has no dot, when its only dot is its first character, and for `..`. */
  function Extname(p: string): (r: string)
    ensures r == [] || (r[0] == '.' && '.' !in r[1..] && '/' !in r)
  {
    var base := Basename(DropTrailingSlashes(p));
    var dot := LastDot(base);
    if dot == |base| || dot == 0 || base == ".." then []
    else
      assert base[dot..][1..] == base[dot + 1..];
      base[dot..]
  }

  /** The extension of a name never depends on a prefix that holds no slash and no dot
      and is not empty; this is how the stored upload name keeps the original's extension. */
  lemma {:induction false} ExtnameOfPrefixed(prefix: string, name: string)
    requires prefix != [] && '/' !in prefix && '.' !in prefix
    ensures Extname(prefix + Extname(name)) == Extname(name)
  {
    var e := Extname(name);
    var p := prefix + e;
    if e == [] {
      assert p == prefix;
      BasenameOfSlashFree(p);
      assert DropTrailingSlashes(p) == p;
      LastDotAbsent(p);
    } else {
      assert '/' !in p by {
        forall i | 0 <= i < |p| ensures p[i] != '/' {
          if i >= |prefix| { assert p[i] == e[i - |prefix|]; }
        }
      }
      assert p[|p| - 1] == e[|e| - 1];
      BasenameOfSlashFree(p);
      LastDotSuffix(prefix, e);
    }
  }

  lemma {:induction false} BasenameOfSlashFree(p: string)
    requires '/' !in p
    ensures Basename(p) == p
  {
    if p != [] {
      BasenameOfSlashFree(p[..|p| - 1]);
      assert p == p[..|p| - 1] + [p[|p| - 1]];
    }
  }

  lemma LastDotAbsent(s: string)
    requires '.' !in s
    ensures LastDot(s) == |s|
  {
  }

  lemma LastDotSuffix(prefix: string, e: string)
    requires '.' !in prefix && e != [] && e[0] == '.' && '.' !in e[1..]
    ensures LastDot(prefix + e) == |prefix|
  {
    var s := prefix + e;
    var k := LastDot(s);
    assert s[|prefix|] == '.';
  }

  /** The last component of a path whose tail after a slash holds no slash is that tail. */
  lemma {:induction false} BasenameAfterSlash(dir: string, x: string)
    requires '/' !in x
    ensures Basename(dir + "/" + x) == x
  {
    var p := dir + "/" + x;
    if x != [] {
      assert p[..|p| - 1] == dir + "/" + x[..|x| - 1];
      BasenameAfterSlash(dir, x[..|x| - 1]);
      assert x == x[..|x| - 1] + [x[|x| - 1]];
    }
  }

  /** A file stored under a directory keeps the extension of its own name. */
  lemma ExtnameInDir(dir: string, x: string)
    requires x != [] && '/' !in x
    ensures Extname(dir + "/" + x) == Extname(x)
  {
    var p := dir + "/" + x;
    assert p[|p| - 1] == x[|x| - 1];
    BasenameAfterSlash(dir, x);
    BasenameOfSlashFree(x);
    assert x[|x| - 1] != '/';
  }
}
