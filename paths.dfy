/** The file-path operations the modelled code calls: Node's path.join on
    the JavaScript side and posixpath's basename, splitext, join and
    expanduser on the Python side. */
module Paths {
  import opened Strings

  // ---------------------------------------------------------------------
  // Node's path module
  // ---------------------------------------------------------------------

  /** path.join(dir, name): the two joined by one '/'. No normalisation is
      modelled; every directory the code joins comes from code that builds
      it without a trailing separator. */
  function Join(dir: string, name: string): (p: string)
    ensures |p| == |dir| + 1 + |name|
    ensures StartsWith(p, dir) && EndsWith(p, name) && p[|dir|] == '/'
  {
    dir + "/" + name
  }

  /** path.join(dir, n1, n2, ...), segment by segment; a '..' segment is
      kept as a segment, which names the same file as its normalised form. */
  function JoinAll(dir: string, names: seq<string>): (p: string)
    ensures |names| > 0 ==> StartsWith(p, dir + "/") && EndsWith(p, "/" + names[|names| - 1])
    decreases |names|
  {
    if |names| == 0 then dir
    else
      var next := Join(dir, names[0]);
      var p := JoinAll(next, names[1..]);
      assert next[..|dir| + 1] == dir + "/";
      assert |names[1..]| > 0 ==> p[..|dir| + 1] == p[..|next| + 1][..|dir| + 1];
      assert |names[1..]| > 0 ==> names[1..][|names[1..]| - 1] == names[|names| - 1];
      assert |names[1..]| == 0 ==> p == dir + ("/" + names[0]);
      p
  }

  // ---------------------------------------------------------------------
  // Python's posixpath
  // ---------------------------------------------------------------------

  /** os.path.basename: what follows the last '/'. */
  function Basename(p: string): (b: string)
    ensures forall i :: 0 <= i < |b| ==> b[i] != '/'
    ensures EndsWith(p, b)
    ensures |b| < |p| ==> p[|p| - |b| - 1] == '/'
  {
    p[LastIndexOf(p, '/') + 1..]
  }

  /** Some character of p strictly between positions lo and hi is not a '.'. */
  predicate NonDotBetween(p: string, lo: int, hi: int)
    requires -1 <= lo && hi <= |p|
  {
    exists i :: lo < i < hi && p[i] != '.'
  }

  /** Position k of p holds a '.' that begins an extension: it lies in the
      final path component, and some character before it in that component
      is neither '.' nor '/'. */
  predicate ExtensionDot(p: string, k: int)
  {
    0 <= k < |p| && p[k] == '.'
    && (forall m :: k < m < |p| ==> p[m] != '/')
    && exists j :: 0 <= j < k && p[j] != '.' && p[j] != '/' && forall m :: j < m < k ==> p[m] != '/'
  }

  /** os.path.splitext(p)[0]: p without its last extension. The extension
      starts at the last '.' of the final path component, provided some
      character before it in that component is not a '.' (so a leading dot
      does not begin an extension). */
  function SplitExtRoot(p: string): (root: string)
    ensures StartsWith(p, root)
    ensures |root| < |p| ==> ExtensionDot(p, |root|)
                             && forall i :: |root| < i < |p| ==> p[i] != '.'
    ensures |root| == |p| ==> forall k :: !ExtensionDot(p, k)
  {
    var sep := LastIndexOf(p, '/');
    var dot := LastIndexOf(p, '.');
    if dot > sep && NonDotBetween(p, sep, dot) then
      var j :| sep < j < dot && p[j] != '.';
      assert ExtensionDot(p, dot);
      p[..dot]
    else
      NoExtensionDot(p, sep, dot);
      p
  }

  /** When the last '.' does not begin an extension, every character
      before a '.' of the final component, within that component, is a '.'. */
  lemma NoExtensionDot(p: string, sep: int, dot: int)
    requires sep == LastIndexOf(p, '/') && dot == LastIndexOf(p, '.')
    requires !(dot > sep && NonDotBetween(p, sep, dot))
    ensures forall k, j :: 0 <= j < k < |p| && p[k] == '.'
              && (forall m :: k < m < |p| ==> p[m] != '/')
              && (forall m :: j < m < k ==> p[m] != '/')
              ==> p[j] == '.' || p[j] == '/'
  {
    forall k, j | 0 <= j < k < |p| && p[k] == '.'
                  && (forall m :: k < m < |p| ==> p[m] != '/')
                  && (forall m :: j < m < k ==> p[m] != '/')
      ensures p[j] == '.' || p[j] == '/'
    {
      NoExtensionDotAt(p, sep, dot, k, j);
    }
  }

  /** The previous lemma for one dot k and one earlier position j. */
  lemma NoExtensionDotAt(p: string, sep: int, dot: int, k: int, j: int)
    requires -1 <= sep < |p| && (sep >= 0 ==> p[sep] == '/') && forall i :: sep < i < |p| ==> p[i] != '/'
    requires -1 <= dot < |p| && forall i :: dot < i < |p| ==> p[i] != '.'
    requires !(dot > sep && NonDotBetween(p, sep, dot))
    requires 0 <= j < k < |p| && p[k] == '.'
    requires forall m :: k < m < |p| ==> p[m] != '/'
    requires forall m :: j < m < k ==> p[m] != '/'
    ensures p[j] == '.' || p[j] == '/'
  {
    assert k <= dot;
    assert sep < k;
    if j > sep && p[j] != '.' {
      assert sep < j < dot;
      assert NonDotBetween(p, sep, dot);
    }
    assert j >= sep;
  }

  /** os.path.join(a, b) on POSIX: an absolute b replaces a; otherwise a '/'
      is inserted unless a is empty or already ends with one. */
  function PyJoin(a: string, b: string): (p: string)
    ensures StartsWith(b, "/") ==> p == b
    ensures !StartsWith(b, "/") ==> EndsWith(p, b) && StartsWith(p, a)
  {
    if StartsWith(b, "/") then b
    else if |a| == 0 || EndsWith(a, "/") then a + b
    else a + "/" + b
  }

  /** Joining a relative name onto a directory without a trailing '/'
      inserts one '/'. */
  lemma PyJoinRelative(a: string, b: string)
    requires |a| > 0 && a[|a| - 1] != '/'
    requires |b| > 0 && b[0] != '/'
    ensures PyJoin(a, b) == a + "/" + b
  {
    assert !StartsWith(b, "/") by { assert b[..1] != "/"; }
    assert !EndsWith(a, "/") by { assert a[|a| - 1..] != "/"; }
  }

  /** os.path.expanduser("~/" + rest) with HOME set to home: the home
      directory with its trailing '/'s removed, then '/' and rest. */
  function ExpandHome(home: string, rest: string): (p: string)
    ensures EndsWith(p, "/" + rest)
    ensures var h := p[..|p| - |rest| - 1];
            StartsWith(home, h) && (forall i :: |h| <= i < |home| ==> home[i] == '/')
            && (|h| == 0 || h[|h| - 1] != '/')
  {
    TrimEnd(home, c => c == '/') + "/" + rest
  }

  lemma {:induction false} LastIndexOfIs(s: string, c: char, k: int)
    requires 0 <= k < |s| && s[k] == c
    requires forall i :: k < i < |s| ==> s[i] != c
    ensures LastIndexOf(s, c) == k
    decreases |s|
  {
    if k < |s| - 1 {
      LastIndexOfIs(s[..|s| - 1], c, k);
    }
  }

  lemma {:induction false} LastIndexOfAbsent(s: string, c: char)
    requires forall i :: 0 <= i < |s| ==> s[i] != c
    ensures LastIndexOf(s, c) == -1
    decreases |s|
  {
    if |s| > 0 {
      LastIndexOfAbsent(s[..|s| - 1], c);
    }
  }

  /** The base name of dir/name is name. */
  lemma BasenameOfJoin(dir: string, name: string)
    requires '/' !in name
    ensures Basename(Join(dir, name)) == name
  {
    var p := Join(dir, name);
    forall i | |dir| < i < |p| ensures p[i] != '/' {
      assert p[i] == name[i - |dir| - 1];
    }
    LastIndexOfIs(p, '/', |dir|);
  }

  /** A name made of a non-empty stem without '.' or '/', a '.', and an
      extension without '.' or '/' splits back into its stem. */
  lemma SplitExtOfStem(stem: string, ext: string)
    requires |stem| > 0 && '.' !in stem && '/' !in stem
    requires '.' !in ext && '/' !in ext
    ensures SplitExtRoot(stem + "." + ext) == stem
  {
    var p := stem + "." + ext;
    forall i | |stem| < i < |p| ensures p[i] != '.' {
      assert p[i] == ext[i - |stem| - 1];
    }
    LastIndexOfIs(p, '.', |stem|);
    forall i | 0 <= i < |p| ensures p[i] != '/' {
      if i < |stem| { assert p[i] == stem[i]; }
      else if i > |stem| { assert p[i] == ext[i - |stem| - 1]; }
    }
    LastIndexOfAbsent(p, '/');
    var sep := LastIndexOf(p, '/');
    var dot := LastIndexOf(p, '.');
    assert p[0] == stem[0] && stem[0] != '.';
    assert NonDotBetween(p, sep, dot);
    assert p[..dot] == stem;
  }
}
