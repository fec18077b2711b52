/**
 * The POSIX path operations the scanners and the web apps rely on:
 * `os.path.join` with two parts, `os.path.basename` and `os.path.dirname`.
 * `os.path.abspath` is taken to be the identity on already absolute,
 * normalised paths.
 */
module Paths {
  import opened Results
  import opened Text

  /** `os.path.join(a, b)`: an absolute `b` replaces `a`; otherwise one `/` separates them unless `a` is empty or ends in `/`. */
  function Join(a: string, b: string): (r: string)
    ensures StartsWith(b, "/") ==> r == b
    ensures !StartsWith(b, "/") ==> EndsWith(r, b) && StartsWith(r, a)
  {
    if StartsWith(b, "/") then b
    else if |a| == 0 || a[|a| - 1] == '/' then a + b
    else a + "/" + b
  }

  /** Index just after the last `/` of `p`, 0 when there is none: `p.rfind("/") + 1`. */
  function TailStart(p: string): (k: nat)
    ensures k <= |p|
    ensures '/' !in p[k..]
    ensures k > 0 ==> p[k - 1] == '/'
  {
    match LastIndexOf(p, '/')
    case None => 0
    case Some(i) => i + 1
  }

  /** `os.path.basename(p)`: what follows the last `/`. */
  function Basename(p: string): (r: string)
    ensures '/' !in r && EndsWith(p, r)
    ensures '/' !in p ==> r == p
  {
    p[TailStart(p)..]
  }

  /** `s.rstrip("/")` */
  function RStripSlashes(s: string): (r: string)
    ensures StartsWith(s, r)
    ensures |r| == 0 || r[|r| - 1] != '/'
    ensures forall i :: |r| <= i < |s| ==> s[i] == '/'
    decreases |s|
  {
    if |s| > 0 && s[|s| - 1] == '/' then RStripSlashes(s[..|s| - 1]) else s
  }

  /** `os.path.dirname(p)`: up to the last `/`, without trailing slashes unless it is all slashes. */
  function Dirname(p: string): string {
    var head := p[..TailStart(p)];
    if |head| > 0 && exists i :: 0 <= i < |head| && head[i] != '/' then RStripSlashes(head) else head
  }

  /** The base name of a joined path is the part that was joined, when that part is a plain file name. */
  lemma JoinBasename(root: string, name: string)
    requires '/' !in name
    ensures Basename(Join(root, name)) == name
  {
    var p := Join(root, name);
    NotAbsolute(name);
    var j := |p| - |name|;
    assert p[j..] == name;
    assert j == 0 || p[j - 1] == '/';
  }

  /** A name without `/` is not absolute. */
  lemma NotAbsolute(name: string)
    requires '/' !in name
    ensures !StartsWith(name, "/")
  {
    if |name| > 0 {
      assert name[..1][0] == name[0];
    }
  }

  /** The directory of `root` joined with a file name is `root` again, when `root` has no trailing slash. */
  lemma JoinDirname(root: string, name: string)
    requires '/' !in name
    requires |root| > 0 && root[|root| - 1] != '/'
    ensures Dirname(Join(root, name)) == root
  {
    var p := Join(root, name);
    NotAbsolute(name);
    assert p == root + "/" + name;
    JoinBasename(root, name);
    var k := TailStart(p);
    assert p[k..] == name;
    assert k == |root| + 1;
    var head := p[..k];
    assert head == root + "/";
    assert head[|root| - 1] != '/';
    assert RStripSlashes(head) == RStripSlashes(root) == root;
  }
}
