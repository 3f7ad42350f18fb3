/**
 * `/`-separated paths: `os.path.dirname`, `os.path.basename` (POSIX flavour) and
 * `Base.slash`, which trims one leading and one trailing slash.
 */
module Paths {
  import opened Text

  predicate AllSlashes(s: string) { forall k :: 0 <= k < |s| ==> s[k] == '/' }

  /** `p.rfind('/') + 1`: where the last component of `p` starts. */
  function AfterLastSlash(p: string): (i: nat)
    ensures i <= |p|
    ensures i > 0 ==> p[i - 1] == '/'
    ensures forall k :: i <= k < |p| ==> p[k] != '/'
  {
    if p == [] then 0
    else if p[|p| - 1] == '/' then |p|
    else AfterLastSlash(p[..|p| - 1])
  }

  /** `s.rstrip('/')` */
  function RStripSlashes(s: string): (r: string)
    ensures |r| <= |s| && r == s[..|r|]
    ensures r == [] || r[|r| - 1] != '/'
    ensures forall k :: |r| <= k < |s| ==> s[k] == '/'
  {
    if s != [] && s[|s| - 1] == '/' then RStripSlashes(s[..|s| - 1]) else s
  }

  /**
   * `posixpath.dirname`: everything before the last slash, with trailing slashes
   * removed unless the head consists of slashes only.
   */
  function Dirname(p: string): string {
    var head := p[..AfterLastSlash(p)];
    if head != [] && !AllSlashes(head) then RStripSlashes(head) else head
  }

  /** `posixpath.basename`, which is also `p.split('/')[-1]`. */
  function Basename(p: string): (r: string)
    ensures '/' !in r
    ensures |r| <= |p| && r == p[|p| - |r|..]
  {
    p[AfterLastSlash(p)..]
  }

  /** `Base.slash`: drop one leading and one trailing `/`. */
  function Slash(p: string): string {
    var q := if |p| > 0 && p[0] == '/' then p[1..] else p;
    if |q| > 0 && q[|q| - 1] == '/' then q[..|q| - 1] else q
  }

  // ---------------------------------------------------------------------------
  // Lemmas

  /**
   * Joining a directory and a slash-free name with `/` and splitting again gives
   * the two parts back; the empty directory stands for `/`.
   */
  lemma DirnameOfJoin(d: string, name: string)
    requires '/' !in name
    requires d == [] || d[|d| - 1] != '/'
    ensures Dirname(d + "/" + name) == (if d == [] then "/" else d)
    ensures Basename(d + "/" + name) == name
  {
    var p := d + "/" + name;
    var i := AfterLastSlash(p);
    assert p[|d|] == '/';
    assert forall k :: |d| + 1 <= k < |p| ==> p[k] == name[k - |d| - 1];
    assert i == |d| + 1;
    var head := p[..i];
    assert head == d + "/";
    if d != [] {
      assert head[|d| - 1] != '/';
      var r := RStripSlashes(head);
      assert |r| == |d|;
      assert r == d;
    }
    assert p[i..] == name;
  }

  /** Only an empty or all-slash path is its own directory name. */
  lemma DirnameFixpoint(p: string)
    ensures Dirname(p) == p ==> AllSlashes(p)
  {
    var i := AfterLastSlash(p);
    var head := p[..i];
    if head != [] && !AllSlashes(head) {
      var r := RStripSlashes(head);
      assert head[|head| - 1] == '/';
      assert |Dirname(p)| < |p|;
    } else {
      assert Dirname(p) == p ==> head == p;
    }
  }

  /** Lower-casing never produces a slash, so an all-slash lower-cased path was already lower case. */
  lemma LowerAllSlashes(p: string)
    ensures AllSlashes(Lower(p)) ==> Lower(p) == p
  {
    if AllSlashes(Lower(p)) {
      forall k | 0 <= k < |p| ensures p[k] == '/' {
        assert Lower(p)[k] == LowerChar(p[k]);
      }
    }
  }

  /** `slash` undoes one surrounding pair of slashes and leaves a bare name alone. */
  lemma SlashTrims(s: string)
    ensures Slash("/" + s + "/") == s
    ensures (s == [] || (s[0] != '/' && s[|s| - 1] != '/')) ==> Slash(s) == s
  {
    assert ("/" + s + "/")[1..] == s + "/";
    assert (s + "/")[..|s|] == s;
  }
}
