/**
 * Paths in ffmpeg.wasm's in-memory filesystem. The working directory is
 * the root, so `compressed_parts_video/part-0.mp4` and
 * `/compressed_parts_video/part-0.mp4` name the same file; a key is a path
 * with its leading slashes removed, and the root itself is the empty key.
 */
module Paths {

  /** How many slashes `p` starts with. */
  function LeadingSlashes(p: string): (n: nat)
    ensures n <= |p| && (n == |p| || p[n] != '/')
    ensures forall j :: 0 <= j < n ==> p[j] == '/'
  {
    if p != [] && p[0] == '/' then 1 + LeadingSlashes(p[1..]) else 0
  }

  /** The key a path denotes: the path without its leading slashes. */
  function Key(p: string): (k: string)
    ensures k == [] || k[0] != '/'
  {
    if p == [] || p[0] != '/' then p else p[LeadingSlashes(p)..]
  }

  /** A path that does not start with a slash is its own key. */
  lemma RelativeKey(p: string)
    requires p == [] || p[0] != '/'
    ensures Key(p) == p
  {
    assert LeadingSlashes(p) == 0;
  }

  /** A key that can name an entry: not the root, and no trailing slash. */
  predicate IsKey(k: string)
  {
    k != [] && k[0] != '/' && k[|k| - 1] != '/'
  }

  /** The directory holding a key: the text before its last slash, or the root. */
  function Parent(k: string): (d: string)
    ensures |d| < |k| || d == []
    decreases |k|
  {
    if k == [] then []
    else if k[|k| - 1] == '/' then k[..|k| - 1]
    else Parent(k[..|k| - 1])
  }

  /** A slash-free name placed in a directory has that directory as its parent. */
  lemma {:induction false} ParentOfChild(dir: string, name: string)
    requires '/' !in name
    ensures Parent(dir + "/" + name) == dir
    decreases |name|
  {
    var k := dir + "/" + name;
    if name == [] {
      assert k[..|k| - 1] == dir;
    } else {
      assert k[..|k| - 1] == dir + "/" + name[..|name| - 1];
      ParentOfChild(dir, name[..|name| - 1]);
    }
  }

  /** A leading slash does not change the key of a relative path. */
  lemma RootedKey(rel: string)
    requires rel != [] && rel[0] != '/'
    ensures Key("/" + rel) == rel
  {
    assert ("/" + rel)[1..] == rel;
  }
}
