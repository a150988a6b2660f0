/**
 * The cleanup at the end of `getData` is a run of awaited `deleteFile` and
 * `deleteDir` calls with nothing catching a rejection: the deletions happen
 * in order, and the first one refused ends the run. `Perform` is that rule
 * on its own, independent of the methods that issue the calls.
 */
module Deletions {
  import opened Wrappers
  import Paths
  import opened Workspace

  /** One awaited deletion. */
  datatype Deletion = FileAt(path: string) | DirAt(path: string)

  /** What a run of deletions did: the keys it removed, and whether every deletion succeeded. */
  datatype Sweep = Sweep(removed: set<string>, complete: bool)

  /** Why the filesystem refuses a deletion, if it does. */
  function DeletionError(m: map<string, Node>, d: Deletion): Option<FsError>
  {
    match d
    case FileAt(p) => DeleteFileError(m, p)
    case DirAt(p) => DeleteDirError(m, p)
  }

  /** The deletions in order, stopping at the first one the filesystem refuses. */
  function Perform(m: map<string, Node>, ds: seq<Deletion>): Sweep
  {
    if ds == [] then Sweep({}, true)
    else if DeletionError(m, ds[0]).Some? then Sweep({}, false)
    else
      var k := Paths.Key(ds[0].path);
      var rest := Perform(m - {k}, ds[1..]);
      Sweep({k} + rest.removed, rest.complete)
  }

  /** The keys a run of deletions targets. */
  function KeysOf(ds: seq<Deletion>): set<string>
  {
    if ds == [] then {} else {Paths.Key(ds[0].path)} + KeysOf(ds[1..])
  }

  /**
   * A run removes the keys of the deletions before the first refusal and
   * nothing else: it completes having removed every target, or it stops at
   * a deletion `j` that the filesystem, as the earlier ones left it, refuses.
   * Every key it removes was there.
   */
  lemma {:induction false} PerformStopsAtRefusal(m: map<string, Node>, ds: seq<Deletion>)
    ensures var s := Perform(m, ds);
      && s.removed <= m.Keys
      && (s.complete ==> s.removed == KeysOf(ds))
      && (!s.complete ==> exists j :: 0 <= j < |ds| && s.removed == KeysOf(ds[..j])
                                    && DeletionError(m - s.removed, ds[j]).Some?)
  {
    if ds != [] && DeletionError(m, ds[0]).None? {
      var k := Paths.Key(ds[0].path);
      var rest := Perform(m - {k}, ds[1..]);
      PerformStopsAtRefusal(m - {k}, ds[1..]);
      assert k in m by {
        match ds[0]
        case FileAt(p) =>
        case DirAt(p) =>
      }
      RemoveTwice(m, {k}, rest.removed);
      if !rest.complete {
        var j :| 0 <= j < |ds[1..]| && rest.removed == KeysOf(ds[1..][..j])
          && DeletionError((m - {k}) - rest.removed, ds[1..][j]).Some?;
        assert ds[..j + 1][1..] == ds[1..][..j];
        assert ds[j + 1] == ds[1..][j];
        assert KeysOf(ds[..j + 1]) == {k} + KeysOf(ds[1..][..j]);
      }
    } else if ds != [] {
      assert ds[..0] == [];
    }
  }

  /** Run `a`, and then, only if it completed, run `b` on what `a` left. */
  function JoinSweeps(m: map<string, Node>, a: seq<Deletion>, b: seq<Deletion>): Sweep
  {
    var s := Perform(m, a);
    if !s.complete then s
    else var t := Perform(m - s.removed, b); Sweep(s.removed + t.removed, t.complete)
  }

  /** Running `a` and then `b` is running `a + b`; when `a` stops, `b` is never reached. */
  lemma {:induction false} PerformAppend(m: map<string, Node>, a: seq<Deletion>, b: seq<Deletion>)
    ensures Perform(m, a + b) == JoinSweeps(m, a, b)
    decreases |a|
  {
    if a == [] {
      assert a + b == b;
      assert m - {} == m;
    } else {
      assert (a + b)[0] == a[0];
      assert (a + b)[1..] == a[1..] + b;
      if DeletionError(m, a[0]).None? {
        var k := Paths.Key(a[0].path);
        PerformAppend(m - {k}, a[1..], b);
        var rest := Perform(m - {k}, a[1..]);
        RemoveTwice(m, {k}, rest.removed);
      }
    }
  }

  /** One more deletion after a run that completed. */
  lemma PerformSnoc(m: map<string, Node>, ds: seq<Deletion>, d: Deletion)
    requires Perform(m, ds).complete
    ensures var s := Perform(m, ds);
      Perform(m, ds + [d]) ==
        if DeletionError(m - s.removed, d).Some? then Sweep(s.removed, false)
        else Sweep(s.removed + {Paths.Key(d.path)}, true)
  {
    var left := m - Perform(m, ds).removed;
    var k := Paths.Key(d.path);
    assert [d][0] == d && [d][1..] == [];
    assert Perform(left - {k}, []) == Sweep({}, true);
    PerformAppend(m, ds, [d]);
  }

  /** A run that stops within a prefix ends the same way whatever follows it. */
  lemma StopsWithinPrefix(m: map<string, Node>, a: seq<Deletion>, ab: seq<Deletion>)
    requires a <= ab && !Perform(m, a).complete
    ensures Perform(m, ab) == Perform(m, a)
  {
    var b := ab[|a|..];
    assert a + b == ab;
    PerformAppend(m, a, b);
  }

  lemma RemoveTwice(m: map<string, Node>, a: set<string>, b: set<string>)
    ensures (m - a) - b == m - (a + b)
  {
  }
}
