/**
 * The bookkeeping of `getData`: compressing every listed segment under its
 * numbered name, writing the two manifests, and deleting everything again.
 * The engine's media work is the opaque `Engine`; what `listDir` returns is
 * the opaque `Lister`, a function of the directory asked for and the state
 * of the filesystem.
 */
module Pipeline {
  import opened Wrappers
  import Paths
  import Commands
  import opened Naming
  import Manifest
  import opened Workspace
  import opened Deletions
  import Decimal

  /** What `listDir(dir)` returns in a given state: names and directory flags, in the library's order. */
  type Lister = (string, map<string, Node>) -> seq<Entry>

  // ---------------------------------------------------------------------
  // Compression of the listed segments
  // ---------------------------------------------------------------------

  /** The command that compresses the segment listed at position `i` of its raw directory. */
  function CompressCommand(kind: Kind, listing: seq<Entry>, i: nat): Commands.Argv
    requires i < |listing|
  {
    match kind
    case Video => Commands.CompressVideo(RawPartPath(Video, listing[i].name), CompressOutputPath(Video, i))
    case Audio => Commands.CompressAudio(RawPartPath(Audio, listing[i].name), CompressOutputPath(Audio, i))
  }

  /** The commands the compression loop issues for the first `n` entries. */
  function CompressPlan(kind: Kind, listing: seq<Entry>, n: nat): seq<Commands.Argv>
    requires n <= |listing|
  {
    if n == 0 then []
    else CompressPlan(kind, listing, n - 1) + (if listing[n - 1].isDir then [] else [CompressCommand(kind, listing, n - 1)])
  }

  /** One command per non-directory entry, in listing order. */
  lemma CompressPlanFollowsFiles(kind: Kind, listing: seq<Entry>, n: nat)
    requires n <= |listing|
    ensures var plan := CompressPlan(kind, listing, n); var ps := FilePositions(listing[..n]);
      |plan| == |ps| && forall j :: 0 <= j < |ps| ==> plan[j] == CompressCommand(kind, listing, ps[j])
  {
    var command := (i: nat) => if i < |listing| then CompressCommand(kind, listing, i) else [];
    CompressPlanIsForFiles(kind, listing, n, command);
    ForFilesFollowsFiles(listing, n, command);
  }

  /** The images under `f` of the positions of the non-directory entries among the first `n`, in order. */
  function ForFiles(listing: seq<Entry>, n: nat, f: nat -> Commands.Argv): seq<Commands.Argv>
    requires n <= |listing|
  {
    if n == 0 then []
    else ForFiles(listing, n - 1, f) + (if listing[n - 1].isDir then [] else [f(n - 1)])
  }

  lemma {:induction false} CompressPlanIsForFiles(kind: Kind, listing: seq<Entry>, n: nat, f: nat -> Commands.Argv)
    requires n <= |listing|
    requires forall i :: 0 <= i < |listing| ==> f(i) == CompressCommand(kind, listing, i)
    ensures CompressPlan(kind, listing, n) == ForFiles(listing, n, f)
  {
    if n > 0 {
      CompressPlanIsForFiles(kind, listing, n - 1, f);
    }
  }

  lemma {:induction false} ForFilesFollowsFiles(listing: seq<Entry>, n: nat, f: nat -> Commands.Argv)
    requires n <= |listing|
    ensures var ps := FilePositions(listing[..n]);
      |ForFiles(listing, n, f)| == |ps| && forall j :: 0 <= j < |ps| ==> ForFiles(listing, n, f)[j] == f(ps[j])
  {
    if n > 0 {
      ForFilesFollowsFiles(listing, n - 1, f);
      assert listing[..n][..n - 1] == listing[..n - 1];
      var ps, ps' := FilePositions(listing[..n]), FilePositions(listing[..n - 1]);
      if listing[n - 1].isDir {
        assert ps == ps' + [] == ps';
      } else {
        assert ps == ps' + [n - 1];
        AppendMatches(ForFiles(listing, n - 1, f), ps', f, n - 1);
      }
    }
  }

  /** Appending `f(x)` and `x` to a sequence that follows `f` over positions keeps it following. */
  lemma AppendMatches(plan: seq<Commands.Argv>, ps: seq<nat>, f: nat -> Commands.Argv, x: nat)
    requires |plan| == |ps| && forall j :: 0 <= j < |ps| ==> plan[j] == f(ps[j])
    ensures |plan + [f(x)]| == |ps + [x]|
    ensures forall j :: 0 <= j < |ps + [x]| ==> (plan + [f(x)])[j] == f((ps + [x])[j])
  {
  }

  /** The encoder the compression of a kind selects. */
  function Encoder(kind: Kind): string
  {
    match kind
    case Video => "libx264"
    case Audio => "aac"
  }

  /** `argv` reads `input` and writes `output` alone, encoding with `encoder`. */
  predicate CompressesTo(argv: Commands.Argv, input: string, output: string, encoder: string)
  {
    && Commands.Parse(argv).Some?
    && Commands.Parse(argv).value.inputs == [Commands.FileArg([], input)]
    && |Commands.Parse(argv).value.outputs| == 1
    && Commands.Parse(argv).value.outputs[0].path == output
    && Commands.Encoders(Commands.Parse(argv).value) == {encoder}
  }

  lemma CompressCommandMeaning(kind: Kind, listing: seq<Entry>, i: nat)
    requires i < |listing|
    ensures CompressesTo(CompressCommand(kind, listing, i), RawPartPath(kind, listing[i].name),
                         CompressOutputPath(kind, i), Encoder(kind))
  {
    Commands.CompressStagesEncode(RawPartPath(kind, listing[i].name), CompressOutputPath(kind, i));
  }

  /**
   * Each non-directory entry at listing position `i` is compressed from
   * `/<raw dir>/<its name>` to `compressed_parts_<kind>/part-(i-2).<ext>`,
   * with that kind's encoder, in listing order; directory entries get no
   * command, and no two commands write the same file.
   */
  lemma CompressPlanOutputs(kind: Kind, listing: seq<Entry>)
    ensures var plan := CompressPlan(kind, listing, |listing|); var ps := FilePositions(listing);
      && |plan| == |ps| == FileCount(listing)
      && (forall j :: 0 <= j < |ps| ==>
            CompressesTo(plan[j], RawPartPath(kind, listing[ps[j]].name), CompressOutputPath(kind, ps[j]), Encoder(kind)))
      && (forall j, l :: 0 <= j < l < |ps| ==> CompressOutputPath(kind, ps[j]) != CompressOutputPath(kind, ps[l]))
  {
    var plan := CompressPlan(kind, listing, |listing|);
    var ps := FilePositions(listing);
    CompressPlanFollowsFiles(kind, listing, |listing|);
    assert listing[..|listing|] == listing;
    FilePositionsCount(listing);
    forall j | 0 <= j < |ps|
      ensures CompressesTo(plan[j], RawPartPath(kind, listing[ps[j]].name), CompressOutputPath(kind, ps[j]), Encoder(kind))
    {
      CompressCommandMeaning(kind, listing, ps[j]);
    }
    forall j, l | 0 <= j < l < |ps|
      ensures CompressOutputPath(kind, ps[j]) != CompressOutputPath(kind, ps[l])
    {
      CompressOutputPathInjective(kind, ps[j], kind, ps[l]);
    }
  }

  /** The filesystem after one `exec`: the engine's output files land where the filesystem allows. */
  function Run(m: map<string, Node>, argv: Commands.Argv, engine: Engine): map<string, Node>
  {
    m + Produced(m, engine(argv))
  }

  /** Everything the engine writes while running `plan`, one command after the other. */
  function RunAll(m: map<string, Node>, plan: seq<Commands.Argv>, engine: Engine): map<string, Node>
  {
    if plan == [] then m
    else Run(RunAll(m, plan[..|plan| - 1], engine), plan[|plan| - 1], engine)
  }

  /**
   * Running commands never removes an entry and never turns a directory
   * into a file: the engine writes only where a file could be written.
   */
  lemma {:induction false} RunAllKeeps(m: map<string, Node>, plan: seq<Commands.Argv>, engine: Engine)
    ensures forall k :: k in m ==> k in RunAll(m, plan, engine)
    ensures forall k :: k in m && m[k].Dir? ==> RunAll(m, plan, engine)[k].Dir?
    decreases |plan|
  {
    if plan != [] {
      RunAllKeeps(m, plan[..|plan| - 1], engine);
    }
  }

  /** Three commands run one after the other. */
  lemma RunThree(m: map<string, Node>, plan: seq<Commands.Argv>, engine: Engine)
    requires |plan| == 3
    ensures RunAll(m, plan, engine) == Run(Run(Run(m, plan[0], engine), plan[1], engine), plan[2], engine)
  {
    var two, one := plan[..2], plan[..1];
    assert two[..1] == one && two[1] == plan[1] && one[..0] == [] && one[0] == plan[0];
    assert RunAll(m, one, engine) == Run(m, plan[0], engine);
    assert RunAll(m, two, engine) == Run(RunAll(m, one, engine), plan[1], engine);
  }

  /** The compression loop over one raw directory's listing (`compressVideo` / `compressAudio` per entry). */
  method CompressParts(ws: Workspace, kind: Kind, listing: seq<Entry>, engine: Engine)
    requires ws.Valid()
    modifies ws
    ensures ws.Valid()
    ensures ws.commands == old(ws.commands) + CompressPlan(kind, listing, |listing|)
    ensures ws.entries == RunAll(old(ws.entries), CompressPlan(kind, listing, |listing|), engine)
  {
    for i := 0 to |listing|
      invariant ws.Valid()
      invariant ws.commands == old(ws.commands) + CompressPlan(kind, listing, i)
      invariant ws.entries == RunAll(old(ws.entries), CompressPlan(kind, listing, i), engine)
    {
      CompressStep(old(ws.commands), old(ws.entries), kind, listing, i, engine);
      if !listing[i].isDir {
        ws.Exec(CompressCommand(kind, listing, i), engine);
      }
    }
  }

  /** One more command runs on what the earlier ones left. */
  lemma RunAllSnoc(m: map<string, Node>, plan: seq<Commands.Argv>, argv: Commands.Argv, engine: Engine)
    ensures RunAll(m, plan + [argv], engine) == Run(RunAll(m, plan, engine), argv, engine)
  {
    assert (plan + [argv])[..|plan|] == plan;
  }

  /** What one turn of the compression loop does to the log and the filesystem. */
  lemma CompressStep(log: seq<Commands.Argv>, m: map<string, Node>, kind: Kind, listing: seq<Entry>, i: nat, engine: Engine)
    requires i < |listing|
    ensures var plan := CompressPlan(kind, listing, i); var entries := RunAll(m, plan, engine);
      if listing[i].isDir then
        log + CompressPlan(kind, listing, i + 1) == log + plan &&
        RunAll(m, CompressPlan(kind, listing, i + 1), engine) == entries
      else
        var argv := CompressCommand(kind, listing, i);
        log + CompressPlan(kind, listing, i + 1) == (log + plan) + [argv] &&
        RunAll(m, CompressPlan(kind, listing, i + 1), engine) == Run(entries, argv, engine)
  {
    var plan := CompressPlan(kind, listing, i);
    if listing[i].isDir {
      assert CompressPlan(kind, listing, i + 1) == plan + [] == plan;
    } else {
      RunAllSnoc(m, plan, CompressCommand(kind, listing, i), engine);
    }
  }

  // ---------------------------------------------------------------------
  // Cleanup
  // ---------------------------------------------------------------------

  /** `k` is the directory `d` or lies somewhere below it. */
  predicate UnderDir(k: string, d: string)
  {
    k == d || (|k| > |d| && k[..|d| + 1] == d + "/")
  }

  /** The keys the compressed-part deletion loop targets among the first `n` entries. */
  function PartKeys(kind: Kind, listing: seq<Entry>, n: nat): set<string>
    requires n <= |listing|
  {
    if n == 0 then {}
    else PartKeys(kind, listing, n - 1) + (if listing[n - 1].isDir then {} else {CompressOutputPath(kind, n - 1)})
  }

  /** The key of the raw part with the listed name. */
  function RawKey(kind: Kind, name: string): string
  {
    RawDir(kind) + "/" + name
  }

  /** The keys the raw-part deletion loop targets among the first `n` entries. */
  function RawKeys(kind: Kind, listing: seq<Entry>, n: nat): set<string>
    requires n <= |listing|
  {
    if n == 0 then {}
    else RawKeys(kind, listing, n - 1) + (if listing[n - 1].isDir then {} else {RawKey(kind, listing[n - 1].name)})
  }

  /** The deletions the compressed-part loop issues among the first `n` entries, in order. */
  function PartDeletions(kind: Kind, listing: seq<Entry>, n: nat): seq<Deletion>
    requires n <= |listing|
  {
    if n == 0 then []
    else PartDeletions(kind, listing, n - 1) + (if listing[n - 1].isDir then [] else [FileAt(AbsolutePartPath(kind, n - 1))])
  }

  /** The deletions the raw-part loop issues among the first `n` entries, in order. */
  function RawDeletions(kind: Kind, listing: seq<Entry>, n: nat): seq<Deletion>
    requires n <= |listing|
  {
    if n == 0 then []
    else RawDeletions(kind, listing, n - 1) + (if listing[n - 1].isDir then [] else [FileAt(RawPartPath(kind, listing[n - 1].name))])
  }

  /** Once the loop's run of deletions stops, the rest of the listing is never reached. */
  lemma PartSweepStops(m: map<string, Node>, kind: Kind, listing: seq<Entry>, i: nat)
    requires i <= |listing| && !Perform(m, PartDeletions(kind, listing, i)).complete
    ensures Perform(m, PartDeletions(kind, listing, |listing|)) == Perform(m, PartDeletions(kind, listing, i))
  {
    PartDeletionsGrow(kind, listing, i, |listing|);
    StopsWithinPrefix(m, PartDeletions(kind, listing, i), PartDeletions(kind, listing, |listing|));
  }

  lemma {:induction false} PartDeletionsGrow(kind: Kind, listing: seq<Entry>, i: nat, n: nat)
    requires i <= n <= |listing|
    ensures PartDeletions(kind, listing, i) <= PartDeletions(kind, listing, n)
    decreases n
  {
    if i < n {
      PartDeletionsGrow(kind, listing, i, n - 1);
    }
  }

  /** Once the loop's run of deletions stops, the rest of the listing is never reached. */
  lemma RawSweepStops(m: map<string, Node>, kind: Kind, listing: seq<Entry>, i: nat)
    requires i <= |listing| && !Perform(m, RawDeletions(kind, listing, i)).complete
    ensures Perform(m, RawDeletions(kind, listing, |listing|)) == Perform(m, RawDeletions(kind, listing, i))
  {
    RawDeletionsGrow(kind, listing, i, |listing|);
    StopsWithinPrefix(m, RawDeletions(kind, listing, i), RawDeletions(kind, listing, |listing|));
  }

  lemma {:induction false} RawDeletionsGrow(kind: Kind, listing: seq<Entry>, i: nat, n: nat)
    requires i <= n <= |listing|
    ensures RawDeletions(kind, listing, i) <= RawDeletions(kind, listing, n)
    decreases n
  {
    if i < n {
      RawDeletionsGrow(kind, listing, i, n - 1);
    }
  }

  /** One more turn of the compressed-part loop, as a run of deletions. */
  lemma PartSweepStep(m: map<string, Node>, kind: Kind, listing: seq<Entry>, i: nat)
    requires i < |listing|
    requires Perform(m, PartDeletions(kind, listing, i)) == Sweep(PartKeys(kind, listing, i), true)
    ensures listing[i].isDir || DeleteFileError(m - PartKeys(kind, listing, i), AbsolutePartPath(kind, i)).None? ==>
      Perform(m, PartDeletions(kind, listing, i + 1)) == Sweep(PartKeys(kind, listing, i + 1), true)
    ensures !listing[i].isDir && DeleteFileError(m - PartKeys(kind, listing, i), AbsolutePartPath(kind, i)).Some? ==>
      Perform(m, PartDeletions(kind, listing, i + 1)) == Sweep(PartKeys(kind, listing, i), false)
  {
    var before := PartDeletions(kind, listing, i);
    if listing[i].isDir {
      assert PartDeletions(kind, listing, i + 1) == before + [] == before;
      assert PartKeys(kind, listing, i + 1) == PartKeys(kind, listing, i) + {};
    } else {
      var d := FileAt(AbsolutePartPath(kind, i));
      assert PartDeletions(kind, listing, i + 1) == before + [d];
      PerformSnoc(m, before, d);
      AbsoluteKey(kind, i);
    }
  }

  /** One more turn of the raw-part loop, as a run of deletions. */
  lemma RawSweepStep(m: map<string, Node>, kind: Kind, listing: seq<Entry>, i: nat)
    requires i < |listing|
    requires Perform(m, RawDeletions(kind, listing, i)) == Sweep(RawKeys(kind, listing, i), true)
    ensures listing[i].isDir || DeleteFileError(m - RawKeys(kind, listing, i), RawPartPath(kind, listing[i].name)).None? ==>
      Perform(m, RawDeletions(kind, listing, i + 1)) == Sweep(RawKeys(kind, listing, i + 1), true)
    ensures !listing[i].isDir && DeleteFileError(m - RawKeys(kind, listing, i), RawPartPath(kind, listing[i].name)).Some? ==>
      Perform(m, RawDeletions(kind, listing, i + 1)) == Sweep(RawKeys(kind, listing, i), false)
  {
    var before := RawDeletions(kind, listing, i);
    if listing[i].isDir {
      assert RawDeletions(kind, listing, i + 1) == before + [] == before;
      assert RawKeys(kind, listing, i + 1) == RawKeys(kind, listing, i) + {};
    } else {
      var d := FileAt(RawPartPath(kind, listing[i].name));
      assert RawDeletions(kind, listing, i + 1) == before + [d];
      PerformSnoc(m, before, d);
      RawKeyUnderDir(kind, listing[i].name);
    }
  }

  /**
   * The compressed-part cleanup targets exactly the names the compression
   * step wrote for the same positions.
   */
  lemma {:induction false} PartKeysAreCompressOutputs(kind: Kind, listing: seq<Entry>, n: nat)
    requires n <= |listing|
    ensures forall i :: 0 <= i < n && !listing[i].isDir ==> CompressOutputPath(kind, i) in PartKeys(kind, listing, n)
    ensures forall k :: k in PartKeys(kind, listing, n) ==>
      exists i :: 0 <= i < n && !listing[i].isDir && k == CompressOutputPath(kind, i)
  {
    if n > 0 {
      PartKeysAreCompressOutputs(kind, listing, n - 1);
      forall k | k in PartKeys(kind, listing, n)
        ensures exists i :: 0 <= i < n && !listing[i].isDir && k == CompressOutputPath(kind, i)
      {
        if k !in PartKeys(kind, listing, n - 1) {
          assert !listing[n - 1].isDir && k == CompressOutputPath(kind, n - 1);
        }
      }
    }
  }

  /** Every compressed-part key the cleanup targets lies directly in the compressed directory of its kind. */
  lemma {:induction false} PartKeysInCompressedDir(kind: Kind, listing: seq<Entry>, n: nat)
    requires n <= |listing|
    ensures forall k :: k in PartKeys(kind, listing, n) ==> Paths.Parent(k) == CompressedDir(kind)
  {
    if n > 0 {
      PartKeysInCompressedDir(kind, listing, n - 1);
      PartParent(kind, n - 1);
    }
  }

  /** Every compressed-part key the cleanup targets lies below the compressed directory of its kind. */
  lemma {:induction false} PartKeysUnderDir(kind: Kind, listing: seq<Entry>, n: nat)
    requires n <= |listing|
    ensures forall k :: k in PartKeys(kind, listing, n) ==> UnderDir(k, CompressedDir(kind))
  {
    if n > 0 {
      PartKeysUnderDir(kind, listing, n - 1);
      PartUnderDir(kind, n - 1);
    }
  }

  lemma PartUnderDir(kind: Kind, i: nat)
    ensures UnderDir(CompressOutputPath(kind, i), CompressedDir(kind))
  {
    PartUnderDirShape(kind, Decimal.IntToString(PartNumber(i)));
  }

  lemma PartUnderDirShape(kind: Kind, n: string)
    ensures UnderDir(CompressedDir(kind) + "/part-" + n + "." + PartExtension(kind), CompressedDir(kind))
  {
    var d := CompressedDir(kind);
    var k := d + "/part-" + n + "." + PartExtension(kind);
    assert k[..|d| + 1] == d + "/";
  }

  /** Every raw-part key the cleanup targets lies below the raw directory of its kind. */
  lemma {:induction false} RawKeysUnderDir(kind: Kind, listing: seq<Entry>, n: nat)
    requires n <= |listing|
    ensures forall k :: k in RawKeys(kind, listing, n) ==> UnderDir(k, RawDir(kind))
  {
    if n > 0 {
      RawKeysUnderDir(kind, listing, n - 1);
      RawKeyUnderDir(kind, listing[n - 1].name);
    }
  }

  /** The raw part `/parts_<kind>/<name>` is the key `parts_<kind>/<name>`, below the raw directory. */
  lemma RawKeyUnderDir(kind: Kind, name: string)
    ensures Paths.Key(RawPartPath(kind, name)) == RawKey(kind, name)
    ensures UnderDir(RawKey(kind, name), RawDir(kind))
  {
    var rel := RawKey(kind, name);
    assert RawPartPath(kind, name) == "/" + rel;
    assert rel[0] == 'p';
    Paths.RootedKey(rel);
    assert rel[..|RawDir(kind)| + 1] == RawDir(kind) + "/";
  }

  /** One more compressed part deleted is the next prefix of `PartKeys` removed. */
  lemma PartDeleteStep(m: map<string, Node>, kind: Kind, listing: seq<Entry>, i: nat)
    requires i < |listing|
    ensures listing[i].isDir ==> PartKeys(kind, listing, i + 1) == PartKeys(kind, listing, i)
    ensures !listing[i].isDir ==>
      (m - PartKeys(kind, listing, i)) - {Paths.Key(AbsolutePartPath(kind, i))} == m - PartKeys(kind, listing, i + 1)
  {
    AbsoluteKey(kind, i);
  }

  /** One more raw part deleted is the next prefix of `RawKeys` removed. */
  lemma RawDeleteStep(m: map<string, Node>, kind: Kind, listing: seq<Entry>, i: nat)
    requires i < |listing|
    ensures listing[i].isDir ==> RawKeys(kind, listing, i + 1) == RawKeys(kind, listing, i)
    ensures !listing[i].isDir ==>
      (m - RawKeys(kind, listing, i)) - {Paths.Key(RawPartPath(kind, listing[i].name))} == m - RawKeys(kind, listing, i + 1)
  {
    RawKeyUnderDir(kind, listing[i].name);
  }

  /** One turn of the compressed part loop: entry `i` is skipped when it is a directory and deleted otherwise. */
  method DeletePart(ws: Workspace, kind: Kind, listing: seq<Entry>, i: nat, ghost m: map<string, Node>)
    returns (r: Outcome<FsError>)
    requires ws.Valid() && i < |listing|
    requires ws.entries == m - PartKeys(kind, listing, i)
    requires Perform(m, PartDeletions(kind, listing, i)) == Sweep(PartKeys(kind, listing, i), true)
    modifies ws
    ensures ws.Valid() && ws.commands == old(ws.commands)
    ensures r.Pass? ==>
      && ws.entries == m - PartKeys(kind, listing, i + 1)
      && Perform(m, PartDeletions(kind, listing, i + 1)) == Sweep(PartKeys(kind, listing, i + 1), true)
    ensures r.Fail? ==>
      && !listing[i].isDir && ws.entries == old(ws.entries)
      && DeleteFileError(ws.entries, AbsolutePartPath(kind, i)).Some?
      && Perform(m, PartDeletions(kind, listing, i + 1)) == Sweep(PartKeys(kind, listing, i), false)
  {
    PartSweepStep(m, kind, listing, i);
    PartDeleteStep(m, kind, listing, i);
    r := Pass;
    if !listing[i].isDir {
      r := ws.DeleteFile(AbsolutePartPath(kind, i));
    }
  }

  /** The loop deleting `/compressed_parts_<kind>/part-(i-2).<ext>` for every file entry. */
  method DeletePartFiles(ws: Workspace, kind: Kind, listing: seq<Entry>) returns (r: Outcome<FsError>, ghost done: nat)
    requires ws.Valid()
    modifies ws
    ensures ws.Valid() && ws.commands == old(ws.commands)
    ensures done <= |listing|
    ensures ws.entries == old(ws.entries) - PartKeys(kind, listing, done)
    ensures r.Pass? <==> done == |listing|
    ensures r.Fail? ==> !listing[done].isDir && DeleteFileError(ws.entries, AbsolutePartPath(kind, done)).Some?
    ensures Perform(old(ws.entries), PartDeletions(kind, listing, |listing|)) == Sweep(PartKeys(kind, listing, done), r.Pass?)
  {
    ghost var m := ws.entries;
    r := Pass;
    for i := 0 to |listing|
      invariant ws.Valid() && ws.commands == old(ws.commands)
      invariant ws.entries == m - PartKeys(kind, listing, i)
      invariant Perform(m, PartDeletions(kind, listing, i)) == Sweep(PartKeys(kind, listing, i), true)
      invariant r == Pass
    {
      r := DeletePart(ws, kind, listing, i, m);
      if r.Fail? {
        done := i;
        PartSweepStops(m, kind, listing, i + 1);
        return;
      }
    }
    done := |listing|;
  }

  /** One turn of the raw part loop: entry `i` is skipped when it is a directory and deleted otherwise. */
  method DeleteRaw(ws: Workspace, kind: Kind, listing: seq<Entry>, i: nat, ghost m: map<string, Node>)
    returns (r: Outcome<FsError>)
    requires ws.Valid() && i < |listing|
    requires ws.entries == m - RawKeys(kind, listing, i)
    requires Perform(m, RawDeletions(kind, listing, i)) == Sweep(RawKeys(kind, listing, i), true)
    modifies ws
    ensures ws.Valid() && ws.commands == old(ws.commands)
    ensures r.Pass? ==>
      && ws.entries == m - RawKeys(kind, listing, i + 1)
      && Perform(m, RawDeletions(kind, listing, i + 1)) == Sweep(RawKeys(kind, listing, i + 1), true)
    ensures r.Fail? ==>
      && !listing[i].isDir && ws.entries == old(ws.entries)
      && DeleteFileError(ws.entries, RawPartPath(kind, listing[i].name)).Some?
      && Perform(m, RawDeletions(kind, listing, i + 1)) == Sweep(RawKeys(kind, listing, i), false)
  {
    RawSweepStep(m, kind, listing, i);
    RawDeleteStep(m, kind, listing, i);
    r := Pass;
    if !listing[i].isDir {
      r := ws.DeleteFile(RawPartPath(kind, listing[i].name));
    }
  }

  /** The loop deleting `/parts_<kind>/<name>` for every file entry. */
  method DeleteRawFiles(ws: Workspace, kind: Kind, listing: seq<Entry>) returns (r: Outcome<FsError>, ghost done: nat)
    requires ws.Valid()
    modifies ws
    ensures ws.Valid() && ws.commands == old(ws.commands)
    ensures done <= |listing|
    ensures ws.entries == old(ws.entries) - RawKeys(kind, listing, done)
    ensures r.Pass? <==> done == |listing|
    ensures r.Fail? ==> !listing[done].isDir && DeleteFileError(ws.entries, RawPartPath(kind, listing[done].name)).Some?
    ensures Perform(old(ws.entries), RawDeletions(kind, listing, |listing|)) == Sweep(RawKeys(kind, listing, done), r.Pass?)
  {
    ghost var m := ws.entries;
    r := Pass;
    for i := 0 to |listing|
      invariant ws.Valid() && ws.commands == old(ws.commands)
      invariant ws.entries == m - RawKeys(kind, listing, i)
      invariant Perform(m, RawDeletions(kind, listing, i)) == Sweep(RawKeys(kind, listing, i), true)
      invariant r == Pass
    {
      r := DeleteRaw(ws, kind, listing, i, m);
      if r.Fail? {
        done := i;
        RawSweepStops(m, kind, listing, i + 1);
        return;
      }
    }
    done := |listing|;
  }

  /** The files the first cleanup step deletes: the upload, the result and the two manifests. */
  function JobFileKeys(video: string): set<string>
  {
    {Paths.Key(video), "output.mp4", "video_parts.txt", "audio_parts.txt"}
  }

  /** The intermediate streams the last cleanup step deletes, by their fixed names. */
  function StreamKeys(): set<string>
  {
    {"output-compressed.mp4", "output-compressed.aac", "output-video.mp4", "output-audio.aac"}
  }

  /** The deletions of the first cleanup step, in order. */
  function JobFileDeletions(video: string): seq<Deletion>
  {
    [FileAt(video), FileAt("output.mp4"), FileAt("video_parts.txt"), FileAt("audio_parts.txt")]
  }

  /** The deletions of the second cleanup step: the audio parts, the video parts, then both directories. */
  function CompressedStageDeletions(audioListing: seq<Entry>, videoListing: seq<Entry>): seq<Deletion>
  {
    PartDeletions(Audio, audioListing, |audioListing|) + PartDeletions(Video, videoListing, |videoListing|)
    + [DirAt(CompressedDir(Audio)), DirAt(CompressedDir(Video))]
  }

  /** The deletions of the third cleanup step: the audio parts, the video parts, then both directories. */
  function RawStageDeletions(audioListing: seq<Entry>, videoListing: seq<Entry>): seq<Deletion>
  {
    RawDeletions(Audio, audioListing, |audioListing|) + RawDeletions(Video, videoListing, |videoListing|)
    + [DirAt(RawDir(Audio)), DirAt(RawDir(Video))]
  }

  /** The deletions of the last cleanup step, in order. */
  function StreamDeletions(): seq<Deletion>
  {
    [FileAt("output-compressed.mp4"), FileAt("output-compressed.aac"), FileAt("output-video.mp4"), FileAt("output-audio.aac")]
  }

  /** The deletions after the job files: both stages, then the streams. */
  function WorkingDeletions(compressedAudio: seq<Entry>, compressedVideo: seq<Entry>,
                            rawAudio: seq<Entry>, rawVideo: seq<Entry>): seq<Deletion>
  {
    CompressedStageDeletions(compressedAudio, compressedVideo) + RawStageDeletions(rawAudio, rawVideo)
    + StreamDeletions()
  }

  /** Every deletion of the cleanup, in the order issued, given the four listings it takes. */
  function CleanupDeletions(video: string, compressedAudio: seq<Entry>, compressedVideo: seq<Entry>,
                            rawAudio: seq<Entry>, rawVideo: seq<Entry>): seq<Deletion>
  {
    JobFileDeletions(video) + WorkingDeletions(compressedAudio, compressedVideo, rawAudio, rawVideo)
  }

  /** The four working directories. */
  function StageDirs(): set<string>
  {
    {CompressedDir(Audio), CompressedDir(Video), RawDir(Audio), RawDir(Video)}
  }

  /** `k` is one of the working directories or lies below one of them. */
  predicate InStageDir(k: string)
  {
    exists d :: d in StageDirs() && UnderDir(k, d)
  }

  /** A top-level name starting with `o` is outside every working directory. */
  lemma OutsideStageDirs(k: string)
    requires k != [] && k[0] == 'o'
    ensures !InStageDir(k)
  {
    forall d | d in StageDirs() ensures !UnderDir(k, d) {
      assert d[0] == 'c' || d[0] == 'p';
      if |k| > |d| && k[..|d| + 1] == d + "/" {
        assert k[0] == k[..|d| + 1][0] == d[0];
      }
    }
  }

  /** Two pairs of deletions, the second after the first completed, remove at most, or on success exactly, the four keys. */
  lemma PairsJoin(a: set<string>, b: set<string>, w: string, x: string, y: string, z: string)
    requires a == {w, x} && b <= {y, z}
    ensures a + b <= {w, x, y, z}
    ensures b == {y, z} ==> a + b == {w, x, y, z}
  {
  }

  /** Adding the two directories themselves keeps every removed key below one of them. */
  lemma StageRemoved(parts: set<string>, dirs: set<string>, first: string, second: string)
    requires forall k :: k in parts ==> UnderDir(k, first) || UnderDir(k, second)
    requires dirs <= {first, second}
    ensures forall k :: k in parts + dirs ==> UnderDir(k, first) || UnderDir(k, second)
  {
  }

  /** Removing two sets of keys one after the other removes their union. */
  /** Two deletions in a row. */
  lemma PairSweep(m: map<string, Node>, first: Deletion, second: Deletion)
    ensures var k := Paths.Key(first.path);
      Perform(m, [first, second]) ==
        if DeletionError(m, first).Some? then Sweep({}, false)
        else if DeletionError(m - {k}, second).Some? then Sweep({k}, false)
        else Sweep({k, Paths.Key(second.path)}, true)
  {
    var k, k2 := Paths.Key(first.path), Paths.Key(second.path);
    assert [first, second][1..] == [second];
    assert [second][1..] == [];
    assert Perform(m - {k} - {k2}, []) == Sweep({}, true);
    if DeletionError(m, first).None? && DeletionError(m - {k}, second).None? {
      assert Perform(m - {k}, [second]) == Sweep({k2}, true);
    }
  }

  /** Two `deleteFile` calls in a row; the second is issued only when the first succeeds. */
  method DeleteFilePair(ws: Workspace, first: string, second: string) returns (r: Outcome<FsError>, ghost removed: set<string>)
    requires ws.Valid()
    modifies ws
    ensures ws.Valid() && ws.commands == old(ws.commands)
    ensures ws.entries == old(ws.entries) - removed
    ensures removed <= {Paths.Key(first), Paths.Key(second)}
    ensures r.Pass? ==> removed == {Paths.Key(first), Paths.Key(second)}
    ensures Paths.Key(first) !in old(ws.entries) ==> r.Fail? && removed == {}
    ensures Perform(old(ws.entries), [FileAt(first), FileAt(second)]) == Sweep(removed, r.Pass?)
  {
    PairSweep(old(ws.entries), FileAt(first), FileAt(second));
    removed := {};
    r := ws.DeleteFile(first);
    if r.Fail? { return; }
    removed := {Paths.Key(first)};
    RemoveTwice(old(ws.entries), removed, {Paths.Key(second)});
    r := ws.DeleteFile(second);
    if r.Fail? { return; }
    removed := removed + {Paths.Key(second)};
  }

  /** Two `deleteDir` calls in a row; the second is issued only when the first succeeds. */
  method DeleteDirPair(ws: Workspace, first: string, second: string) returns (r: Outcome<FsError>, ghost removed: set<string>)
    requires ws.Valid()
    modifies ws
    ensures ws.Valid() && ws.commands == old(ws.commands)
    ensures ws.entries == old(ws.entries) - removed
    ensures removed <= {Paths.Key(first), Paths.Key(second)}
    ensures r.Pass? ==> removed == {Paths.Key(first), Paths.Key(second)}
    ensures Perform(old(ws.entries), [DirAt(first), DirAt(second)]) == Sweep(removed, r.Pass?)
  {
    PairSweep(old(ws.entries), DirAt(first), DirAt(second));
    removed := {};
    r := ws.DeleteDir(first);
    if r.Fail? { return; }
    removed := {Paths.Key(first)};
    RemoveTwice(old(ws.entries), removed, {Paths.Key(second)});
    r := ws.DeleteDir(second);
    if r.Fail? { return; }
    removed := removed + {Paths.Key(second)};
  }

  /** Cleanup, first step: the upload, `output.mp4` and the two manifests. */
  method DeleteJobFiles(ws: Workspace, video: string) returns (r: Outcome<FsError>, ghost removed: set<string>)
    requires ws.Valid()
    modifies ws
    ensures ws.Valid() && ws.commands == old(ws.commands)
    ensures ws.entries == old(ws.entries) - removed
    ensures removed <= JobFileKeys(video)
    ensures r.Pass? ==> removed == JobFileKeys(video)
    ensures Perform(old(ws.entries), JobFileDeletions(video)) == Sweep(removed, r.Pass?)
  {
    ghost var firstPair := [FileAt(video), FileAt("output.mp4")];
    assert firstPair + [FileAt("video_parts.txt"), FileAt("audio_parts.txt")] == JobFileDeletions(video);
    PerformAppend(ws.entries, firstPair, [FileAt("video_parts.txt"), FileAt("audio_parts.txt")]);
    Paths.RelativeKey("output.mp4");
    r, removed := DeleteFilePair(ws, video, "output.mp4");
    if r.Fail? { return; }
    ghost var more;
    Paths.RelativeKey("video_parts.txt");
    Paths.RelativeKey("audio_parts.txt");
    r, more := DeleteFilePair(ws, "video_parts.txt", "audio_parts.txt");
    RemoveTwice(old(ws.entries), removed, more);
    PairsJoin(removed, more, Paths.Key(video), "output.mp4", "video_parts.txt", "audio_parts.txt");
    removed := removed + more;
  }

  /** Cleanup, second step: the compressed parts by their numbered names, then their directories. */
  method DeleteCompressedStage(ws: Workspace, lister: Lister)
    returns (r: Outcome<FsError>, ghost removed: set<string>, ghost audioListing: seq<Entry>, ghost videoListing: seq<Entry>)
    requires ws.Valid()
    modifies ws
    ensures ws.Valid() && ws.commands == old(ws.commands)
    ensures ws.entries == old(ws.entries) - removed
    ensures forall k :: k in removed ==> UnderDir(k, CompressedDir(Audio)) || UnderDir(k, CompressedDir(Video))
    ensures audioListing == lister(CompressedDir(Audio), old(ws.entries))
    ensures r.Pass? ==>
      && videoListing == lister(CompressedDir(Video), old(ws.entries) - PartKeys(Audio, audioListing, |audioListing|))
      && removed == PartKeys(Audio, audioListing, |audioListing|) + PartKeys(Video, videoListing, |videoListing|)
                    + {CompressedDir(Audio), CompressedDir(Video)}
    ensures videoListing ==
      lister(CompressedDir(Video), old(ws.entries) - Perform(old(ws.entries), PartDeletions(Audio, audioListing, |audioListing|)).removed)
    ensures Perform(old(ws.entries), CompressedStageDeletions(audioListing, videoListing)) == Sweep(removed, r.Pass?)
  {
    ghost var m := ws.entries;
    var audioParts := lister(CompressedDir(Audio), ws.entries);
    audioListing := audioParts;
    ghost var done;
    r, done := DeletePartFiles(ws, Audio, audioParts);
    PartKeysUnderDir(Audio, audioParts, done);
    removed := PartKeys(Audio, audioParts, done);
    videoListing := lister(CompressedDir(Video), ws.entries);
    ghost var a, v := PartDeletions(Audio, audioListing, |audioListing|), PartDeletions(Video, videoListing, |videoListing|);
    ghost var dirDeletions := [DirAt(CompressedDir(Audio)), DirAt(CompressedDir(Video))];
    PerformAppend(m, a, v);
    PerformAppend(m, a + v, dirDeletions);
    if r.Fail? { return; }
    var videoParts := lister(CompressedDir(Video), ws.entries);
    r, done := DeletePartFiles(ws, Video, videoParts);
    PartKeysUnderDir(Video, videoParts, done);
    RemoveTwice(old(ws.entries), removed, PartKeys(Video, videoParts, done));
    removed := removed + PartKeys(Video, videoParts, done);
    if r.Fail? { return; }
    ghost var dirs;
    Paths.RelativeKey(CompressedDir(Audio));
    Paths.RelativeKey(CompressedDir(Video));
    r, dirs := DeleteDirPair(ws, CompressedDir(Audio), CompressedDir(Video));
    StageRemoved(removed, dirs, CompressedDir(Audio), CompressedDir(Video));
    RemoveTwice(old(ws.entries), removed, dirs);
    removed := removed + dirs;
  }

  /** Cleanup, third step: both raw listings first, then the raw parts by their listed names, then the directories. */
  method DeleteRawStage(ws: Workspace, lister: Lister)
    returns (r: Outcome<FsError>, ghost removed: set<string>, ghost audioListing: seq<Entry>, ghost videoListing: seq<Entry>)
    requires ws.Valid()
    modifies ws
    ensures ws.Valid() && ws.commands == old(ws.commands)
    ensures ws.entries == old(ws.entries) - removed
    ensures forall k :: k in removed ==> UnderDir(k, RawDir(Audio)) || UnderDir(k, RawDir(Video))
    ensures audioListing == lister(RawDir(Audio), old(ws.entries))
    ensures videoListing == lister(RawDir(Video), old(ws.entries))
    ensures r.Pass? ==>
      removed == RawKeys(Audio, audioListing, |audioListing|) + RawKeys(Video, videoListing, |videoListing|)
                 + {RawDir(Audio), RawDir(Video)}
    ensures Perform(old(ws.entries), RawStageDeletions(audioListing, videoListing)) == Sweep(removed, r.Pass?)
  {
    var audioParts := lister(RawDir(Audio), ws.entries);
    var videoParts := lister(RawDir(Video), ws.entries);
    audioListing, videoListing := audioParts, videoParts;
    ghost var a, v := RawDeletions(Audio, audioParts, |audioParts|), RawDeletions(Video, videoParts, |videoParts|);
    PerformAppend(ws.entries, a, v);
    PerformAppend(ws.entries, a + v, [DirAt(RawDir(Audio)), DirAt(RawDir(Video))]);
    ghost var done;
    r, done := DeleteRawFiles(ws, Audio, audioParts);
    RawKeysUnderDir(Audio, audioParts, done);
    removed := RawKeys(Audio, audioParts, done);
    if r.Fail? { return; }
    r, done := DeleteRawFiles(ws, Video, videoParts);
    RawKeysUnderDir(Video, videoParts, done);
    RemoveTwice(old(ws.entries), removed, RawKeys(Video, videoParts, done));
    removed := removed + RawKeys(Video, videoParts, done);
    if r.Fail? { return; }
    ghost var dirs;
    Paths.RelativeKey(RawDir(Audio));
    Paths.RelativeKey(RawDir(Video));
    r, dirs := DeleteDirPair(ws, RawDir(Audio), RawDir(Video));
    StageRemoved(removed, dirs, RawDir(Audio), RawDir(Video));
    RemoveTwice(old(ws.entries), removed, dirs);
    removed := removed + dirs;
  }

  /**
   * Cleanup, last step: the intermediate streams by fixed names. The
   * separated video is deleted as `output-video.mp4` whatever extension it
   * was written with.
   */
  method DeleteStreams(ws: Workspace) returns (r: Outcome<FsError>, ghost removed: set<string>)
    requires ws.Valid()
    modifies ws
    ensures ws.Valid() && ws.commands == old(ws.commands)
    ensures ws.entries == old(ws.entries) - removed
    ensures removed <= StreamKeys()
    ensures r.Pass? ==> removed == StreamKeys()
    ensures "output-video.mp4" !in old(ws.entries) ==> r.Fail? && "output-audio.aac" !in removed
    ensures Perform(old(ws.entries), StreamDeletions()) == Sweep(removed, r.Pass?)
  {
    ghost var firstPair := [FileAt("output-compressed.mp4"), FileAt("output-compressed.aac")];
    assert firstPair + [FileAt("output-video.mp4"), FileAt("output-audio.aac")] == StreamDeletions();
    PerformAppend(ws.entries, firstPair, [FileAt("output-video.mp4"), FileAt("output-audio.aac")]);
    Paths.RelativeKey("output-compressed.mp4");
    Paths.RelativeKey("output-compressed.aac");
    r, removed := DeleteFilePair(ws, "output-compressed.mp4", "output-compressed.aac");
    if r.Fail? { return; }
    ghost var more;
    Paths.RelativeKey("output-video.mp4");
    Paths.RelativeKey("output-audio.aac");
    StreamNamesDiffer();
    r, more := DeleteFilePair(ws, "output-video.mp4", "output-audio.aac");
    RemoveTwice(old(ws.entries), removed, more);
    PairsJoin(removed, more, "output-compressed.mp4", "output-compressed.aac", "output-video.mp4", "output-audio.aac");
    removed := removed + more;
  }

  /** The separated streams' names differ from the compressed streams' names. */
  lemma StreamNamesDiffer()
    ensures "output-audio.aac" !in {"output-compressed.mp4", "output-compressed.aac"}
    ensures "output-video.mp4" !in {"output-compressed.mp4", "output-compressed.aac"}
  {
    assert "output-audio.aac"[7] == 'a' && "output-video.mp4"[7] == 'v';
    assert "output-compressed.mp4"[7] == 'c' && "output-compressed.aac"[7] == 'c';
  }

  /** The separated audio is none of the fixed job files. */
  lemma AudioStreamNotJobFile(video: string)
    requires Paths.Key(video) != "output-audio.aac"
    ensures "output-audio.aac" !in JobFileKeys(video)
  {
    assert "output-audio.aac"[7] == 'a';
    assert "output.mp4"[6] == '.' && "output-audio.aac"[6] == '-';
    assert "video_parts.txt"[0] == 'v' && "audio_parts.txt"[0] == 'a';
  }

  /**
   * Cleanup after the job files: the compressed stage, the raw stage, then
   * the streams, stopping at the first deletion that fails.
   */
  method DeleteWorkingFiles(ws: Workspace, lister: Lister)
    returns (r: Outcome<FsError>, ghost removed: set<string>,
             ghost compressedAudio: seq<Entry>, ghost compressedVideo: seq<Entry>,
             ghost rawAudio: seq<Entry>, ghost rawVideo: seq<Entry>)
    requires ws.Valid()
    modifies ws
    ensures ws.Valid() && ws.commands == old(ws.commands)
    ensures ws.entries == old(ws.entries) - removed
    ensures forall k :: k in removed ==> k in StreamKeys() || InStageDir(k)
    ensures r.Pass? ==> StreamKeys() + StageDirs() <= removed
    ensures r.Pass? ==> forall k :: k in ws.entries ==> Paths.Parent(k) !in StageDirs()
    ensures "output-video.mp4" !in old(ws.entries) ==> r.Fail? && "output-audio.aac" !in removed
    ensures Perform(old(ws.entries), WorkingDeletions(compressedAudio, compressedVideo, rawAudio, rawVideo))
      == Sweep(removed, r.Pass?)
    ensures compressedAudio == lister(CompressedDir(Audio), old(ws.entries))
    ensures compressedVideo == lister(CompressedDir(Video), old(ws.entries)
      - Perform(old(ws.entries), PartDeletions(Audio, compressedAudio, |compressedAudio|)).removed)
    ensures var before := Perform(old(ws.entries), CompressedStageDeletions(compressedAudio, compressedVideo));
      before.complete ==>
        && rawAudio == lister(RawDir(Audio), old(ws.entries) - before.removed)
        && rawVideo == lister(RawDir(Video), old(ws.entries) - before.removed)
  {
    ghost var m := ws.entries;
    ghost var raw, streams: set<string> := {}, {};
    rawAudio, rawVideo := [], [];
    OutsideStageDirs("output-audio.aac");
    r, removed, compressedAudio, compressedVideo := DeleteCompressedStage(ws, lister);
    if r.Pass? {
      r, raw, rawAudio, rawVideo := DeleteRawStage(ws, lister);
      RemoveTwice(m, removed, raw);
      removed := removed + raw;
      if r.Pass? {
        r, streams := DeleteStreams(ws);
        RemoveTwice(m, removed, streams);
        removed := removed + streams;
        if r.Pass? {
          StageDirsEmpty(ws.entries);
        }
      }
    }
    ghost var compressedStage := CompressedStageDeletions(compressedAudio, compressedVideo);
    ghost var rawStage := RawStageDeletions(rawAudio, rawVideo);
    PerformAppend(m, compressedStage, rawStage);
    PerformAppend(m, compressedStage + rawStage, StreamDeletions());
  }

  /**
   * The cleanup at the end of `getData`: the four steps in order, stopping at
   * the first deletion that fails. It only ever removes entries, and only
   * the job's own files and what lies in the working directories. When it
   * completes, those files and directories are gone and nothing is left
   * inside a working directory. Because the separated video is deleted as
   * `output-video.mp4`, the cleanup fails when no such file exists (as
   * after separating into any other extension), and `output-audio.aac` is
   * then left behind.
   */
  method Cleanup(ws: Workspace, video: string, lister: Lister)
    returns (r: Outcome<FsError>, ghost removed: set<string>,
             ghost compressedAudio: seq<Entry>, ghost compressedVideo: seq<Entry>,
             ghost rawAudio: seq<Entry>, ghost rawVideo: seq<Entry>)
    requires ws.Valid()
    modifies ws
    ensures ws.Valid() && ws.commands == old(ws.commands)
    ensures ws.entries == old(ws.entries) - removed
    ensures forall k :: k in removed ==> k in JobFileKeys(video) || k in StreamKeys() || InStageDir(k)
    ensures r.Pass? ==> JobFileKeys(video) + StreamKeys() + StageDirs() <= removed
    ensures r.Pass? ==> forall k :: k in ws.entries ==> Paths.Parent(k) !in StageDirs()
    ensures "output-video.mp4" !in old(ws.entries) ==> r.Fail?
    ensures "output-video.mp4" !in old(ws.entries) && Paths.Key(video) != "output-audio.aac" ==>
      "output-audio.aac" !in removed
    ensures Perform(old(ws.entries), CleanupDeletions(video, compressedAudio, compressedVideo, rawAudio, rawVideo))
      == Sweep(removed, r.Pass?)
    ensures var jobs := Perform(old(ws.entries), JobFileDeletions(video));
      jobs.complete ==>
        && compressedAudio == lister(CompressedDir(Audio), old(ws.entries) - jobs.removed)
        && compressedVideo == lister(CompressedDir(Video), old(ws.entries)
             - Perform(old(ws.entries), JobFileDeletions(video) + PartDeletions(Audio, compressedAudio, |compressedAudio|)).removed)
    ensures var before := Perform(old(ws.entries), JobFileDeletions(video) + CompressedStageDeletions(compressedAudio, compressedVideo));
      before.complete ==>
        && rawAudio == lister(RawDir(Audio), old(ws.entries) - before.removed)
        && rawVideo == lister(RawDir(Video), old(ws.entries) - before.removed)
  {
    ghost var m := ws.entries;
    compressedAudio, compressedVideo, rawAudio, rawVideo := [], [], [], [];
    if Paths.Key(video) != "output-audio.aac" {
      AudioStreamNotJobFile(video);
    }
    r, removed := DeleteJobFiles(ws, video);
    ghost var jobs := removed;
    if r.Pass? {
      ghost var rest;
      r, rest, compressedAudio, compressedVideo, rawAudio, rawVideo := DeleteWorkingFiles(ws, lister);
      RemoveTwice(m, jobs, rest);
      removed := jobs + rest;
      RemoveTwice(m, jobs, Perform(m - jobs, PartDeletions(Audio, compressedAudio, |compressedAudio|)).removed);
      RemoveTwice(m, jobs, Perform(m - jobs, CompressedStageDeletions(compressedAudio, compressedVideo)).removed);
    }
    ghost var jobDeletions := JobFileDeletions(video);
    PerformAppend(m, jobDeletions, PartDeletions(Audio, compressedAudio, |compressedAudio|));
    PerformAppend(m, jobDeletions, CompressedStageDeletions(compressedAudio, compressedVideo));
    PerformAppend(m, jobDeletions, WorkingDeletions(compressedAudio, compressedVideo, rawAudio, rawVideo));
  }

  /** When the upload itself is missing, the cleanup's first deletion fails and nothing is removed. */
  lemma CleanupStopsAtMissingUpload(m: map<string, Node>, video: string, compressedAudio: seq<Entry>,
                                    compressedVideo: seq<Entry>, rawAudio: seq<Entry>, rawVideo: seq<Entry>)
    requires Paths.Key(video) !in m
    ensures Perform(m, CleanupDeletions(video, compressedAudio, compressedVideo, rawAudio, rawVideo)) == Sweep({}, false)
  {
    var jobs := JobFileDeletions(video);
    assert DeletionError(m, jobs[0]).Some?;
    StopsWithinPrefix(m, jobs, CleanupDeletions(video, compressedAudio, compressedVideo, rawAudio, rawVideo));
  }

  /**
   * Without an `output-video.mp4`, the last step removes the two compressed
   * streams and stops at the separated video, so `output-audio.aac` stays.
   */
  lemma StreamsStopAtSeparatedVideo(m: map<string, Node>)
    requires "output-compressed.mp4" in m && m["output-compressed.mp4"].File?
    requires "output-compressed.aac" in m && m["output-compressed.aac"].File?
    requires "output-video.mp4" !in m
    ensures Perform(m, StreamDeletions()) == Sweep({"output-compressed.mp4", "output-compressed.aac"}, false)
  {
    var compressedPair := [FileAt("output-compressed.mp4"), FileAt("output-compressed.aac")];
    var separatedPair := [FileAt("output-video.mp4"), FileAt("output-audio.aac")];
    assert compressedPair + separatedPair == StreamDeletions();
    Paths.RelativeKey("output-compressed.mp4");
    Paths.RelativeKey("output-compressed.aac");
    Paths.RelativeKey("output-video.mp4");
    assert "output-compressed.mp4"[18] == 'm' && "output-compressed.aac"[18] == 'a';
    PerformAppend(m, compressedPair, separatedPair);
    PairSweep(m, compressedPair[0], compressedPair[1]);
    var rest := m - {"output-compressed.mp4", "output-compressed.aac"};
    assert DeletionError(rest, separatedPair[0]).Some?;
  }

  /**
   * The whole cleanup when every deletion before the streams succeeds and
   * no `output-video.mp4` exists: it removes exactly what the earlier steps
   * target plus the two compressed streams, and then fails.
   */
  lemma CleanupStopsAtSeparatedVideo(m: map<string, Node>, video: string, compressedAudio: seq<Entry>,
                                     compressedVideo: seq<Entry>, rawAudio: seq<Entry>, rawVideo: seq<Entry>)
    requires var earlier := JobFileDeletions(video) + CompressedStageDeletions(compressedAudio, compressedVideo)
                            + RawStageDeletions(rawAudio, rawVideo);
      var left := m - Perform(m, earlier).removed;
      && Perform(m, earlier).complete
      && "output-compressed.mp4" in left && left["output-compressed.mp4"].File?
      && "output-compressed.aac" in left && left["output-compressed.aac"].File?
    requires "output-video.mp4" !in m
    ensures var earlier := JobFileDeletions(video) + CompressedStageDeletions(compressedAudio, compressedVideo)
                           + RawStageDeletions(rawAudio, rawVideo);
      Perform(m, CleanupDeletions(video, compressedAudio, compressedVideo, rawAudio, rawVideo))
      == Sweep(KeysOf(earlier) + {"output-compressed.mp4", "output-compressed.aac"}, false)
  {
    var jobs := JobFileDeletions(video);
    var compressed := CompressedStageDeletions(compressedAudio, compressedVideo);
    var raw := RawStageDeletions(rawAudio, rawVideo);
    assert CleanupDeletions(video, compressedAudio, compressedVideo, rawAudio, rawVideo)
      == jobs + compressed + raw + StreamDeletions();
    PerformAppend(m, jobs + compressed + raw, StreamDeletions());
    PerformStopsAtRefusal(m, jobs + compressed + raw);
    StreamsStopAtSeparatedVideo(m - Perform(m, jobs + compressed + raw).removed);
  }

  /** Once the working directories are gone, nothing lies directly in any of them. */
  lemma StageDirsEmpty(m: map<string, Node>)
    requires WellFormed(m) && forall d :: d in StageDirs() ==> d !in m
    ensures forall k :: k in m ==> Paths.Parent(k) !in StageDirs()
  {
    forall d | d in StageDirs() ensures !HasChildren(m, d) {
      AbsentDirectoryIsEmpty(m, d);
    }
  }
}
