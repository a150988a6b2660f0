/**
 * The concat manifests of `getData`: a loop over a directory listing that
 * skips directory entries and appends `file '<part path>'` and a newline
 * for every other entry, numbering the part by its listing position.
 */
module Manifest {
  import opened Wrappers
  import Text
  import Decimal
  import Paths
  import opened Naming

  /** The text of one manifest line, without its newline. */
  function EntryLine(kind: Kind, i: nat): string
  {
    "file '" + AbsolutePartPath(kind, i) + "'"
  }

  /** The line the loop appends for a non-directory entry at position `i`. */
  function Line(kind: Kind, i: nat): string
  {
    EntryLine(kind, i) + "\n"
  }

  /** What the loop has built once it has looked at the first `n` entries. */
  function ManifestPrefix(listing: seq<Entry>, n: nat, kind: Kind): string
    requires n <= |listing|
  {
    if n == 0 then ""
    else ManifestPrefix(listing, n - 1, kind) + (if listing[n - 1].isDir then "" else Line(kind, n - 1))
  }

  /** The manifest of a whole listing. */
  function ManifestOf(listing: seq<Entry>, kind: Kind): string
  {
    ManifestPrefix(listing, |listing|, kind)
  }

  /** The manifest loop (`video_parts += ...` / `audio_parts += ...`). */
  method BuildManifest(listing: seq<Entry>, kind: Kind) returns (text: string)
    ensures text == ManifestOf(listing, kind)
  {
    text := "";
    for i := 0 to |listing|
      invariant text == ManifestPrefix(listing, i, kind)
    {
      if listing[i].isDir {
        continue;
      }
      text := text + Line(kind, i);
    }
  }

  // ---------------------------------------------------------------------
  // Reading a manifest back
  // ---------------------------------------------------------------------

  /** The part number a manifest line names, if it is a line for this kind. */
  function ParseLine(kind: Kind, line: string): Option<int>
  {
    var prefix := "file '";
    if |line| >= |prefix| + 1 && line[..|prefix|] == prefix && line[|line| - 1] == '\''
    then PartNumberOf(kind, Paths.Key(line[|prefix|..|line| - 1]))
    else None
  }

  function ParseLines(kind: Kind, lines: seq<string>): Option<seq<int>>
  {
    if lines == [] then Some([])
    else
      match (ParseLine(kind, lines[0]), ParseLines(kind, lines[1..]))
      case (Some(n), Some(ns)) => Some([n] + ns)
      case _ => None
  }

  /** The part numbers a manifest lists, in order: newline-terminated lines that each parse. */
  function ParseManifest(kind: Kind, text: string): Option<seq<int>>
  {
    var lines := Text.Split(text, '\n');
    if lines[|lines| - 1] != "" then None else ParseLines(kind, lines[..|lines| - 1])
  }

  /** The part numbers of the non-directory entries: their positions less two. */
  function PartNumbers(ps: seq<nat>): (ns: seq<int>)
    ensures |ns| == |ps| && forall j :: 0 <= j < |ps| ==> ns[j] == PartNumber(ps[j])
  {
    if ps == [] then [] else [PartNumber(ps[0])] + PartNumbers(ps[1..])
  }

  /** The lines of the manifest for the given positions. */
  function EntryLines(kind: Kind, ps: seq<nat>): (ls: seq<string>)
    ensures |ls| == |ps| && forall j :: 0 <= j < |ps| ==> ls[j] == EntryLine(kind, ps[j])
  {
    if ps == [] then [] else [EntryLine(kind, ps[0])] + EntryLines(kind, ps[1..])
  }

  /** The manifest text for the given positions, first position first. */
  function Render(kind: Kind, ps: seq<nat>): string
  {
    if ps == [] then "" else Line(kind, ps[0]) + Render(kind, ps[1..])
  }

  // ---------------------------------------------------------------------
  // Properties
  // ---------------------------------------------------------------------

  lemma {:induction false} RenderSnoc(kind: Kind, ps: seq<nat>, p: nat)
    ensures Render(kind, ps + [p]) == Render(kind, ps) + Line(kind, p)
    decreases |ps|
  {
    if ps == [] {
      assert Render(kind, [p]) == Line(kind, p) + Render(kind, []);
    } else {
      assert (ps + [p])[1..] == ps[1..] + [p];
      RenderSnoc(kind, ps[1..], p);
    }
  }

  /** After `n` entries the loop has rendered exactly the file positions among them. */
  lemma {:induction false} ManifestPrefixRenders(listing: seq<Entry>, n: nat, kind: Kind)
    requires n <= |listing|
    ensures ManifestPrefix(listing, n, kind) == Render(kind, FilePositions(listing[..n]))
  {
    if n == 0 {
      assert listing[..0] == [];
    } else {
      var before := FilePositions(listing[..n - 1]);
      ManifestPrefixRenders(listing, n - 1, kind);
      assert listing[..n][..n - 1] == listing[..n - 1];
      assert FilePositions(listing[..n]) == before + (if listing[n - 1].isDir then [] else [n - 1]);
      if listing[n - 1].isDir {
        assert before + [] == before;
      } else {
        RenderSnoc(kind, before, n - 1);
      }
    }
  }

  /** A manifest line holds no newline. */
  lemma EntryLineHasNoNewline(kind: Kind, i: nat)
    ensures '\n' !in EntryLine(kind, i)
  {
    NumberedLineHasNoNewline(kind, Decimal.IntToString(PartNumber(i)));
  }

  lemma NumberedLineHasNoNewline(kind: Kind, n: string)
    requires forall j :: 0 <= j < |n| ==> Decimal.IsDigit(n[j]) || n[j] == '-'
    ensures '\n' !in "file '/" + CompressedDir(kind) + "/part-" + n + "." + PartExtension(kind) + "'"
  {
    var head := "file '/" + CompressedDir(kind) + "/part-";
    var tail := "." + PartExtension(kind) + "'";
    assert '\n' !in n;
    assert '\n' !in head by { match kind { case Video => case Audio => } }
    assert '\n' !in tail by { match kind { case Video => case Audio => } }
    assert "file '/" + CompressedDir(kind) + "/part-" + n + "." + PartExtension(kind) + "'" == head + n + tail;
  }

  lemma {:induction false} SplitRender(kind: Kind, ps: seq<nat>)
    ensures Text.Split(Render(kind, ps), '\n') == EntryLines(kind, ps) + [""]
    decreases |ps|
  {
    if ps != [] {
      EntryLineHasNoNewline(kind, ps[0]);
      Text.SplitCons(EntryLine(kind, ps[0]), Render(kind, ps[1..]), '\n');
      SplitRender(kind, ps[1..]);
      assert EntryLines(kind, ps) == [EntryLine(kind, ps[0])] + EntryLines(kind, ps[1..]);
    }
  }

  /** Each line reads back as the number of the position it was written for. */
  lemma ParseEntryLine(kind: Kind, i: nat)
    ensures ParseLine(kind, EntryLine(kind, i)) == Some(i - 2)
  {
    ParseQuoted(kind, AbsolutePartPath(kind, i));
    PartPathsAgree(kind, i);
  }

  /** A quoted path reads back as the part number of its key. */
  lemma ParseQuoted(kind: Kind, path: string)
    ensures ParseLine(kind, "file '" + path + "'") == PartNumberOf(kind, Paths.Key(path))
  {
    var line := "file '" + path + "'";
    assert line[..6] == "file '";
    assert line[6..|line| - 1] == path;
  }

  lemma {:induction false} ParseEntryLines(kind: Kind, ps: seq<nat>)
    ensures ParseLines(kind, EntryLines(kind, ps)) == Some(PartNumbers(ps))
    decreases |ps|
  {
    if ps != [] {
      ParseEntryLine(kind, ps[0]);
      ParseEntryLines(kind, ps[1..]);
      assert EntryLines(kind, ps)[1..] == EntryLines(kind, ps[1..]);
    }
  }

  /**
   * The manifest has one line per non-directory entry, in increasing listing
   * position, each `file '/compressed_parts_<kind>/part-<i - 2>.<ext>'`
   * followed by a newline, and nothing after the last newline.
   */
  lemma ManifestLines(listing: seq<Entry>, kind: Kind)
    ensures Text.Split(ManifestOf(listing, kind), '\n') == EntryLines(kind, FilePositions(listing)) + [""]
  {
    ManifestPrefixRenders(listing, |listing|, kind);
    assert listing[..|listing|] == listing;
    SplitRender(kind, FilePositions(listing));
  }

  /**
   * Reading a manifest back yields the part numbers of the non-directory
   * entries, one per entry, strictly increasing.
   */
  lemma ManifestRoundTrip(listing: seq<Entry>, kind: Kind)
    ensures ParseManifest(kind, ManifestOf(listing, kind)) == Some(PartNumbers(FilePositions(listing)))
    ensures |PartNumbers(FilePositions(listing))| == FileCount(listing)
    ensures forall j, l :: 0 <= j < l < FileCount(listing) ==>
      PartNumbers(FilePositions(listing))[j] < PartNumbers(FilePositions(listing))[l]
  {
    var ps := FilePositions(listing);
    ManifestLines(listing, kind);
    var lines := EntryLines(kind, ps) + [""];
    assert lines[..|lines| - 1] == EntryLines(kind, ps);
    ParseEntryLines(kind, ps);
    FilePositionsCount(listing);
  }

  /** A manifest is empty exactly when every listed entry is a directory. */
  lemma ManifestEmpty(listing: seq<Entry>, kind: Kind)
    ensures ManifestOf(listing, kind) == "" <==> forall i :: 0 <= i < |listing| ==> listing[i].isDir
  {
    ManifestPrefixRenders(listing, |listing|, kind);
    assert listing[..|listing|] == listing;
    FilePositionsCount(listing);
    var ps := FilePositions(listing);
    if ps != [] {
      assert |Render(kind, ps)| >= |Line(kind, ps[0])| > 0;
    }
  }
}
