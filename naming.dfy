/**
 * Listings and the names `getData` gives to compressed parts.
 *
 * A listing is what `listDir` returns: `(name, isDir)` pairs in the
 * library's order. The part a non-directory entry at listing position `i`
 * becomes is numbered `i - 2`, and that number is spelled out in three
 * places: the output path of the compression command (relative), the
 * manifest line and the cleanup target (both absolute).
 */
module Naming {
  import opened Wrappers
  import Decimal
  import Paths

  datatype Entry = Entry(name: string, isDir: bool)

  datatype Kind = Video | Audio

  /** The directory the segmenter writes raw parts of a kind into. */
  function RawDir(kind: Kind): string
  {
    match kind
    case Video => "parts_video"
    case Audio => "parts_audio"
  }

  /** The directory compressed parts of a kind are written into. */
  function CompressedDir(kind: Kind): string
  {
    match kind
    case Video => "compressed_parts_video"
    case Audio => "compressed_parts_audio"
  }

  /** The container extension of a compressed part. */
  function PartExtension(kind: Kind): string
  {
    match kind
    case Video => "mp4"
    case Audio => "aac"
  }

  /** The number a listing position is given: two less than the position. */
  function PartNumber(position: nat): int
  {
    position - 2
  }

  /** The relative path a compression command writes for listing position `i`. */
  function CompressOutputPath(kind: Kind, i: nat): string
  {
    CompressedDir(kind) + "/part-" + Decimal.IntToString(PartNumber(i)) + "." + PartExtension(kind)
  }

  /** The absolute path the manifest and the cleanup use for listing position `i`. */
  function AbsolutePartPath(kind: Kind, i: nat): string
  {
    "/" + CompressedDir(kind) + "/part-" + Decimal.IntToString(PartNumber(i)) + "." + PartExtension(kind)
  }

  /** The path of a raw part as the cleanup spells it: the directory, then the listed name. */
  function RawPartPath(kind: Kind, name: string): string
  {
    "/" + RawDir(kind) + "/" + name
  }

  /** Reads the part number back out of a compressed part's key. */
  function PartNumberOf(kind: Kind, key: string): Option<int>
  {
    var prefix := CompressedDir(kind) + "/part-";
    var suffix := "." + PartExtension(kind);
    if |key| >= |prefix| + |suffix| && key[..|prefix|] == prefix && key[|key| - |suffix|..] == suffix
    then Decimal.ParseInt(key[|prefix|..|key| - |suffix|])
    else None
  }

  /**
   * Naming round trip: the file the compression step writes for position `i`
   * is the file the manifest lists and the cleanup deletes for position `i`,
   * it sits in the compressed directory of its kind, and its name gives back
   * the number `i - 2`.
   */
  lemma PartPathsAgree(kind: Kind, i: nat)
    ensures Paths.Key(AbsolutePartPath(kind, i)) == CompressOutputPath(kind, i)
    ensures Paths.IsKey(CompressOutputPath(kind, i))
    ensures Paths.Parent(CompressOutputPath(kind, i)) == CompressedDir(kind)
    ensures PartNumberOf(kind, CompressOutputPath(kind, i)) == Some(i - 2)
  {
    AbsoluteKey(kind, i);
    PartParent(kind, i);
    PartNumberRoundTrip(kind, i);
  }

  lemma AbsoluteKey(kind: Kind, i: nat)
    ensures Paths.Key(AbsolutePartPath(kind, i)) == CompressOutputPath(kind, i)
    ensures Paths.IsKey(CompressOutputPath(kind, i))
  {
    var n := Decimal.IntToString(PartNumber(i));
    PartKeyShape(kind, n);
    assert AbsolutePartPath(kind, i) == "/" + CompressOutputPath(kind, i);
  }

  lemma PartKeyShape(kind: Kind, n: string)
    ensures var key := CompressedDir(kind) + "/part-" + n + "." + PartExtension(kind);
      Paths.IsKey(key) && Paths.Key("/" + key) == key
  {
    var key := CompressedDir(kind) + "/part-" + n + "." + PartExtension(kind);
    assert key[0] == 'c';
    assert key[|key| - 1] == PartExtension(kind)[2];
    Paths.RootedKey(key);
  }

  lemma PartParent(kind: Kind, i: nat)
    ensures Paths.Parent(CompressOutputPath(kind, i)) == CompressedDir(kind)
  {
    var n := Decimal.IntToString(PartNumber(i));
    assert '/' !in n;
    PartParentShape(kind, n);
  }

  /** Whatever the numeral, a part name lies directly in the compressed directory. */
  lemma PartParentShape(kind: Kind, n: string)
    requires '/' !in n
    ensures Paths.Parent(CompressedDir(kind) + "/part-" + n + "." + PartExtension(kind)) == CompressedDir(kind)
  {
    var d, e := CompressedDir(kind), PartExtension(kind);
    assert '/' !in "." + e by { match kind { case Video => case Audio => } }
    var name := ("part-" + n) + ("." + e);
    Associative("part-" + n, ".", e);
    assert d + "/part-" == (d + "/") + "part-";
    Associative(d + "/", "part-", n);
    Associative(d + "/", "part-" + n, ".");
    Associative(d + "/", "part-" + n + ".", e);
    Paths.ParentOfChild(d, name);
  }

  lemma Associative(a: string, b: string, c: string)
    ensures (a + b) + c == a + (b + c)
  {
  }

  lemma PartNumberRoundTrip(kind: Kind, i: nat)
    ensures PartNumberOf(kind, CompressOutputPath(kind, i)) == Some(i - 2)
  {
    var n := Decimal.IntToString(PartNumber(i));
    var key := CompressOutputPath(kind, i);
    var prefix := CompressedDir(kind) + "/part-";
    var suffix := "." + PartExtension(kind);
    assert key == prefix + n + suffix;
    assert key[..|prefix|] == prefix;
    assert key[|key| - |suffix|..] == suffix;
    assert key[|prefix|..|key| - |suffix|] == n;
    Decimal.ParseIntToString(PartNumber(i));
  }

  /** Two compressed-part paths coincide exactly when kind and position do. */
  lemma CompressOutputPathInjective(k1: Kind, i: nat, k2: Kind, j: nat)
    ensures CompressOutputPath(k1, i) == CompressOutputPath(k2, j) <==> k1 == k2 && i == j
  {
    if CompressOutputPath(k1, i) == CompressOutputPath(k2, j) {
      assert CompressOutputPath(k1, i)[17] == CompressOutputPath(k2, j)[17];
      assert k1 == k2;
      PartPathsAgree(k1, i);
      PartPathsAgree(k2, j);
    }
  }

  /** The positions of the non-directory entries of a listing, in increasing order. */
  function FilePositions(listing: seq<Entry>): (ps: seq<nat>)
    ensures forall j :: 0 <= j < |ps| ==> ps[j] < |listing| && !listing[ps[j]].isDir
    ensures forall j, l :: 0 <= j < l < |ps| ==> ps[j] < ps[l]
    ensures forall i :: 0 <= i < |listing| && !listing[i].isDir ==> i in ps
  {
    if listing == [] then []
    else
      var n := |listing| - 1;
      FilePositions(listing[..n]) + (if listing[n].isDir then [] else [n])
  }

  /** How many entries of a listing are not directories. */
  function FileCount(listing: seq<Entry>): nat
  {
    if listing == [] then 0
    else FileCount(listing[..|listing| - 1]) + (if listing[|listing| - 1].isDir then 0 else 1)
  }

  /** There is one file position per non-directory entry. */
  lemma {:induction false} FilePositionsCount(listing: seq<Entry>)
    ensures |FilePositions(listing)| == FileCount(listing)
    ensures FileCount(listing) == 0 <==> forall i :: 0 <= i < |listing| ==> listing[i].isDir
  {
    if listing != [] {
      FilePositionsCount(listing[..|listing| - 1]);
      if FileCount(listing) == 0 {
        forall i | 0 <= i < |listing| ensures listing[i].isDir {
          if i < |listing| - 1 { assert listing[..|listing| - 1][i] == listing[i]; }
        }
      }
    }
  }
}
