/**
 * The in-memory filesystem of the ffmpeg instance that `getData` drives:
 * a map from key to file or directory, the four primitives `createDir`,
 * `writeFile`, `deleteFile` and `deleteDir`, `readFile`, and `exec`, which
 * records the argument vector and lets the engine write its output files.
 *
 * The filesystem's own failure rules are not part of this model. The rules
 * below are this model's assumption about them: a primitive either
 * succeeds with the effect stated, or rejects and changes nothing.
 */
module Workspace {
  import opened Wrappers
  import Paths

  datatype Data = Bytes(bytes: seq<bv8>) | Text(text: string)

  datatype Node = File(data: Data) | Dir

  datatype FsError =
    | InvalidPath(path: string)
    | AlreadyExists(path: string)
    | NoParent(path: string)
    | NotFound(path: string)
    | IsDirectory(path: string)
    | NotDirectory(path: string)
    | NotEmpty(path: string)

  /** What `exec` does besides being recorded: the files an argument vector makes the engine write. */
  type Engine = seq<string> -> map<string, Data>

  /** `d` is the root or a directory entry of `m`. */
  predicate IsDirIn(m: map<string, Node>, d: string)
  {
    d == [] || (d in m && m[d].Dir?)
  }

  /** Some entry of `m` lies directly in `d`. */
  predicate HasChildren(m: map<string, Node>, d: string)
  {
    exists k :: k in m && Paths.Parent(k) == d
  }

  /** `k` is a valid key that lies in the root or in a directory entry of `m`. */
  predicate Placed(m: map<string, Node>, k: string)
  {
    Paths.IsKey(k) && IsDirIn(m, Paths.Parent(k))
  }

  /**
   * Every entry is placed. The quantifier fires on `Placed` only, so that an
   * entry's parent being an entry does not set off its grandparent, and so on.
   */
  predicate WellFormed(m: map<string, Node>)
  {
    forall k {:trigger Placed(m, k)} :: k in m ==> Placed(m, k)
  }

  // ---------------------------------------------------------------------
  // The failure rules
  // ---------------------------------------------------------------------

  function CreateDirError(m: map<string, Node>, path: string): Option<FsError>
  {
    var k := Paths.Key(path);
    if !Paths.IsKey(k) then Some(InvalidPath(path))
    else if k in m then Some(AlreadyExists(path))
    else if !IsDirIn(m, Paths.Parent(k)) then Some(NoParent(path))
    else None
  }

  function WriteFileError(m: map<string, Node>, path: string): Option<FsError>
  {
    var k := Paths.Key(path);
    if !Paths.IsKey(k) then Some(InvalidPath(path))
    else if k in m && m[k].Dir? then Some(IsDirectory(path))
    else if !IsDirIn(m, Paths.Parent(k)) then Some(NoParent(path))
    else None
  }

  function DeleteFileError(m: map<string, Node>, path: string): Option<FsError>
  {
    var k := Paths.Key(path);
    if k !in m then Some(NotFound(path))
    else if m[k].Dir? then Some(IsDirectory(path))
    else None
  }

  function DeleteDirError(m: map<string, Node>, path: string): Option<FsError>
  {
    var k := Paths.Key(path);
    if k !in m then Some(NotFound(path))
    else if m[k].File? then Some(NotDirectory(path))
    else if HasChildren(m, k) then Some(NotEmpty(path))
    else None
  }

  /** The files of an engine run that land: valid keys the filesystem would let it write. */
  function Produced(m: map<string, Node>, out: map<string, Data>): map<string, Node>
  {
    map k | k in out && Paths.IsKey(k) && WriteFileError(m, k) == None :: File(out[k])
  }

  // ---------------------------------------------------------------------
  // The invariant under each primitive
  // ---------------------------------------------------------------------

  lemma CreateDirKeepsWellFormed(m: map<string, Node>, path: string)
    requires WellFormed(m) && CreateDirError(m, path) == None
    ensures WellFormed(m[Paths.Key(path) := Dir])
  {
    var m' := m[Paths.Key(path) := Dir];
    forall k | k in m' ensures Placed(m', k) {
      if k != Paths.Key(path) {
        assert Placed(m, k);
      }
    }
  }

  lemma WriteFileKeepsWellFormed(m: map<string, Node>, path: string, data: Data)
    requires WellFormed(m) && WriteFileError(m, path) == None
    ensures WellFormed(m[Paths.Key(path) := File(data)])
  {
    var m' := m[Paths.Key(path) := File(data)];
    forall k | k in m' ensures Placed(m', k) {
      if k != Paths.Key(path) {
        assert Placed(m, k);
      }
    }
  }

  lemma DeleteFileKeepsWellFormed(m: map<string, Node>, path: string)
    requires WellFormed(m) && DeleteFileError(m, path) == None
    ensures WellFormed(m - {Paths.Key(path)})
  {
    var m' := m - {Paths.Key(path)};
    forall k | k in m' ensures Placed(m', k) {
      assert Placed(m, k);
    }
  }

  /** A directory can go only once nothing lies in it, so nothing is left without a parent. */
  lemma DeleteDirKeepsWellFormed(m: map<string, Node>, path: string)
    requires WellFormed(m) && DeleteDirError(m, path) == None
    ensures WellFormed(m - {Paths.Key(path)})
  {
    var m' := m - {Paths.Key(path)};
    forall k | k in m' ensures Placed(m', k) {
      assert Placed(m, k);
    }
  }

  lemma ProducedKeepsWellFormed(m: map<string, Node>, out: map<string, Data>)
    requires WellFormed(m)
    ensures WellFormed(m + Produced(m, out))
  {
    var m' := m + Produced(m, out);
    forall k | k in m' ensures Placed(m', k) {
      if k in m {
        assert Placed(m, k);
      }
    }
  }

  /**
   * In a well-formed filesystem a directory that is absent holds nothing:
   * whatever was in it was deleted before it was.
   */
  lemma AbsentDirectoryIsEmpty(m: map<string, Node>, d: string)
    requires WellFormed(m) && Paths.IsKey(d) && d !in m
    ensures !HasChildren(m, d)
  {
    forall k | k in m ensures Paths.Parent(k) != d {
      assert Placed(m, k);
    }
  }

  // ---------------------------------------------------------------------
  // The ffmpeg instance
  // ---------------------------------------------------------------------

  class Workspace {
    /** The filesystem. */
    var entries: map<string, Node>
    /** The argument vector of every `exec`, in the order issued. */
    var commands: seq<seq<string>>

    ghost predicate Valid()
      reads this
    {
      WellFormed(entries)
    }

    constructor ()
      ensures Valid() && entries == map[] && commands == []
    {
      entries := map[];
      commands := [];
    }

    method CreateDir(path: string) returns (r: Outcome<FsError>)
      requires Valid()
      modifies this
      ensures Valid() && commands == old(commands)
      ensures CreateDirError(old(entries), path).Some? ==>
        r == Fail(CreateDirError(old(entries), path).value) && entries == old(entries)
      ensures CreateDirError(old(entries), path).None? ==>
        r == Pass && entries == old(entries)[Paths.Key(path) := Dir]
    {
      var e := CreateDirError(entries, path);
      if e.Some? {
        return Fail(e.value);
      }
      CreateDirKeepsWellFormed(entries, path);
      entries := entries[Paths.Key(path) := Dir];
      r := Pass;
    }

    method WriteFile(path: string, data: Data) returns (r: Outcome<FsError>)
      requires Valid()
      modifies this
      ensures Valid() && commands == old(commands)
      ensures WriteFileError(old(entries), path).Some? ==>
        r == Fail(WriteFileError(old(entries), path).value) && entries == old(entries)
      ensures WriteFileError(old(entries), path).None? ==>
        r == Pass && entries == old(entries)[Paths.Key(path) := File(data)]
    {
      var e := WriteFileError(entries, path);
      if e.Some? {
        return Fail(e.value);
      }
      WriteFileKeepsWellFormed(entries, path, data);
      entries := entries[Paths.Key(path) := File(data)];
      r := Pass;
    }

    method DeleteFile(path: string) returns (r: Outcome<FsError>)
      requires Valid()
      modifies this
      ensures Valid() && commands == old(commands)
      ensures DeleteFileError(old(entries), path).Some? ==>
        r == Fail(DeleteFileError(old(entries), path).value) && entries == old(entries)
      ensures DeleteFileError(old(entries), path).None? ==>
        r == Pass && entries == old(entries) - {Paths.Key(path)}
    {
      var e := DeleteFileError(entries, path);
      if e.Some? {
        return Fail(e.value);
      }
      DeleteFileKeepsWellFormed(entries, path);
      entries := entries - {Paths.Key(path)};
      r := Pass;
    }

    method DeleteDir(path: string) returns (r: Outcome<FsError>)
      requires Valid()
      modifies this
      ensures Valid() && commands == old(commands)
      ensures DeleteDirError(old(entries), path).Some? ==>
        r == Fail(DeleteDirError(old(entries), path).value) && entries == old(entries)
      ensures DeleteDirError(old(entries), path).None? ==>
        r == Pass && entries == old(entries) - {Paths.Key(path)}
    {
      var e := DeleteDirError(entries, path);
      if e.Some? {
        return Fail(e.value);
      }
      DeleteDirKeepsWellFormed(entries, path);
      entries := entries - {Paths.Key(path)};
      r := Pass;
    }

    /** `readFile`: the contents of a file, or nothing when the path holds no file. */
    function ReadFile(path: string): (r: Option<Data>)
      reads this
      ensures r.Some? <==> Paths.Key(path) in entries && entries[Paths.Key(path)].File?
      ensures r.Some? ==> entries[Paths.Key(path)] == File(r.value)
    {
      var k := Paths.Key(path);
      if k in entries && entries[k].File? then Some(entries[k].data) else None
    }

    /** `exec`: record the vector; the engine's output files are written where the filesystem allows. */
    method Exec(argv: seq<string>, engine: Engine)
      requires Valid()
      modifies this
      ensures Valid()
      ensures commands == old(commands) + [argv]
      ensures entries == old(entries) + Produced(old(entries), engine(argv))
    {
      ProducedKeepsWellFormed(entries, engine(argv));
      entries := entries + Produced(entries, engine(argv));
      commands := commands + [argv];
    }
  }
}
