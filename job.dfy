/**
 * `getData`: one upload from file to compressed result and back to an empty
 * workspace. Every awaited filesystem call that fails ends the job there;
 * the calls that issue an ffmpeg command run in the order they are issued.
 */
module Job {
  import opened Wrappers
  import Paths
  import Commands
  import Extension
  import opened Naming
  import opened Manifest
  import opened Workspace
  import opened Pipeline
  import opened Deletions

  /** How a run of `getData` ends. */
  datatype JobResult =
    | NoMetadata
    | Aborted(error: FsError)
    | Finished(output: Data, cleanup: Outcome<FsError>)

  /**
   * What a run went through: the extension, the listings, the two manifests,
   * the states in between, and the directory listings the cleanup read.
   */
  datatype Trace = Trace(
    ext: string,
    split: map<string, Node>,
    videoParts: seq<Entry>,
    audioParts: seq<Entry>,
    compressed: map<string, Node>,
    videoManifest: string,
    audioManifest: string,
    assembled: map<string, Node>,
    removed: set<string>,
    cleanupCompressedAudio: seq<Entry>,
    cleanupCompressedVideo: seq<Entry>,
    cleanupRawAudio: seq<Entry>,
    cleanupRawVideo: seq<Entry>)

  /** The segment-name patterns handed to the segmenter. */
  const VideoPattern: string := "parts_video/video_part_%d"
  const AudioPattern: string := "parts_audio/audio_part_%d"

  /** The commands before the compression loops: separate, then segment each stream. */
  function JobHead(fileName: string, ext: string): seq<Commands.Argv>
  {
    [Commands.SeparateVideoAndAudio(fileName, ext),
     Commands.SplitVideo("output-video." + ext, VideoPattern, ext, 1),
     Commands.SplitAudio("output-audio.aac", AudioPattern, "aac", 1)]
  }

  /** The commands after the manifests are written: concatenate each stream, then mux. */
  function JobTail(): seq<Commands.Argv>
  {
    [Commands.ConcatParts("video_parts.txt", "output-compressed.mp4"),
     Commands.ConcatParts("audio_parts.txt", "output-compressed.aac"),
     Commands.ConcatVideoAndAudio("output-compressed.mp4", "output-compressed.aac")]
  }

  /** Every command a completed run issues, in order. */
  function JobCommands(fileName: string, ext: string, videoParts: seq<Entry>, audioParts: seq<Entry>): seq<Commands.Argv>
  {
    JobHead(fileName, ext)
    + CompressPlan(Video, videoParts, |videoParts|)
    + CompressPlan(Audio, audioParts, |audioParts|)
    + JobTail()
  }

  /** A command that parses and only stream-copies. */
  predicate CopyCommand(argv: Commands.Argv)
  {
    Commands.Parse(argv).Some? && Commands.StreamCopyOnly(Commands.Parse(argv).value)
  }

  /** A command that parses and selects exactly the given encoder. */
  predicate EncodeCommand(argv: Commands.Argv, encoder: string)
  {
    Commands.Parse(argv).Some? && Commands.Encoders(Commands.Parse(argv).value) == {encoder}
  }

  lemma HeadCopies(fileName: string, ext: string)
    ensures |JobHead(fileName, ext)| == 3
    ensures forall j :: 0 <= j < 3 ==> CopyCommand(JobHead(fileName, ext)[j])
  {
    Commands.SeparateCopiesStreams(fileName, ext);
    Commands.SplitCopiesStreams("output-video." + ext, VideoPattern, ext, 1);
    Commands.SplitCopiesStreams("output-audio.aac", AudioPattern, "aac", 1);
    assert Commands.SplitAudio("output-audio.aac", AudioPattern, "aac", 1)
        == Commands.SplitVideo("output-audio.aac", AudioPattern, "aac", 1);
  }

  lemma TailCopies()
    ensures |JobTail()| == 3
    ensures forall j :: 0 <= j < 3 ==> CopyCommand(JobTail()[j])
  {
    Commands.ConcatCopiesStreams("video_parts.txt", "output-compressed.mp4");
    Commands.ConcatCopiesStreams("audio_parts.txt", "output-compressed.aac");
    Commands.MuxCopiesStreams("output-compressed.mp4", "output-compressed.aac");
  }

  lemma PlanEncodes(kind: Kind, listing: seq<Entry>)
    ensures |CompressPlan(kind, listing, |listing|)| == FileCount(listing)
    ensures forall j :: 0 <= j < FileCount(listing) ==>
      EncodeCommand(CompressPlan(kind, listing, |listing|)[j], Encoder(kind))
  {
    CompressPlanOutputs(kind, listing);
  }

  /**
   * Only the compression commands encode: the first three and the last
   * three commands of a run stream-copy, the next one per listed video
   * segment selects `libx264`, and the one per listed audio segment `aac`.
   */
  lemma JobEncoding(fileName: string, ext: string, videoParts: seq<Entry>, audioParts: seq<Entry>)
    ensures var cmds := JobCommands(fileName, ext, videoParts, audioParts);
      var nv, na := FileCount(videoParts), FileCount(audioParts);
      && |cmds| == 6 + nv + na
      && (forall j :: (0 <= j < 3 || 3 + nv + na <= j < |cmds|) ==> CopyCommand(cmds[j]))
      && (forall j :: 3 <= j < 3 + nv ==> EncodeCommand(cmds[j], "libx264"))
      && (forall j :: 3 + nv <= j < 3 + nv + na ==> EncodeCommand(cmds[j], "aac"))
  {
    var head, tail := JobHead(fileName, ext), JobTail();
    var pv := CompressPlan(Video, videoParts, |videoParts|);
    var pa := CompressPlan(Audio, audioParts, |audioParts|);
    var cmds := JobCommands(fileName, ext, videoParts, audioParts);
    HeadCopies(fileName, ext);
    TailCopies();
    PlanEncodes(Video, videoParts);
    PlanEncodes(Audio, audioParts);
    var nv, na := |pv|, |pa|;
    forall j | 0 <= j < |cmds|
      ensures (j < 3 || 3 + nv + na <= j) ==> CopyCommand(cmds[j])
      ensures 3 <= j < 3 + nv ==> EncodeCommand(cmds[j], "libx264")
      ensures 3 + nv <= j < 3 + nv + na ==> EncodeCommand(cmds[j], "aac")
    {
      if j < 3 {
        assert cmds[j] == head[j];
      } else if j < 3 + nv {
        assert cmds[j] == pv[j - 3];
      } else if j < 3 + nv + na {
        assert cmds[j] == pa[j - 3 - nv];
      } else {
        assert cmds[j] == tail[j - 3 - nv - na];
      }
    }
  }

  /** The separated video is the file the cleanup deletes exactly when the probed extension is `mp4`. */
  lemma SeparatedVideoName(ext: string)
    ensures "output-video." + ext == "output-video.mp4" <==> ext == "mp4"
  {
    if "output-video." + ext == "output-video.mp4" {
      assert ext == ("output-video." + ext)[13..];
    }
  }

  /**
   * The separated video `output-video.<ext>` is among what a cleanup can
   * remove only when `ext` is `mp4` (unless the upload itself bears that
   * name): the cleanup names `output-video.mp4` and nothing else like it.
   */
  lemma SeparatedVideoRemovedOnlyForMp4(video: string, ext: string, removed: set<string>)
    requires forall k :: k in removed ==> k in JobFileKeys(video) || k in StreamKeys() || InStageDir(k)
    requires Paths.Key(video) != "output-video." + ext
    ensures "output-video." + ext in removed ==> ext == "mp4"
  {
    var k := "output-video." + ext;
    if k in removed {
      OutsideStageDirs(k);
      SeparatedVideoNotJobFile(video, ext);
      SeparatedVideoStream(ext);
    }
  }

  lemma SeparatedVideoNotJobFile(video: string, ext: string)
    requires Paths.Key(video) != "output-video." + ext
    ensures "output-video." + ext !in JobFileKeys(video)
  {
    var k := "output-video." + ext;
    assert k[6] == '-' && k[0] == 'o';
    assert "output.mp4"[6] == '.' && "video_parts.txt"[0] == 'v' && "audio_parts.txt"[0] == 'a';
  }

  lemma SeparatedVideoStream(ext: string)
    ensures "output-video." + ext in StreamKeys() ==> ext == "mp4"
  {
    var k := "output-video." + ext;
    assert k[7] == 'v';
    assert "output-compressed.mp4"[7] == 'c' && "output-compressed.aac"[7] == 'c' && "output-audio.aac"[7] == 'a';
    SeparatedVideoName(ext);
  }

  /**
   * The filesystem after a successful first phase: the upload written, the
   * separation run, the raw directories created (audio first) and both
   * segmentations run.
   */
  function AfterSplit(m: map<string, Node>, fileName: string, fileData: seq<bv8>, ext: string, engine: Engine): map<string, Node>
  {
    var head := JobHead(fileName, ext);
    var separated := Run(m[Paths.Key(fileName) := File(Bytes(fileData))], head[0], engine);
    var dirs := separated[RawDir(Audio) := Dir][RawDir(Video) := Dir];
    Run(Run(dirs, head[1], engine), head[2], engine)
  }

  /** The filesystem after a successful second phase: the compressed directories created, then both plans run. */
  function AfterCompress(m: map<string, Node>, videoParts: seq<Entry>, audioParts: seq<Entry>, engine: Engine): map<string, Node>
  {
    var dirs := m[CompressedDir(Audio) := Dir][CompressedDir(Video) := Dir];
    RunAll(RunAll(dirs, CompressPlan(Video, videoParts, |videoParts|), engine), CompressPlan(Audio, audioParts, |audioParts|), engine)
  }

  /** The filesystem after a successful third phase: both manifests written, then the concatenations and the mux run. */
  function AfterAssemble(m: map<string, Node>, videoManifest: string, audioManifest: string, engine: Engine): map<string, Node>
  {
    RunAll(m["video_parts.txt" := File(Text(videoManifest))]["audio_parts.txt" := File(Text(audioManifest))], JobTail(), engine)
  }

  /** After the first phase the upload's key is taken and both raw directories exist. */
  lemma SplitMakesRawDirs(m: map<string, Node>, fileName: string, fileData: seq<bv8>, ext: string, engine: Engine)
    ensures var s := AfterSplit(m, fileName, fileData, ext, engine);
      && Paths.Key(fileName) in s
      && RawDir(Audio) in s && s[RawDir(Audio)].Dir?
      && RawDir(Video) in s && s[RawDir(Video)].Dir?
  {
    var head := JobHead(fileName, ext);
    var written := m[Paths.Key(fileName) := File(Bytes(fileData))];
    RunAllKeeps(written, [head[0]], engine);
    assert RunAll(written, [head[0]], engine) == Run(written, head[0], engine) by {
      assert [head[0]][..0] == [];
    }
    var dirs := Run(written, head[0], engine)[RawDir(Audio) := Dir][RawDir(Video) := Dir];
    RunAllKeeps(dirs, head[1..], engine);
    assert RunAll(dirs, head[1..], engine) == Run(Run(dirs, head[1], engine), head[2], engine) by {
      var tail := head[1..];
      assert tail[..1][..0] == [] && tail[..1][0] == head[1] && tail[1] == head[2];
      assert RunAll(dirs, tail[..1], engine) == Run(dirs, head[1], engine);
    }
  }

  /** After the second phase both compressed directories exist, and everything that was there still is. */
  lemma CompressMakesCompressedDirs(m: map<string, Node>, videoParts: seq<Entry>, audioParts: seq<Entry>, engine: Engine)
    ensures var c := AfterCompress(m, videoParts, audioParts, engine);
      && CompressedDir(Audio) in c && c[CompressedDir(Audio)].Dir?
      && CompressedDir(Video) in c && c[CompressedDir(Video)].Dir?
      && (forall k :: k in m ==> k in c)
  {
    var dirs := m[CompressedDir(Audio) := Dir][CompressedDir(Video) := Dir];
    var pv := CompressPlan(Video, videoParts, |videoParts|);
    RunAllKeeps(dirs, pv, engine);
    RunAllKeeps(RunAll(dirs, pv, engine), CompressPlan(Audio, audioParts, |audioParts|), engine);
  }

  /** When the concatenations run, both manifest files are in place. */
  lemma AssembleKeepsManifests(m: map<string, Node>, videoManifest: string, audioManifest: string, engine: Engine)
    ensures var a := AfterAssemble(m, videoManifest, audioManifest, engine);
      "video_parts.txt" in a && "audio_parts.txt" in a && (forall k :: k in m ==> k in a)
  {
    RunAllKeeps(m["video_parts.txt" := File(Text(videoManifest))]["audio_parts.txt" := File(Text(audioManifest))], JobTail(), engine);
  }

  /**
   * The first phase: write the upload, separate it into its two streams,
   * create the raw directories (audio first) and segment each stream.
   */
  method Split(ws: Workspace, fileName: string, fileData: seq<bv8>, ext: string, engine: Engine)
    returns (r: Outcome<FsError>)
    requires ws.Valid()
    modifies ws
    ensures ws.Valid()
    ensures forall k :: k in old(ws.entries) ==> k in ws.entries
    ensures old(ws.commands) <= ws.commands
    ensures r.Pass? ==> ws.commands == old(ws.commands) + JobHead(fileName, ext)
    ensures r.Pass? ==> ws.entries == AfterSplit(old(ws.entries), fileName, fileData, ext, engine)
  {
    var head := JobHead(fileName, ext);
    r := ws.WriteFile(fileName, Bytes(fileData));
    if r.Fail? {
      return;
    }
    ws.Exec(head[0], engine);
    Paths.RelativeKey(RawDir(Audio));
    Paths.RelativeKey(RawDir(Video));
    r := ws.CreateDir(RawDir(Audio));
    if r.Fail? {
      return;
    }
    r := ws.CreateDir(RawDir(Video));
    if r.Fail? {
      return;
    }
    ws.Exec(head[1], engine);
    ws.Exec(head[2], engine);
    AppendThree(old(ws.commands), head);
  }

  /** The second phase: create the compressed directories (audio first) and compress every listed segment. */
  method Compress(ws: Workspace, videoParts: seq<Entry>, audioParts: seq<Entry>, engine: Engine)
    returns (r: Outcome<FsError>)
    requires ws.Valid()
    modifies ws
    ensures ws.Valid()
    ensures forall k :: k in old(ws.entries) ==> k in ws.entries
    ensures old(ws.commands) <= ws.commands
    ensures r.Pass? ==>
      ws.commands == old(ws.commands) + CompressPlan(Video, videoParts, |videoParts|) + CompressPlan(Audio, audioParts, |audioParts|)
    ensures r.Pass? ==> ws.entries == AfterCompress(old(ws.entries), videoParts, audioParts, engine)
  {
    Paths.RelativeKey(CompressedDir(Audio));
    Paths.RelativeKey(CompressedDir(Video));
    r := ws.CreateDir(CompressedDir(Audio));
    if r.Fail? {
      return;
    }
    r := ws.CreateDir(CompressedDir(Video));
    if r.Fail? {
      return;
    }
    ghost var dirs := ws.entries;
    CompressParts(ws, Video, videoParts, engine);
    RunAllKeeps(dirs, CompressPlan(Video, videoParts, |videoParts|), engine);
    ghost var compressedVideo := ws.entries;
    CompressParts(ws, Audio, audioParts, engine);
    RunAllKeeps(compressedVideo, CompressPlan(Audio, audioParts, |audioParts|), engine);
  }

  /**
   * The third phase: build both manifests from the compressed directories'
   * listings, write them, concatenate each stream and mux the two. The
   * video manifest is built from the audio directory's listing and the
   * audio manifest from the video directory's, as the source reads them.
   */
  method Assemble(ws: Workspace, engine: Engine, lister: Lister)
    returns (r: Outcome<FsError>, videoManifest: string, audioManifest: string)
    requires ws.Valid()
    modifies ws
    ensures ws.Valid()
    ensures forall k :: k in old(ws.entries) ==> k in ws.entries
    ensures old(ws.commands) <= ws.commands
    ensures videoManifest == ManifestOf(lister(CompressedDir(Audio), old(ws.entries)), Video)
    ensures audioManifest == ManifestOf(lister(CompressedDir(Video), old(ws.entries)), Audio)
    ensures r.Pass? ==> ws.commands == old(ws.commands) + JobTail()
    ensures r.Pass? ==> ws.entries == AfterAssemble(old(ws.entries), videoManifest, audioManifest, engine)
  {
    var videoListing := lister(CompressedDir(Audio), ws.entries);
    var audioListing := lister(CompressedDir(Video), ws.entries);
    videoManifest := BuildManifest(videoListing, Video);
    audioManifest := BuildManifest(audioListing, Audio);
    r := WriteManifests(ws, videoManifest, audioManifest);
    if r.Fail? {
      return;
    }
    ws.Exec(Commands.ConcatParts("video_parts.txt", "output-compressed.mp4"), engine);
    ws.Exec(Commands.ConcatParts("audio_parts.txt", "output-compressed.aac"), engine);
    ws.Exec(Commands.ConcatVideoAndAudio("output-compressed.mp4", "output-compressed.aac"), engine);
    AppendThree(old(ws.commands), JobTail());
    RunThree(old(ws.entries)["video_parts.txt" := File(Text(videoManifest))]["audio_parts.txt" := File(Text(audioManifest))], JobTail(), engine);
  }

  /** The two manifest writes, video first; the second is issued only when the first succeeds. */
  method WriteManifests(ws: Workspace, videoManifest: string, audioManifest: string) returns (r: Outcome<FsError>)
    requires ws.Valid()
    modifies ws
    ensures ws.Valid() && ws.commands == old(ws.commands)
    ensures forall k :: k in old(ws.entries) ==> k in ws.entries
    ensures r.Pass? ==>
      ws.entries == old(ws.entries)["video_parts.txt" := File(Text(videoManifest))]["audio_parts.txt" := File(Text(audioManifest))]
  {
    Paths.RelativeKey("video_parts.txt");
    Paths.RelativeKey("audio_parts.txt");
    r := ws.WriteFile("video_parts.txt", Text(videoManifest));
    if r.Fail? {
      return;
    }
    r := ws.WriteFile("audio_parts.txt", Text(audioManifest));
  }

  /**
   * `getData` for one upload. Without metadata nothing happens. Otherwise
   * the three phases run, the result is read back and the workspace is
   * cleaned up; the first filesystem call that fails ends the job.
   */
  method GetData(ws: Workspace, fileName: string, fileData: seq<bv8>, probed: Option<string>,
                 engine: Engine, lister: Lister) returns (result: JobResult, ghost trace: Trace)
    requires ws.Valid()
    modifies ws
    ensures ws.Valid()
    ensures result.Aborted? ==>
      && (forall k :: k in old(ws.entries) ==> k in ws.entries)
      && old(ws.commands) <= ws.commands
    ensures result.NoMetadata? <==> probed.None?
    ensures result.NoMetadata? ==> ws.entries == old(ws.entries) && ws.commands == old(ws.commands)
    ensures result.Finished? ==>
      && trace.ext == Extension.InputExtension(probed.value)
      && trace.split == AfterSplit(old(ws.entries), fileName, fileData, trace.ext, engine)
      && trace.videoParts == lister(RawDir(Video), trace.split)
      && trace.audioParts == lister(RawDir(Audio), trace.split)
      && trace.compressed == AfterCompress(trace.split, trace.videoParts, trace.audioParts, engine)
      && trace.videoManifest == ManifestOf(lister(CompressedDir(Audio), trace.compressed), Video)
      && trace.audioManifest == ManifestOf(lister(CompressedDir(Video), trace.compressed), Audio)
      && trace.assembled == AfterAssemble(trace.compressed, trace.videoManifest, trace.audioManifest, engine)
      && ws.commands == old(ws.commands) + JobCommands(fileName, trace.ext, trace.videoParts, trace.audioParts)
      && "output.mp4" in trace.assembled && trace.assembled["output.mp4"] == File(result.output)
      && ws.entries == trace.assembled - trace.removed
      && (forall k :: k in trace.removed ==> k in JobFileKeys(fileName) || k in StreamKeys() || InStageDir(k))
      && (result.cleanup.Pass? ==> JobFileKeys(fileName) + StreamKeys() + StageDirs() <= trace.removed)
      && (result.cleanup.Pass? ==> forall k :: k in ws.entries ==> Paths.Parent(k) !in StageDirs())
      && ("output-video.mp4" !in trace.assembled ==> result.cleanup.Fail?)
      && ("output-video.mp4" !in trace.assembled && Paths.Key(fileName) != "output-audio.aac" ==>
          "output-audio.aac" !in trace.removed)
      && Perform(trace.assembled, CleanupDeletions(fileName, trace.cleanupCompressedAudio, trace.cleanupCompressedVideo,
                                                   trace.cleanupRawAudio, trace.cleanupRawVideo))
         == Sweep(trace.removed, result.cleanup.Pass?)
      && (var jobs := Perform(trace.assembled, JobFileDeletions(fileName));
          jobs.complete ==>
            && trace.cleanupCompressedAudio == lister(CompressedDir(Audio), trace.assembled - jobs.removed)
            && trace.cleanupCompressedVideo == lister(CompressedDir(Video), trace.assembled
                 - Perform(trace.assembled, JobFileDeletions(fileName)
                           + PartDeletions(Audio, trace.cleanupCompressedAudio, |trace.cleanupCompressedAudio|)).removed))
      && (var before := Perform(trace.assembled, JobFileDeletions(fileName)
                                + CompressedStageDeletions(trace.cleanupCompressedAudio, trace.cleanupCompressedVideo));
          before.complete ==>
            && trace.cleanupRawAudio == lister(RawDir(Audio), trace.assembled - before.removed)
            && trace.cleanupRawVideo == lister(RawDir(Video), trace.assembled - before.removed))
  {
    trace := Trace("", map[], [], [], map[], "", "", map[], {}, [], [], [], []);
    if probed.None? {
      return NoMetadata, trace;
    }
    var ext := Extension.InputExtension(probed.value);
    var r := Split(ws, fileName, fileData, ext, engine);
    if r.Fail? {
      return Aborted(r.error), trace;
    }
    ghost var split := ws.entries;
    var videoParts := lister(RawDir(Video), ws.entries);
    var audioParts := lister(RawDir(Audio), ws.entries);
    r := Compress(ws, videoParts, audioParts, engine);
    if r.Fail? {
      return Aborted(r.error), trace;
    }
    ghost var compressed := ws.entries;
    var videoManifest, audioManifest;
    r, videoManifest, audioManifest := Assemble(ws, engine, lister);
    if r.Fail? {
      return Aborted(r.error), trace;
    }
    ghost var head, pv, pa := JobHead(fileName, ext),
      CompressPlan(Video, videoParts, |videoParts|), CompressPlan(Audio, audioParts, |audioParts|);
    ConcatAssociates(old(ws.commands), head, pv, pa, JobTail());
    var output := ws.ReadFile("output.mp4");
    Paths.RelativeKey("output.mp4");
    if output.None? {
      return Aborted(if "output.mp4" in ws.entries then IsDirectory("output.mp4") else NotFound("output.mp4")), trace;
    }
    ghost var assembled := ws.entries;
    var cleanup;
    ghost var removed, compressedAudio, compressedVideo, rawAudio, rawVideo;
    cleanup, removed, compressedAudio, compressedVideo, rawAudio, rawVideo := Cleanup(ws, fileName, lister);
    trace := Trace(ext, split, videoParts, audioParts, compressed, videoManifest, audioManifest, assembled, removed,
                   compressedAudio, compressedVideo, rawAudio, rawVideo);
    result := Finished(output.value, cleanup);
  }

  /** Three commands issued one after the other extend the log by those three. */
  lemma AppendThree(log: seq<Commands.Argv>, cmds: seq<Commands.Argv>)
    requires |cmds| == 3
    ensures log + [cmds[0]] + [cmds[1]] + [cmds[2]] == log + cmds
  {
    assert cmds == [cmds[0], cmds[1], cmds[2]];
  }

  lemma ConcatAssociates(a: seq<Commands.Argv>, b: seq<Commands.Argv>, c: seq<Commands.Argv>, d: seq<Commands.Argv>, e: seq<Commands.Argv>)
    ensures a + b + c + d + e == a + (b + c + d + e)
  {
  }
}
