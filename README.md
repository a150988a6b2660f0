# react-video-compression: the `getData` bookkeeping, verified

The application compresses an uploaded video in the browser with ffmpeg.wasm.
Its upload handler `getData` (src/App.tsx) runs a staged job over ffmpeg's
in-memory filesystem:

1. write the upload;
2. separate it into a video-only and an audio-only stream;
3. segment each stream into one-second parts (`parts_video/`, `parts_audio/`);
4. compress every listed part into `compressed_parts_video/part-(i-2).mp4` or
   `compressed_parts_audio/part-(i-2).aac`, where `i` is the part's position
   in the directory listing;
5. write two concat manifests (`video_parts.txt`, `audio_parts.txt`);
6. concatenate each stream and mux the two into `output.mp4`;
7. read the result back;
8. delete every file and directory it made.

This project models that bookkeeping in Dafny and proves properties of it.
The media work of ffmpeg is not modelled.

| module (file) | what it models |
|---|---|
| `Wrappers` (wrappers.dfy) | `Option` and `Outcome`, the shapes of a missing value and of a call that can reject |
| `Paths` (paths.dfy) | paths of the in-memory filesystem: a path's key (the path without leading slashes), so that `/x` and `x` name the same file, and a key's parent directory |
| `Text` (text.dfy) | JavaScript `split` with a one-character separator and `pop()` |
| `Decimal` (decimal.dfy) | how a template literal prints an integer, and reading the numeral back |
| `Extension` (extension.dfy) | the container extension taken from the probed file name |
| `Commands` (commands.dfy) | the argument vectors of every stage, and a reader that gives them meaning: ffmpeg's rule that options bind to the next input or output, and `-y` is global |
| `Naming` (naming.dfy) | listings, and the three spellings of a compressed part's name: compression output, manifest line and cleanup target |
| `Manifest` (manifest.dfy) | the manifest loop, and reading a manifest back |
| `Deletions` (deletions.dfy) | a run of awaited deletions with nothing catching a rejection: in order, stopping at the first one refused |
| `Workspace` (workspace.dfy) | the ffmpeg instance as a class: a map from key to file or directory, and a log of executed argument vectors |
| `Pipeline` (pipeline.dfy) | the compression loops and the cleanup |
| `Job` (job.dfy) | `getData` end to end |

Paths are compared by key: the path without its leading slashes.
`/compressed_parts_video/part-0.mp4` and `compressed_parts_video/part-0.mp4`
therefore name the same file.

The filesystem primitives fail by rules of this model's own: a missing parent,
an existing entry, a directory that is not empty, and so on. The library's
real rules are not visible in the source. A primitive that fails returns
`Fail` and changes nothing; every `await` in `getData` that rejects ends the
job, since nothing catches it.

Two behaviours of the code are modelled as written:
- The video manifest is built from the listing of `compressed_parts_audio`,
  and the audio manifest from that of `compressed_parts_video` (src/App.tsx:244-245).
- Separation writes `output-video.<ext>`, but cleanup deletes the fixed name
  `output-video.mp4` (src/App.tsx:67, 354). For any other extension the
  cleanup fails at that step, and `output-audio.aac` is left behind, unless an
  `output-video.mp4` is already there (left, say, by an earlier job that
  stopped early, since a job that stops early deletes nothing).

Other behaviours of the code worth knowing:
- Deleting a path that does not exist is a rejection, not a no-op.
- The manifest follows listing order, numbering each part by its position.
  It does not sort by the number in the file name.

## Model

| member | source | states |
|---|---|---|
| Text.LastIsSuffixAfterSeparator | src/App.tsx:197 | `split(sep).pop()` is the longest separator-free suffix: it ends the string, is preceded by a separator unless it is the whole string, and is the whole string exactly when there is no separator |
| Text.JoinSplit | src/App.tsx:197 | joining the pieces of `split` with the separator gives back the original string |
| Text.SplitJoin | src/App.tsx:197 | splitting a join of separator-free pieces gives back the pieces |
| Extension.InputExtensionSpec | src/App.tsx:197 | the extension is never empty; it falls back to `mp4` when the name is empty or ends in `.`; otherwise it is the dot-free suffix after the last `.`, and the whole name when there is no `.` |
| Decimal.IntToString | src/App.tsx:230 | `${n}` is non-empty, made of digits and `-`, and starts with `-` exactly when `n` is negative |
| Decimal.ParseIntToString | src/App.tsx:230 | reading the printed numeral back gives the integer |
| Decimal.IntToStringInjective | src/App.tsx:236 | two integers print the same exactly when they are equal |
| Commands.SeparateMeaning | src/App.tsx:59-72 | separation reads the input once and writes `output-video.<ext>` with `-c:v copy -an` and `output-audio.aac` with `-c:a copy` |
| Commands.SeparateCopiesStreams | src/App.tsx:59-72 | separation only stream-copies, so it selects no encoder |
| Commands.SplitMeaning | src/App.tsx:74-102 | segmenting reads the input and writes `<pattern>.<ext>` with `-f segment -segment_time <duration> -c copy`; the audio vector equals the video vector |
| Commands.SplitCopiesStreams | src/App.tsx:74-102 | segmenting only stream-copies, so it selects no encoder |
| Commands.CompressMeaning | src/App.tsx:104-128 | video compression writes its one output with `-c:v libx264 -crf 30`, audio compression with `-c:a aac -b:a 128k`, from the input after `-i` |
| Commands.CompressStagesEncode | src/App.tsx:104-128 | the compression vectors select exactly one encoder each (`libx264`, `aac`), read the input after `-i` and write the last element |
| Commands.ConcatMeaning | src/App.tsx:266-268 | concatenation reads the manifest with `-f concat -safe 0`, is global `-y`, and writes its output with `-c copy` |
| Commands.ConcatCopiesStreams | src/App.tsx:266-268 | concatenation only stream-copies, so it selects no encoder |
| Commands.MuxMeaning | src/App.tsx:150-163 | muxing reads the video and then the audio and writes `output.mp4` with `-c:v copy -c:a copy` |
| Commands.MuxCopiesStreams | src/App.tsx:275 | the mux issued by `getData` only stream-copies, so it selects no encoder |
| Naming.PartPathsAgree | src/App.tsx:310-319 | the path the cleanup deletes for position `i` has the key the compression wrote for `i`; that key lies directly in the compressed directory and reads back as the number `i - 2` |
| Naming.PartNumberRoundTrip | src/App.tsx:230 | the number read back out of `part-${i - 2}` is `i - 2` |
| Naming.CompressOutputPathInjective | src/App.tsx:227-237 | two compressed-part names coincide exactly when kind and listing position do |
| Naming.FilePositions | src/App.tsx:227-237 | the positions the loops act on are exactly the non-directory entries, strictly increasing |
| Naming.FilePositionsCount | src/App.tsx:249-262 | there is one position per non-directory entry, and none exactly when every entry is a directory |
| Manifest.BuildManifest | src/App.tsx:249-253 | the loop builds `ManifestOf(listing, kind)` |
| Manifest.ManifestPrefixRenders | src/App.tsx:249-262 | after any number of entries the loop has appended one line per non-directory entry so far, in listing order |
| Manifest.ManifestLines | src/App.tsx:249-262 | the manifest splits at `\n` into one `file '/compressed_parts_<kind>/part-<i-2>.<ext>'` line per non-directory entry, in increasing position, and nothing after the last newline |
| Manifest.ParseEntryLine | src/App.tsx:252 | a manifest line reads back as the number of the position it was written for |
| Manifest.ManifestRoundTrip | src/App.tsx:249-262 | reading a manifest back gives the part numbers of the non-directory entries: one per entry, strictly increasing, so with no duplicates |
| Manifest.ManifestEmpty | src/App.tsx:257-262 | a manifest is empty exactly when every listed entry is a directory |
| Workspace.Workspace.constructor | src/App.tsx:9 | a new instance has an empty filesystem and an empty log |
| Workspace.Workspace.CreateDir | src/App.tsx:206-207 | on success the key becomes a directory; on failure the error is returned and nothing changes |
| Workspace.Workspace.WriteFile | src/App.tsx:194 | on success the key holds the data, replacing any file there; on failure nothing changes |
| Workspace.Workspace.DeleteFile | src/App.tsx:294-301 | on success exactly the key is removed; a missing key or a directory is refused and nothing changes |
| Workspace.Workspace.DeleteDir | src/App.tsx:322-325 | on success exactly the key is removed; a missing key, a file or a directory with entries is refused |
| Workspace.Workspace.ReadFile | src/App.tsx:278 | the contents are returned exactly when the key holds a file |
| Workspace.Workspace.Exec | src/App.tsx:266 | the vector is appended to the log, and the engine's outputs land only where a write would succeed |
| Workspace.DeleteDirKeepsWellFormed | src/App.tsx:343-346 | deleting an empty directory leaves every remaining entry inside an existing directory |
| Workspace.AbsentDirectoryIsEmpty | src/App.tsx:322-325 | in a well-formed filesystem nothing lies in a directory that is gone |
| Pipeline.RunAllKeeps | src/App.tsx:230-275 | running commands never removes an entry and never turns a directory into a file |
| Pipeline.CompressParts | src/App.tsx:227-237 | the loop logs exactly `CompressPlan` and leaves the engine's outputs of that plan, in order |
| Pipeline.CompressPlanFollowsFiles | src/App.tsx:227-237 | the plan has one command per non-directory entry, in listing order |
| Pipeline.CompressPlanOutputs | src/App.tsx:227-237 | entry `i` is compressed from `/parts_<kind>/<name>` to `compressed_parts_<kind>/part-(i-2).<ext>` with that kind's encoder; directory entries get no command; no two commands write the same file |
| Pipeline.CompressCommandMeaning | src/App.tsx:230-236 | each compression command reads the raw part and writes the numbered compressed part with the kind's encoder |
| Pipeline.PartKeysAreCompressOutputs | src/App.tsx:307-320 | the cleanup targets exactly the names the compression wrote for the non-directory positions |
| Pipeline.PartKeysInCompressedDir | src/App.tsx:307-320 | every compressed-part target lies directly in its compressed directory |
| Pipeline.DeletePartFiles | src/App.tsx:307-311 | the loop removes the targets of the positions it reached; it completes exactly when every deletion succeeds, and otherwise stops at a file entry whose deletion was refused. Its removed set and outcome are those of `Perform` over the loop's deletions `PartDeletions` |
| Pipeline.DeleteRawFiles | src/App.tsx:330-334 | the loop removes `parts_<kind>/<name>` for the positions it reached; it completes exactly when every deletion succeeds, and otherwise stops at a refused file entry. Its removed set and outcome are those of `Perform` over `RawDeletions` |
| Pipeline.DeleteJobFiles | src/App.tsx:294-301 | removes at most the upload, `output.mp4` and the two manifests, and all of them on success. Removed set and outcome are `Perform` of the four deletions in order, so a refusal leaves the earlier targets removed and the later ones in place (a missing upload: nothing removed) |
| Pipeline.DeleteCompressedStage | src/App.tsx:303-325 | lists `compressed_parts_audio` before deleting anything, and `compressed_parts_video` once the audio deletions have run; removes only keys in the compressed directories; on success removes exactly the listed parts of both and the two directories. Removed set and outcome are `Perform` of the audio parts, the video parts and the two directories in order |
| Pipeline.DeleteRawStage | src/App.tsx:327-346 | lists both raw directories in the state before any deletion; removes only keys in the raw directories; on success removes exactly the listed parts of both and the two directories. Removed set and outcome are `Perform` of the audio parts, the video parts and the two directories in order |
| Pipeline.DeleteStreams | src/App.tsx:348-356 | removes at most the four fixed stream names, and all of them on success; when `output-video.mp4` is absent it fails, and `output-audio.aac` stays. Removed set and outcome are `Perform` of the four deletions in order |
| Pipeline.DeleteWorkingFiles | src/App.tsx:303-356 | the cleanup after the job files: both stages and the streams; removed set and outcome are `Perform` of their deletions in order, with the listings read as the source reads them |
| Pipeline.Cleanup | src/App.tsx:291-356 | only removes entries, and only the job's files and what lies in the working directories. On success those files and the four directories are gone and nothing lies in them. Without `output-video.mp4` it fails. Its removed set and outcome are `Perform` of every deletion the source issues, in order, with each listing taken from the state the earlier deletions left |
| Pipeline.CleanupStopsAtMissingUpload | src/App.tsx:294 | when the upload is not there, the cleanup's first deletion is refused and nothing at all is removed |
| Pipeline.StreamsStopAtSeparatedVideo | src/App.tsx:348-356 | with both compressed streams present and no `output-video.mp4`, the last step removes exactly the two compressed streams and fails |
| Pipeline.CleanupStopsAtSeparatedVideo | src/App.tsx:291-356 | when every deletion before the streams succeeds and no `output-video.mp4` exists, the cleanup removes exactly the earlier targets and the two compressed streams, and fails; `output-audio.aac` stays |
| Deletions.PerformStopsAtRefusal | src/App.tsx:291-356 | a run of awaited deletions removes only existing keys; it completes having removed exactly its targets, or stops at a deletion `j` refused in the state the first `j` left, having removed exactly their targets |
| Deletions.PerformAppend | src/App.tsx:291-356 | running two runs back to back is running their concatenation: the second only starts when the first completed, on the state it left |
| Pipeline.StageDirsEmpty | src/App.tsx:343-346 | once the working directories are gone nothing lies directly in them |
| Job.HeadCopies | src/App.tsx:199-214 | the separation and both segmentations stream-copy |
| Job.TailCopies | src/App.tsx:266-275 | both concatenations and the mux stream-copy |
| Job.PlanEncodes | src/App.tsx:227-237 | each compression loop issues one command per non-directory entry, each selecting exactly the kind's encoder |
| Job.JobEncoding | src/App.tsx:199-275 | a completed run issues `6 + nv + na` commands: the first three and the last three copy, then one `libx264` command per video part and one `aac` command per audio part |
| Job.SeparatedVideoName | src/App.tsx:354 | the file separation writes (line 67) is the file the cleanup deletes exactly when the extension is `mp4` |
| Job.SeparatedVideoRemovedOnlyForMp4 | src/App.tsx:348-356 | the cleanup can remove `output-video.<ext>` only when `ext` is `mp4`, unless the upload bears that name |
| Job.SplitMakesRawDirs | src/App.tsx:194-214 | after the first phase the upload is written and `parts_audio` and `parts_video` exist as directories |
| Job.CompressMakesCompressedDirs | src/App.tsx:223-237 | after the second phase `compressed_parts_audio` and `compressed_parts_video` exist as directories, and nothing earlier is gone |
| Job.AssembleKeepsManifests | src/App.tsx:255-275 | after the third phase `video_parts.txt` and `audio_parts.txt` are present, and nothing earlier is gone |
| Job.Split | src/App.tsx:194-214 | on success the log grows by separation and the two segmentations, and the filesystem is the old one with the upload written, the separation run, `parts_audio` then `parts_video` created, and both segmentations run. Whether it succeeds or fails, it keeps every earlier entry and only extends the log |
| Job.Compress | src/App.tsx:223-237 | on success the log grows by the video plan, then the audio plan, and the filesystem is the old one with `compressed_parts_audio` then `compressed_parts_video` created and both plans run. Whether it succeeds or fails, it keeps every earlier entry and only extends the log |
| Job.WriteManifests | src/App.tsx:255-264 | on success the two manifest files hold the two texts; either way every earlier entry is kept and the log is unchanged |
| Job.Assemble | src/App.tsx:244-275 | the video manifest is built from the audio directory's listing and the audio manifest from the video directory's; on success the log grows by both concatenations and the mux, and the filesystem is the old one with both manifests written and those three commands run. Whether it succeeds or fails, it keeps every earlier entry and only extends the log |
| Job.GetData | src/App.tsx:178-371 | no metadata means no effect. A finished run has the extension of line 197, the filesystem states after each phase as the phases state them, listings taken from those states, the swapped manifests and the full command log, and returns the contents of `output.mp4`. Its cleanup removes only the job's files and what lies in the working directories, and fails when `output-video.mp4` was never there, in which case `output-audio.aac` stays unless the upload bears that name. The cleanup's removed set and outcome are `Perform` of every deletion it issues, in order, over the state the read left, with the listings it read recorded in the trace. A run that stops early (`Aborted`) deletes nothing and only extends the log |

## Left out

- Loading the ffmpeg core (src/App.tsx:17-41): network and runtime initialisation.
- The media effect of `exec`: it is the parameter `Engine`, a function from an argument vector to the files it writes. The model does not say which files ffmpeg writes or what they contain.
- FFprobe (src/App.tsx:14, 166-174, 185): the probed file name is a parameter, and missing metadata is `None`. The result metadata (`setResultMeta`, line 288) is not modelled.
- `listDir`: the parameter `Lister`, a function of the directory and the filesystem state. Its order, any `.` or `..` entries, and its failures are library behaviour. The calls that only log (`listDir('/')`) are left out.
- The `exec` calls that are not awaited (src/App.tsx:199, 213-214, 230, 236) run in the order issued. Their interleaving with later operations is concurrency and is not modelled.
- `concatVideoParts` and the empty `concatAudioParts` (src/App.tsx:130-147): `getData` calls neither.
- React state, blob URLs, the video element, console logging and the metadata tables (src/App.tsx:8-13, 187, 191, 281-288, 373-514): UI.
- Workspace.Workspace.WriteFile: text is stored as characters. The UTF-8 encoding ffmpeg.wasm applies to a string is not modelled.
- Decimal.IntToString: JavaScript numbers are doubles, but the model prints every integer exactly. Listing positions never come near 2^53.
- Workspace.Workspace.ReadFile: reading a directory or a missing path yields `None`. `GetData` turns that into the model's `IsDirectory` or `NotFound` error, because the library's own rejection is not visible.
- The filesystem failure rules are this model's assumption, not the library's documented behaviour.
