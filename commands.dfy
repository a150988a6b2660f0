/**
 * The argument vectors `getData` hands to `ffmpeg.exec`, and a reading of
 * them by the rules of ffmpeg's command line: options written before `-i`
 * belong to that input, options written before an output path belong to
 * that output, `-y` is global. The reading is what gives the vectors a
 * meaning to state properties about (which output is stream-copied, which
 * one is encoded and with what).
 */
module Commands {
  import opened Wrappers
  import Decimal

  type Argv = seq<string>

  // ---------------------------------------------------------------------
  // The builders, one per stage
  // ---------------------------------------------------------------------

  /** Demux: a video-only copy `output-video.<extension>` and an audio-only copy `output-audio.aac`. */
  function SeparateVideoAndAudio(input: string, extension: string): Argv
  {
    ["-i", input, "-c:v", "copy", "-an", "output-video." + extension, "-c:a", "copy", "output-audio.aac"]
  }

  /** Segment the video stream into `duration`-second pieces named by the pattern `outputFormat.extension`. */
  function SplitVideo(input: string, outputFormat: string, extension: string, duration: nat): Argv
  {
    ["-i", input, "-f", "segment", "-segment_time", Decimal.IntToString(duration), "-c", "copy",
     outputFormat + "." + extension]
  }

  /** Segment the audio stream; the same vector as for video. */
  function SplitAudio(input: string, outputFormat: string, extension: string, duration: nat): Argv
  {
    ["-i", input, "-f", "segment", "-segment_time", Decimal.IntToString(duration), "-c", "copy",
     outputFormat + "." + extension]
  }

  /** Re-encode one video segment with x264 at constant rate factor 30. */
  function CompressVideo(input: string, output: string): Argv
  {
    ["-i", input, "-c:v", "libx264", "-crf", "30", output]
  }

  /** Re-encode one audio segment to AAC at 128 kbit/s. */
  function CompressAudio(input: string, output: string): Argv
  {
    ["-i", input, "-c:a", "aac", "-b:a", "128k", output]
  }

  /** Concatenate the segments a manifest lists, by stream copy, overwriting `output`. */
  function ConcatParts(manifest: string, output: string): Argv
  {
    ["-f", "concat", "-safe", "0", "-y", "-i", manifest, "-c", "copy", output]
  }

  /** Mux one video and one audio stream into `output.mp4`, both copied. */
  function ConcatVideoAndAudio(video: string, audio: string): Argv
  {
    ["-i", video, "-i", audio, "-c:v", "copy", "-c:a", "copy", "output.mp4"]
  }

  // ---------------------------------------------------------------------
  // Reading a vector
  // ---------------------------------------------------------------------

  datatype Opt = Opt(name: string, value: string)

  /** An input or output file together with the options written before it. */
  datatype FileArg = FileArg(options: seq<Opt>, path: string)

  datatype Command = Command(globals: seq<string>, inputs: seq<FileArg>, outputs: seq<FileArg>)

  /** Options that take the next element as their value. */
  const ValueOptions: set<string> := {"-c", "-c:v", "-c:a", "-f", "-segment_time", "-crf", "-b:a", "-safe"}

  /** Per-file options without a value. */
  const FileFlags: set<string> := {"-an"}

  /** Options that apply to the whole run. */
  const GlobalFlags: set<string> := {"-y"}

  /** Codec selectors: their value names an encoder, or `copy` for stream copy. */
  predicate IsCodecOption(name: string) { name == "-c" || name == "-c:v" || name == "-c:a" }

  /** An element that ffmpeg takes for an output path rather than an option. */
  predicate IsPathArg(s: string) { s == [] || s[0] != '-' }

  /** Reads `argv[k..]`; `pending` holds the options not yet attached to a file. */
  function ParseFrom(argv: Argv, k: nat, pending: seq<Opt>, cmd: Command): Option<Command>
    requires k <= |argv|
    decreases |argv| - k
  {
    if k == |argv| then
      if pending == [] then Some(cmd) else None
    else
      var tok := argv[k];
      if tok == "-i" then
        if k + 1 < |argv| then
          ParseFrom(argv, k + 2, [], cmd.(inputs := cmd.inputs + [FileArg(pending, argv[k + 1])]))
        else None
      else if tok in GlobalFlags then
        ParseFrom(argv, k + 1, pending, cmd.(globals := cmd.globals + [tok]))
      else if tok in FileFlags then
        ParseFrom(argv, k + 1, pending + [Opt(tok, "")], cmd)
      else if tok in ValueOptions then
        if k + 1 < |argv| then ParseFrom(argv, k + 2, pending + [Opt(tok, argv[k + 1])], cmd) else None
      else if !IsPathArg(tok) then
        None
      else
        ParseFrom(argv, k + 1, [], cmd.(outputs := cmd.outputs + [FileArg(pending, tok)]))
  }

  /** The command a vector denotes, or `None` when it is malformed. */
  function Parse(argv: Argv): Option<Command>
  {
    ParseFrom(argv, 0, [], Command([], [], []))
  }

  /** The encoders the outputs of a command select (stream copy is not an encoder). */
  function Encoders(cmd: Command): set<string>
  {
    set o, opt | o in cmd.outputs && opt in o.options && IsCodecOption(opt.name) && opt.value != "copy" :: opt.value
  }

  /** An output that selects a codec, and only ever `copy`. */
  predicate CopiesStreams(o: FileArg)
  {
    && (exists opt :: opt in o.options && IsCodecOption(opt.name))
    && (forall opt :: opt in o.options && IsCodecOption(opt.name) ==> opt.value == "copy")
  }

  /** A command whose every output stream-copies, so that it names no encoder. */
  predicate StreamCopyOnly(cmd: Command)
  {
    && |cmd.outputs| >= 1
    && (forall o :: o in cmd.outputs ==> CopiesStreams(o))
  }

  /** A stream-copy command selects no encoder. */
  lemma StreamCopyOnlyHasNoEncoder(cmd: Command)
    requires StreamCopyOnly(cmd)
    ensures Encoders(cmd) == {}
  {
  }

  // ---------------------------------------------------------------------
  // What each vector means
  // ---------------------------------------------------------------------

  /** Separation reads the input once and writes a video-only and an audio-only copy. */
  lemma SeparateMeaning(input: string, extension: string)
    ensures Parse(SeparateVideoAndAudio(input, extension)) == Some(Command([], [FileArg([], input)], [
      FileArg([Opt("-c:v", "copy"), Opt("-an", "")], "output-video." + extension),
      FileArg([Opt("-c:a", "copy")], "output-audio.aac")]))
  {
    var a := SeparateVideoAndAudio(input, extension);
    var i := [FileArg([], input)];
    var v := [Opt("-c:v", "copy"), Opt("-an", "")];
    var o1 := FileArg(v, "output-video." + extension);
    var o2 := FileArg([Opt("-c:a", "copy")], "output-audio.aac");
    assert Parse(a) == ParseFrom(a, 2, [], Command([], i, [])) by { assert [] + i == i; }
    assert ParseFrom(a, 2, [], Command([], i, [])) == ParseFrom(a, 4, v[..1], Command([], i, [])) by {
      assert [] + [Opt(a[2], a[3])] == v[..1];
    }
    assert ParseFrom(a, 4, v[..1], Command([], i, [])) == ParseFrom(a, 5, v, Command([], i, [])) by {
      assert v[..1] + [Opt("-an", "")] == v;
    }
    assert ParseFrom(a, 5, v, Command([], i, [])) == ParseFrom(a, 6, [], Command([], i, [o1])) by {
      assert a[5][0] == 'o';
      assert [] + [o1] == [o1];
    }
    assert ParseFrom(a, 6, [], Command([], i, [o1])) == ParseFrom(a, 8, o2.options, Command([], i, [o1])) by {
      assert [] + o2.options == o2.options;
    }
    assert ParseFrom(a, 8, o2.options, Command([], i, [o1])) == ParseFrom(a, 9, [], Command([], i, [o1, o2])) by {
      assert [o1] + [o2] == [o1, o2];
    }
  }

  /** Segmenting reads one stream and writes segments by stream copy under the given name pattern. */
  lemma SplitMeaning(input: string, outputFormat: string, extension: string, duration: nat)
    requires IsPathArg(outputFormat)
    ensures Parse(SplitVideo(input, outputFormat, extension, duration)) == Some(Command([], [FileArg([], input)], [
      FileArg([Opt("-f", "segment"), Opt("-segment_time", Decimal.IntToString(duration)), Opt("-c", "copy")],
              outputFormat + "." + extension)]))
    ensures SplitAudio(input, outputFormat, extension, duration) == SplitVideo(input, outputFormat, extension, duration)
  {
    var a := SplitVideo(input, outputFormat, extension, duration);
    var i := [FileArg([], input)];
    var v := [Opt("-f", "segment"), Opt("-segment_time", Decimal.IntToString(duration)), Opt("-c", "copy")];
    var o := FileArg(v, outputFormat + "." + extension);
    assert Parse(a) == ParseFrom(a, 2, [], Command([], i, [])) by { assert [] + i == i; }
    assert ParseFrom(a, 2, [], Command([], i, [])) == ParseFrom(a, 4, v[..1], Command([], i, [])) by {
      assert [] + [Opt(a[2], a[3])] == v[..1];
    }
    assert ParseFrom(a, 4, v[..1], Command([], i, [])) == ParseFrom(a, 6, v[..2], Command([], i, [])) by {
      assert v[..1] + [v[1]] == v[..2];
    }
    assert ParseFrom(a, 6, v[..2], Command([], i, [])) == ParseFrom(a, 8, v, Command([], i, [])) by {
      assert v[..2] + [v[2]] == v;
    }
    assert ParseFrom(a, 8, v, Command([], i, [])) == ParseFrom(a, 9, [], Command([], i, [o])) by {
      assert IsPathArg(a[8]);
      assert [] + [o] == [o];
    }
  }

  /** The two compression vectors: the encoder and its setting apply to the one output. */
  lemma CompressMeaning(input: string, output: string)
    requires IsPathArg(output)
    ensures Parse(CompressVideo(input, output)) == Some(Command([], [FileArg([], input)], [
      FileArg([Opt("-c:v", "libx264"), Opt("-crf", "30")], output)]))
    ensures Parse(CompressAudio(input, output)) == Some(Command([], [FileArg([], input)], [
      FileArg([Opt("-c:a", "aac"), Opt("-b:a", "128k")], output)]))
  {
    var i := [FileArg([], input)];
    var a := CompressVideo(input, output);
    var v := [Opt("-c:v", "libx264"), Opt("-crf", "30")];
    assert Parse(a) == ParseFrom(a, 2, [], Command([], i, [])) by { assert [] + i == i; }
    assert ParseFrom(a, 2, [], Command([], i, [])) == ParseFrom(a, 4, v[..1], Command([], i, [])) by {
      assert [] + [Opt(a[2], a[3])] == v[..1];
    }
    assert ParseFrom(a, 4, v[..1], Command([], i, [])) == ParseFrom(a, 6, v, Command([], i, [])) by {
      assert v[..1] + [v[1]] == v;
    }
    assert ParseFrom(a, 6, v, Command([], i, [])) == ParseFrom(a, 7, [], Command([], i, [FileArg(v, output)])) by {
      assert [] + [FileArg(v, output)] == [FileArg(v, output)];
    }
    var b := CompressAudio(input, output);
    var w := [Opt("-c:a", "aac"), Opt("-b:a", "128k")];
    assert Parse(b) == ParseFrom(b, 2, [], Command([], i, [])) by { assert [] + i == i; }
    assert ParseFrom(b, 2, [], Command([], i, [])) == ParseFrom(b, 4, w[..1], Command([], i, [])) by {
      assert [] + [Opt(b[2], b[3])] == w[..1];
    }
    assert ParseFrom(b, 4, w[..1], Command([], i, [])) == ParseFrom(b, 6, w, Command([], i, [])) by {
      assert w[..1] + [w[1]] == w;
    }
    assert ParseFrom(b, 6, w, Command([], i, [])) == ParseFrom(b, 7, [], Command([], i, [FileArg(w, output)])) by {
      assert [] + [FileArg(w, output)] == [FileArg(w, output)];
    }
  }

  /** Concatenation: the concat demuxer, unsafe paths allowed, reads the manifest; overwrite; stream copy. */
  lemma ConcatMeaning(manifest: string, output: string)
    requires IsPathArg(output)
    ensures Parse(ConcatParts(manifest, output)) == Some(Command(["-y"],
      [FileArg([Opt("-f", "concat"), Opt("-safe", "0")], manifest)],
      [FileArg([Opt("-c", "copy")], output)]))
  {
    var a := ConcatParts(manifest, output);
    var d := [Opt("-f", "concat"), Opt("-safe", "0")];
    var i := [FileArg(d, manifest)];
    var c := [Opt("-c", "copy")];
    var e := Command([], [], []);
    assert Parse(a) == ParseFrom(a, 2, d[..1], e) by { assert [] + [Opt(a[0], a[1])] == d[..1]; }
    assert ParseFrom(a, 2, d[..1], e) == ParseFrom(a, 4, d, e) by { assert d[..1] + [d[1]] == d; }
    assert ParseFrom(a, 4, d, e) == ParseFrom(a, 5, d, Command(["-y"], [], [])) by { assert [] + ["-y"] == ["-y"]; }
    assert ParseFrom(a, 5, d, Command(["-y"], [], [])) == ParseFrom(a, 7, [], Command(["-y"], i, [])) by {
      assert [] + i == i;
    }
    assert ParseFrom(a, 7, [], Command(["-y"], i, [])) == ParseFrom(a, 9, c, Command(["-y"], i, [])) by {
      assert [] + c == c;
    }
    assert ParseFrom(a, 9, c, Command(["-y"], i, [])) == ParseFrom(a, 10, [], Command(["-y"], i, [FileArg(c, output)])) by {
      assert [] + [FileArg(c, output)] == [FileArg(c, output)];
    }
  }

  /** Muxing reads the video and the audio stream and copies both into `output.mp4`. */
  lemma MuxMeaning(video: string, audio: string)
    ensures Parse(ConcatVideoAndAudio(video, audio)) == Some(Command([],
      [FileArg([], video), FileArg([], audio)],
      [FileArg([Opt("-c:v", "copy"), Opt("-c:a", "copy")], "output.mp4")]))
  {
    var a := ConcatVideoAndAudio(video, audio);
    var i := [FileArg([], video), FileArg([], audio)];
    var v := [Opt("-c:v", "copy"), Opt("-c:a", "copy")];
    var o := FileArg(v, "output.mp4");
    assert Parse(a) == ParseFrom(a, 2, [], Command([], i[..1], [])) by { assert [] + [FileArg([], a[1])] == i[..1]; }
    assert ParseFrom(a, 2, [], Command([], i[..1], [])) == ParseFrom(a, 4, [], Command([], i, [])) by {
      assert i[..1] + [i[1]] == i;
    }
    assert ParseFrom(a, 4, [], Command([], i, [])) == ParseFrom(a, 6, v[..1], Command([], i, [])) by {
      assert [] + [Opt(a[4], a[5])] == v[..1];
    }
    assert ParseFrom(a, 6, v[..1], Command([], i, [])) == ParseFrom(a, 8, v, Command([], i, [])) by {
      assert v[..1] + [v[1]] == v;
    }
    assert ParseFrom(a, 8, v, Command([], i, [])) == ParseFrom(a, 9, [], Command([], i, [o])) by {
      assert [] + [o] == [o];
    }
  }

  /** Separation copies both streams, so it names no encoder. */
  lemma SeparateCopiesStreams(input: string, extension: string)
    ensures Parse(SeparateVideoAndAudio(input, extension)).Some?
    ensures StreamCopyOnly(Parse(SeparateVideoAndAudio(input, extension)).value)
    ensures Encoders(Parse(SeparateVideoAndAudio(input, extension)).value) == {}
  {
    SeparateMeaning(input, extension);
    var c := Parse(SeparateVideoAndAudio(input, extension)).value;
    assert c.outputs[0].options[0] in c.outputs[0].options;
    assert c.outputs[1].options[0] in c.outputs[1].options;
    StreamCopyOnlyHasNoEncoder(c);
  }

  /** Segmenting copies the stream, so it names no encoder. */
  lemma SplitCopiesStreams(input: string, outputFormat: string, extension: string, duration: nat)
    requires IsPathArg(outputFormat)
    ensures Parse(SplitVideo(input, outputFormat, extension, duration)).Some?
    ensures StreamCopyOnly(Parse(SplitVideo(input, outputFormat, extension, duration)).value)
    ensures Encoders(Parse(SplitVideo(input, outputFormat, extension, duration)).value) == {}
  {
    SplitMeaning(input, outputFormat, extension, duration);
    var c := Parse(SplitVideo(input, outputFormat, extension, duration)).value;
    assert c.outputs[0].options[2] in c.outputs[0].options;
    StreamCopyOnlyHasNoEncoder(c);
  }

  /** Concatenation copies the streams, so it names no encoder. */
  lemma ConcatCopiesStreams(manifest: string, output: string)
    requires IsPathArg(output)
    ensures Parse(ConcatParts(manifest, output)).Some?
    ensures StreamCopyOnly(Parse(ConcatParts(manifest, output)).value)
    ensures Encoders(Parse(ConcatParts(manifest, output)).value) == {}
  {
    ConcatMeaning(manifest, output);
    var c := Parse(ConcatParts(manifest, output)).value;
    assert c.outputs[0].options[0] in c.outputs[0].options;
    StreamCopyOnlyHasNoEncoder(c);
  }

  /** Muxing copies both streams, so it names no encoder. */
  lemma MuxCopiesStreams(video: string, audio: string)
    ensures Parse(ConcatVideoAndAudio(video, audio)).Some?
    ensures StreamCopyOnly(Parse(ConcatVideoAndAudio(video, audio)).value)
    ensures Encoders(Parse(ConcatVideoAndAudio(video, audio)).value) == {}
  {
    MuxMeaning(video, audio);
    var c := Parse(ConcatVideoAndAudio(video, audio)).value;
    assert c.outputs[0].options[0] in c.outputs[0].options;
    StreamCopyOnlyHasNoEncoder(c);
  }

  /**
   * The compression vectors are the only ones that encode: video with x264,
   * audio with AAC; the input follows `-i` and the output comes last.
   */
  lemma CompressStagesEncode(input: string, output: string)
    requires IsPathArg(output)
    ensures Parse(CompressVideo(input, output)).Some?
    ensures Encoders(Parse(CompressVideo(input, output)).value) == {"libx264"}
    ensures Parse(CompressAudio(input, output)).Some?
    ensures Encoders(Parse(CompressAudio(input, output)).value) == {"aac"}
    ensures var c := Parse(CompressVideo(input, output)).value;
      c.inputs == [FileArg([], input)] && |c.outputs| == 1 && c.outputs[0].path == output
    ensures var c := Parse(CompressAudio(input, output)).value;
      c.inputs == [FileArg([], input)] && |c.outputs| == 1 && c.outputs[0].path == output
  {
    CompressMeaning(input, output);
    var c := Parse(CompressVideo(input, output)).value;
    assert c.outputs[0] in c.outputs && c.outputs[0].options[0] in c.outputs[0].options;
    assert Encoders(c) == {"libx264"};
    c := Parse(CompressAudio(input, output)).value;
    assert c.outputs[0] in c.outputs && c.outputs[0].options[0] in c.outputs[0].options;
    assert Encoders(c) == {"aac"};
  }
}
