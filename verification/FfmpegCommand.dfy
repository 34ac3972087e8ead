/** The FFmpeg command of a transcode: how it is built from the planned outputs, and what it does by FFmpeg's rules. */
module FfmpegCommand {
  import opened Text
  import opened OutputPaths
  import opened Segments
  import Filtergraph
  import GraphReader
  import Paths
  import Scaling

  datatype Variant = Variant(name: string, target: int, bitrate: string, bandwidth: int)

  datatype Config = Config(videoCodec: string, preset: string, gopSize: int, audioCodec: string, audioBitrate: string,
                           hlsTime: int, threads: int, bucket: string, variants: seq<Variant>)

  /** What the probe found: size and rotation of the video, and whether the input has an audio stream. */
  datatype Video = Video(width: int, height: int, rotation: int, hasAudio: bool)

  datatype Output = Output(variant: Variant, size: Filtergraph.Size, dir: string, playlist: string, segments: string)

  // ----- planned outputs -----

  function Size(video: Video, v: Variant): Filtergraph.Size {
    Scaling.Planned(video.width, video.height, v.target, video.rotation)
  }

  function Planned(video: Video, outputDir: string, v: Variant): Output {
    Output(v, Size(video, v), VariantDir(outputDir, v.name), PlaylistFile(outputDir, v.name),
           SegmentPattern(outputDir, v.name))
  }

  function Outputs(video: Video, outputDir: string, variants: seq<Variant>): seq<Output> {
    seq(|variants|, i requires 0 <= i < |variants| => Planned(video, outputDir, variants[i]))
  }

  // ----- the command -----

  function BuildOutputArgs(config: Config, o: Output, pad: string): seq<string> {
    ["-map", "[" + pad + "]",
     "-map", "0:a",
     "-c:v", config.videoCodec,
     "-b:v", o.variant.bitrate,
     "-preset", config.preset,
     "-g", PrintInt(config.gopSize),
     "-sc_threshold", "0",
     "-c:a", config.audioCodec,
     "-b:a", config.audioBitrate,
     "-f", "hls",
     "-hls_time", PrintInt(config.hlsTime),
     "-hls_list_size", "0",
     "-hls_segment_filename", o.segments,
     o.playlist]
  }

  /** The arguments of all outputs, in order. */
  function OutputArgs(config: Config, outputs: seq<Output>, pads: seq<string>): seq<string>
    requires |outputs| == |pads|
  {
    if outputs == [] then []
    else BuildOutputArgs(config, outputs[0], pads[0]) + OutputArgs(config, outputs[1..], pads[1..])
  }

  lemma {:induction false} OutputArgsAppend(config: Config, outputs: seq<Output>, pads: seq<string>, o: Output,
                                            pad: string)
    requires |outputs| == |pads|
    ensures OutputArgs(config, outputs + [o], pads + [pad])
            == OutputArgs(config, outputs, pads) + BuildOutputArgs(config, o, pad)
  {
    if outputs == [] {
      assert [o][1..] == [] && [pad][1..] == [];
      assert OutputArgs(config, [], []) == [];
      assert outputs + [o] == [o] && pads + [pad] == [pad];
    } else {
      assert (outputs + [o])[1..] == outputs[1..] + [o] && (pads + [pad])[1..] == pads[1..] + [pad];
      OutputArgsAppend(config, outputs[1..], pads[1..], o, pad);
    }
  }

  function GlobalArgs(config: Config, input: string, graph: string): seq<string> {
    (if config.threads > 0 then ["-y", "-noautorotate"] + ["-threads", PrintInt(config.threads)]
      else ["-y", "-noautorotate"])
    + ["-i", input, "-filter_complex", graph]
  }

  function OutputSizes(outputs: seq<Output>): seq<Filtergraph.Size> {
    seq(|outputs|, i requires 0 <= i < |outputs| => outputs[i].size)
  }

  /** The whole FFmpeg command; None when there is nothing to transcode to. */
  function Command(config: Config, input: string, rotation: int, outputs: seq<Output>): Option<seq<string>> {
    if outputs == [] then None
    else Some(GlobalArgs(config, input, Filtergraph.GraphText(Filtergraph.GraphOf(rotation, OutputSizes(outputs))))
              + OutputArgs(config, outputs, Filtergraph.OutLabels(|outputs|)))
  }

  method BuildCommand(config: Config, input: string, rotation: int, outputs: seq<Output>)
    returns (r: Option<seq<string>>)
    ensures r == Command(config, input, rotation, outputs)
  {
    var built := Filtergraph.BuildFiltergraph(rotation, OutputSizes(outputs));
    match built {
      case None => return None;
      case Some((graph, pads)) =>
        var args := ["-y", "-noautorotate"];
        if config.threads > 0 {
          args := args + ["-threads", PrintInt(config.threads)];
        }
        args := args + ["-i", input, "-filter_complex", graph];
        ghost var start := args;
        for i := 0 to |outputs|
          invariant args == start + OutputArgs(config, outputs[..i], pads[..i])
        {
          OutputArgsStep(config, outputs, pads, i, start);
          args := args + BuildOutputArgs(config, outputs[i], pads[i]);
        }
        assert outputs[..|outputs|] == outputs && pads[..|outputs|] == pads;
        return Some(args);
    }
  }

  lemma OutputArgsStep(config: Config, outputs: seq<Output>, pads: seq<string>, i: nat, start: seq<string>)
    requires i < |outputs| == |pads|
    ensures (start + OutputArgs(config, outputs[..i], pads[..i])) + BuildOutputArgs(config, outputs[i], pads[i])
            == start + OutputArgs(config, outputs[..i + 1], pads[..i + 1])
  {
    assert outputs[..i + 1] == outputs[..i] + [outputs[i]] && pads[..i + 1] == pads[..i] + [pads[i]];
    OutputArgsAppend(config, outputs[..i], pads[..i], outputs[i], pads[i]);
    Associative(start, OutputArgs(config, outputs[..i], pads[..i]), BuildOutputArgs(config, outputs[i], pads[i]));
  }

  lemma Associative<T>(a: seq<T>, b: seq<T>, c: seq<T>)
    ensures (a + b) + c == a + (b + c)
  {
  }

  // ----- reading the command back -----

  predicate IsOption(arg: string) {
    arg != "" && arg[0] == '-'
  }

  datatype Target = Target(options: seq<(string, string)>, file: string)

  /** How FFmpeg groups output arguments: options with one value each, until the file that they belong to. */
  function ReadTargets(args: seq<string>, options: seq<(string, string)>): Option<seq<Target>>
    decreases |args|
  {
    if args == [] then if options == [] then Some([]) else None
    else if !IsOption(args[0]) then
      match ReadTargets(args[1..], [])
      case None => None
      case Some(rest) => Some([Target(options, args[0])] + rest)
    else if |args| == 1 then None
    else ReadTargets(args[2..], options + [(args[0], args[1])])
  }

  /** A whole command: whether FFmpeg turns frames by itself, the thread counts, the inputs, the filtergraph and the
      targets. */
  datatype Reading = Reading(autorotate: bool, threads: seq<string>, inputs: seq<string>, graph: string,
                             targets: seq<Target>)

  function ReadCommand(args: seq<string>): Option<Reading>
    decreases |args|
  {
    if |args| < 2 || !IsOption(args[0]) then None
    else if args[0] == "-filter_complex" then
      match ReadTargets(args[2..], [])
      case None => None
      case Some(targets) => Some(Reading(true, [], [], args[1], targets))
    else
      var flag := args[0] == "-y" || args[0] == "-noautorotate";
      match ReadCommand(args[if flag then 1 else 2..])
      case None => None
      case Some(rest) =>
        if args[0] == "-noautorotate" then Some(rest.(autorotate := false))
        else if args[0] == "-i" then Some(rest.(inputs := [args[1]] + rest.inputs))
        else if args[0] == "-threads" then Some(rest.(threads := [args[1]] + rest.threads))
        else Some(rest)
  }

  function ValuesOf(options: seq<(string, string)>, name: string): seq<string> {
    if options == [] then []
    else (if options[0].0 == name then [options[0].1] else []) + ValuesOf(options[1..], name)
  }

  function OptionPairs(config: Config, o: Output, pad: string): seq<(string, string)> {
    [("-map", "[" + pad + "]"), ("-map", "0:a"), ("-c:v", config.videoCodec), ("-b:v", o.variant.bitrate),
     ("-preset", config.preset), ("-g", PrintInt(config.gopSize)), ("-sc_threshold", "0"), ("-c:a", config.audioCodec),
     ("-b:a", config.audioBitrate), ("-f", "hls"), ("-hls_time", PrintInt(config.hlsTime)), ("-hls_list_size", "0"),
     ("-hls_segment_filename", o.segments)]
  }

  function Flat(pairs: seq<(string, string)>): seq<string> {
    seq(2 * |pairs|, i requires 0 <= i < 2 * |pairs| => if i % 2 == 0 then pairs[i / 2].0 else pairs[i / 2].1)
  }

  lemma {:induction false} ReadPairs(pairs: seq<(string, string)>, tail: seq<string>, options: seq<(string, string)>)
    requires forall i :: 0 <= i < |pairs| ==> IsOption(pairs[i].0)
    ensures ReadTargets(Flat(pairs) + tail, options) == ReadTargets(tail, options + pairs)
    decreases |pairs|
  {
    if pairs == [] {
      assert Flat(pairs) + tail == tail && options + pairs == options;
    } else {
      var args := Flat(pairs) + tail;
      assert args[2..] == Flat(pairs[1..]) + tail;
      ReadPairs(pairs[1..], tail, options + [pairs[0]]);
      assert options + [pairs[0]] + pairs[1..] == options + pairs;
    }
  }

  function TargetOf(config: Config, o: Output, pad: string): Target {
    Target(OptionPairs(config, o, pad), o.playlist)
  }

  lemma ReadOneTarget(pairs: seq<(string, string)>, file: string, tail: seq<string>, rest: seq<Target>)
    requires !IsOption(file) && ReadTargets(tail, []) == Some(rest)
    requires forall i :: 0 <= i < |pairs| ==> IsOption(pairs[i].0)
    ensures ReadTargets((Flat(pairs) + [file]) + tail, []) == Some([Target(pairs, file)] + rest)
  {
    Associative(Flat(pairs), [file], tail);
    ReadPairs(pairs, [file] + tail, []);
    assert ([file] + tail)[1..] == tail && [] + pairs == pairs;
  }

  lemma OptionKeys(config: Config, o: Output, pad: string)
    ensures forall i :: 0 <= i < |OptionPairs(config, o, pad)| ==> IsOption(OptionPairs(config, o, pad)[i].0)
  {
  }

  lemma ReadOutputArgs(config: Config, o: Output, pad: string, tail: seq<string>, rest: seq<Target>)
    requires !IsOption(o.playlist) && ReadTargets(tail, []) == Some(rest)
    ensures ReadTargets(BuildOutputArgs(config, o, pad) + tail, []) == Some([TargetOf(config, o, pad)] + rest)
  {
    OutputArgsArePairs(config, o, pad);
    OptionKeys(config, o, pad);
    ReadOneTarget(OptionPairs(config, o, pad), o.playlist, tail, rest);
  }

  lemma OutputArgsArePairs(config: Config, o: Output, pad: string)
    ensures BuildOutputArgs(config, o, pad) == Flat(OptionPairs(config, o, pad)) + [o.playlist]
  {
  }

  function Targets(config: Config, outputs: seq<Output>, pads: seq<string>): seq<Target>
    requires |outputs| == |pads|
  {
    seq(|outputs|, i requires 0 <= i < |outputs| => TargetOf(config, outputs[i], pads[i]))
  }

  lemma {:induction false} ReadAllTargets(config: Config, outputs: seq<Output>, pads: seq<string>)
    requires |outputs| == |pads| && forall o :: o in outputs ==> !IsOption(o.playlist)
    ensures ReadTargets(OutputArgs(config, outputs, pads), []) == Some(Targets(config, outputs, pads))
  {
    if outputs == [] {
      assert Targets(config, outputs, pads) == [];
      assert OutputArgs(config, outputs, pads) == [];
    } else {
      assert outputs[0] in outputs && forall o :: o in outputs[1..] ==> o in outputs;
      var tail, rest := OutputArgs(config, outputs[1..], pads[1..]), Targets(config, outputs[1..], pads[1..]);
      ReadAllTargets(config, outputs[1..], pads[1..]);
      ReadOutputArgs(config, outputs[0], pads[0], tail, rest);
      assert [TargetOf(config, outputs[0], pads[0])] + rest == Targets(config, outputs, pads);
    }
  }

  lemma {:induction false} FilesAreNoOptions(args: seq<string>, options: seq<(string, string)>)
    ensures var r := ReadTargets(args, options); r.Some? ==> forall t :: t in r.value ==> !IsOption(t.file)
    decreases |args|
  {
    if args != [] {
      if !IsOption(args[0]) {
        FilesAreNoOptions(args[1..], []);
      } else if |args| > 1 {
        FilesAreNoOptions(args[2..], options + [(args[0], args[1])]);
      }
    }
  }

  /** FFmpeg reads the command as one target per output, with that output's options and playlist file, exactly when no
      playlist path looks like an option. */
  lemma TargetsReadBack(config: Config, outputs: seq<Output>, pads: seq<string>)
    requires |outputs| == |pads|
    ensures ReadTargets(OutputArgs(config, outputs, pads), []) == Some(Targets(config, outputs, pads))
            <==> forall o :: o in outputs ==> !IsOption(o.playlist)
  {
    if forall o :: o in outputs ==> !IsOption(o.playlist) {
      ReadAllTargets(config, outputs, pads);
    } else {
      var i :| 0 <= i < |outputs| && IsOption(outputs[i].playlist);
      FilesAreNoOptions(OutputArgs(config, outputs, pads), []);
      assert Targets(config, outputs, pads)[i].file == outputs[i].playlist;
    }
  }

  /** Every output takes its own pad of the filtergraph, and the audio of the input. */
  lemma MappedPads(config: Config, o: Output, pad: string)
    ensures ValuesOf(OptionPairs(config, o, pad), "-map") == [Bracket(pad), AUDIO]
  {
    var pairs := OptionPairs(config, o, pad);
    assert pairs[1..][1..] == pairs[2..];
    NoValues(pairs[2..], "-map");
  }

  lemma {:induction false} NoValues(pairs: seq<(string, string)>, name: string)
    requires forall i :: 0 <= i < |pairs| ==> pairs[i].0 != name
    ensures ValuesOf(pairs, name) == []
  {
    if pairs != [] {
      NoValues(pairs[1..], name);
    }
  }

  const SEGMENT_OPTION := "-hls_segment_filename"

  /** A target is encoded with the configured codecs and rates, in segments of the configured length, all of them
      listed, under the output's pattern. */
  predicate Configured(t: Target, config: Config, o: Output) {
    && ValuesOf(t.options, "-c:v") == [config.videoCodec] && ValuesOf(t.options, "-b:v") == [o.variant.bitrate]
    && ValuesOf(t.options, "-preset") == [config.preset] && ValuesOf(t.options, "-g") == [PrintInt(config.gopSize)]
    && ValuesOf(t.options, "-sc_threshold") == ["0"] && ValuesOf(t.options, "-c:a") == [config.audioCodec]
    && ValuesOf(t.options, "-b:a") == [config.audioBitrate] && ValuesOf(t.options, "-f") == ["hls"]
    && ValuesOf(t.options, "-hls_time") == [PrintInt(config.hlsTime)]
    && ValuesOf(t.options, "-hls_list_size") == ["0"] && ValuesOf(t.options, SEGMENT_OPTION) == [o.segments]
  }

  lemma {:induction false} ValueAt(pairs: seq<(string, string)>, i: nat, name: string)
    requires i < |pairs| && pairs[i].0 == name && forall j :: 0 <= j < |pairs| && j != i ==> pairs[j].0 != name
    ensures ValuesOf(pairs, name) == [pairs[i].1]
  {
    if i > 0 {
      ValueAt(pairs[1..], i - 1, name);
    } else {
      NoValues(pairs[1..], name);
    }
  }

  lemma TargetConfigured(config: Config, o: Output, pad: string)
    ensures Configured(TargetOf(config, o, pad), config, o)
  {
    var pairs := OptionPairs(config, o, pad);
    KeysApart(config, o, pad);
    forall i | 2 <= i < 13
      ensures ValuesOf(pairs, pairs[i].0) == [pairs[i].1]
    {
      ValueAt(pairs, i, pairs[i].0);
    }
    assert pairs[2].0 == "-c:v" && pairs[3].0 == "-b:v" && pairs[4].0 == "-preset" && pairs[5].0 == "-g";
    assert pairs[6].0 == "-sc_threshold" && pairs[7].0 == "-c:a" && pairs[8].0 == "-b:a" && pairs[9].0 == "-f";
    assert pairs[10].0 == "-hls_time" && pairs[11].0 == "-hls_list_size" && pairs[12].0 == SEGMENT_OPTION;
  }

  /** Only `-map` is given twice. */
  lemma KeysApart(config: Config, o: Output, pad: string)
    ensures var pairs := OptionPairs(config, o, pad);
      forall i, j :: 2 <= i < 13 && 0 <= j < 13 && i != j ==> pairs[j].0 != pairs[i].0
  {
  }

  lemma ReadFlags(rest: seq<string>, r: Reading)
    requires rest != [] && ReadCommand(rest) == Some(r)
    ensures ReadCommand(["-y"] + (["-noautorotate"] + rest)) == Some(r.(autorotate := false))
  {
    assert "-filter_complex"[1] == 'f' && "-y"[1] == 'y' && "-noautorotate"[1] == 'n' && "-i"[1] == 'i';
    assert (["-noautorotate"] + rest)[1..] == rest;
    assert (["-y"] + (["-noautorotate"] + rest))[1..] == ["-noautorotate"] + rest;
  }

  lemma ReadThreads(n: string, rest: seq<string>, r: Reading)
    requires ReadCommand(rest) == Some(r)
    ensures ReadCommand(["-threads", n] + rest) == Some(r.(threads := [n] + r.threads))
  {
    assert (["-threads", n] + rest)[2..] == rest;
    assert "-filter_complex"[1] == 'f' && "-y"[1] == 'y' && "-noautorotate"[1] == 'n' && "-i"[1] == 'i' &&
      "-threads"[1] == 't';
  }

  lemma ReadInput(input: string, rest: seq<string>, r: Reading)
    requires ReadCommand(rest) == Some(r)
    ensures ReadCommand(["-i", input] + rest) == Some(r.(inputs := [input] + r.inputs))
  {
    assert (["-i", input] + rest)[2..] == rest;
    assert "-filter_complex"[1] == 'f' && "-y"[1] == 'y' && "-noautorotate"[1] == 'n' && "-i"[1] == 'i';
  }

  lemma ReadGraphOption(graph: string, tail: seq<string>)
    requires ReadTargets(tail, []).Some?
    ensures ReadCommand(["-filter_complex", graph] + tail)
            == Some(Reading(true, [], [], graph, ReadTargets(tail, []).value))
  {
    assert (["-filter_complex", graph] + tail)[2..] == tail;
  }

  lemma Regroup<T>(a: T, b: T, middle: seq<T>, c: T, d: T, e: T, f: T, tail: seq<T>)
    ensures (([a, b] + middle) + [c, d, e, f]) + tail == [a] + ([b] + (middle + ([c, d] + ([e, f] + tail))))
  {
  }

  lemma ReadGlobalArgs(config: Config, input: string, graph: string, tail: seq<string>)
    requires ReadTargets(tail, []).Some?
    ensures ReadCommand(GlobalArgs(config, input, graph) + tail)
            == Some(Reading(false, if config.threads > 0 then [PrintInt(config.threads)] else [], [input], graph,
                            ReadTargets(tail, []).value))
  {
    var fromInput := ["-i", input] + (["-filter_complex", graph] + tail);
    var threads := if config.threads > 0 then ["-threads", PrintInt(config.threads)] else [];
    var r := Reading(true, [], [input], graph, ReadTargets(tail, []).value);
    ReadGraphOption(graph, tail);
    ReadInput(input, ["-filter_complex", graph] + tail, r.(inputs := []));
    assert [input] + [] == [input];
    ReadThreads(PrintInt(config.threads), fromInput, r);
    assert config.threads <= 0 ==> threads + fromInput == fromInput;
    assert [PrintInt(config.threads)] + [] == [PrintInt(config.threads)];
    ReadFlags(threads + fromInput, r.(threads := if config.threads > 0 then [PrintInt(config.threads)] else []));
    Regroup("-y", "-noautorotate", threads, "-i", input, "-filter_complex", graph, tail);
    Threads(config, input, graph, threads);
  }

  lemma Threads(config: Config, input: string, graph: string, threads: seq<string>)
    requires threads == if config.threads > 0 then ["-threads", PrintInt(config.threads)] else []
    ensures GlobalArgs(config, input, graph)
            == (["-y", "-noautorotate"] + threads) + ["-i", input, "-filter_complex", graph]
  {
    assert ["-y", "-noautorotate"] + [] == ["-y", "-noautorotate"];
  }

  // ----- the command and the playlist -----

  /** What a command does to a video by FFmpeg's rules: its targets, and what the pads of its filtergraph carry. */
  function Meaning(command: Option<seq<string>>, input: string, video: Video): Option<(seq<Target>, Filtergraph.Pads)> {
    if command.None? then None
    else
      match ReadCommand(command.value)
      case None => None
      case Some(r) =>
        if r.inputs != [input] then None
        else
          match GraphReader.ReadGraph(r.graph)
          case None => None
          case Some(graph) =>
            match Filtergraph.Eval(graph, map[VIDEO := Decoded(video, r.autorotate)], {VIDEO})
            case None => None
            case Some(pads) => if Connected(AllMaps(r.targets), pads, video) then Some((r.targets, pads)) else None
  }

  /** What the targets map, in order. */
  function AllMaps(targets: seq<Target>): seq<string> {
    if targets == [] then [] else ValuesOf(targets[0].options, "-map") + AllMaps(targets[1..])
  }

  function Bracket(pad: string): string {
    "[" + pad + "]"
  }

  /** The first input's first video and audio stream, as FFmpeg names them. */
  const VIDEO := "0:v"
  const AUDIO := "0:a"

  /** FFmpeg refuses a mapped specifier that matches neither a pad of the filtergraph nor a stream of the input. */
  predicate Matches(specifier: string, pads: Filtergraph.Pads, video: Video) {
    (exists pad :: pad in pads && specifier == Bracket(pad)) || specifier == VIDEO ||
      (specifier == AUDIO && video.hasAudio)
  }

  /** It also refuses a pad that is not mapped exactly once. */
  predicate Connected(maps: seq<string>, pads: Filtergraph.Pads, video: Video) {
    && (forall i :: 0 <= i < |maps| ==> Matches(maps[i], pads, video))
    && (forall pad :: pad in pads ==> multiset(maps)[Bracket(pad)] == 1)
  }

  /** The input as the filtergraph sees it: FFmpeg itself undoes the rotation unless it is told not to. */
  function Decoded(video: Video, autorotate: bool): Filtergraph.Picture {
    var source := (video.width, video.height);
    if autorotate then Filtergraph.Turned(video.rotation, source) else Filtergraph.Picture(0, source)
  }

  /** A target that writes `file` from `pad`, which carries the source turned and scaled, and takes the input's
      audio. */
  predicate Encodes(t: Target, pads: Filtergraph.Pads, pad: string, file: string, picture: Filtergraph.Picture) {
    t.file == file && ValuesOf(t.options, "-map") == [Bracket(pad), AUDIO] && pad in pads && pads[pad] == picture
  }

  /** The command read by FFmpeg's rules has one target per output, which writes the output's playlist file from its own
      pad, turned as the rotation asks and in the output's size; no pad is left over. */
  ghost predicate EncodesAll(meaning: Option<(seq<Target>, Filtergraph.Pads)>, turns: nat, outputs: seq<Output>) {
    meaning.Some? && |meaning.value.0| == |meaning.value.1| == |outputs| &&
    forall i {:trigger outputs[i]} :: 0 <= i < |outputs| ==>
      Encodes(meaning.value.0[i], meaning.value.1, Filtergraph.OutLabel(i), outputs[i].playlist,
              Filtergraph.Picture(turns, outputs[i].size, true))
  }

  /** What the command means depends on the audio stream alone: with one every output is encoded, without one FFmpeg
      refuses the command, as every output maps the input's audio. */
  lemma CommandEncodes(config: Config, video: Video, input: string, outputs: seq<Output>)
    requires outputs != [] && forall i :: 0 <= i < |outputs| ==> outputs[i].size.0 >= 0 && outputs[i].size.1 >= 0
    requires forall i :: 0 <= i < |outputs| ==> !IsOption(outputs[i].playlist)
    ensures var meaning := Meaning(Command(config, input, video.rotation, outputs), input, video);
      && (EncodesAll(meaning, Filtergraph.TurnsOf(video.rotation), outputs) <==> video.hasAudio)
      && (meaning.Some? <==> video.hasAudio)
  {
    var labels := Filtergraph.OutLabels(|outputs|);
    TargetsReadBack(config, outputs, labels);
    var targets, pads := MeaningOf(config, input, video, outputs);
    forall i {:trigger outputs[i]} | 0 <= i < |outputs|
      ensures Encodes(targets[i], pads, Filtergraph.OutLabel(i), outputs[i].playlist,
                      Filtergraph.Picture(Filtergraph.TurnsOf(video.rotation), outputs[i].size, true))
    {
      MappedPads(config, outputs[i], labels[i]);
      assert targets[i] == TargetOf(config, outputs[i], labels[i]);
      assert OutputSizes(outputs)[i] == outputs[i].size;
    }
  }

  /** What FFmpeg makes of a command for a video with an audio stream: the targets of the outputs. */
  lemma CommandTargets(config: Config, video: Video, input: string, outputs: seq<Output>)
    requires video.hasAudio && outputs != []
    requires forall i :: 0 <= i < |outputs| ==> outputs[i].size.0 >= 0 && outputs[i].size.1 >= 0
    requires forall i :: 0 <= i < |outputs| ==> !IsOption(outputs[i].playlist)
    ensures var meaning := Meaning(Command(config, input, video.rotation, outputs), input, video);
      && meaning.Some? && meaning.value.0 == Targets(config, outputs, Filtergraph.OutLabels(|outputs|))
      && forall i {:trigger outputs[i]} :: 0 <= i < |outputs| ==> Configured(meaning.value.0[i], config, outputs[i])
  {
    var labels := Filtergraph.OutLabels(|outputs|);
    TargetsReadBack(config, outputs, labels);
    var targets, pads := MeaningOf(config, input, video, outputs);
    forall i {:trigger outputs[i]} | 0 <= i < |outputs|
      ensures Configured(targets[i], config, outputs[i])
    {
      TargetConfigured(config, outputs[i], labels[i]);
    }
  }

  lemma BracketFacts(a: string, b: string)
    ensures Bracket(a) == Bracket(b) ==> a == b
    ensures Bracket(a) != AUDIO && VIDEO != AUDIO
  {
    assert Bracket(a)[0] == '[' && AUDIO[0] == '0' && AUDIO[2] == 'a' && VIDEO[2] == 'v';
    if Bracket(a) == Bracket(b) {
      assert Bracket(a)[1..|a| + 1] == a && Bracket(b)[1..|b| + 1] == b;
    }
  }

  /** What targets map that take one pad and the audio each. */
  ghost predicate TakePads(targets: seq<Target>, labels: seq<string>) {
    |targets| == |labels| &&
    forall i :: 0 <= i < |targets| ==> ValuesOf(targets[i].options, "-map") == [Bracket(labels[i]), AUDIO]
  }

  lemma {:induction false} MapsOfTargets(targets: seq<Target>, labels: seq<string>)
    requires TakePads(targets, labels)
    ensures var maps := AllMaps(targets);
      && (forall i :: 0 <= i < |maps| ==>
        maps[i] == AUDIO || exists k :: 0 <= k < |labels| && maps[i] == Bracket(labels[k]))
      && (targets != [] ==> AUDIO in maps)
  {
    if targets != [] {
      var rest := AllMaps(targets[1..]);
      MapsOfTargets(targets[1..], labels[1..]);
      assert AllMaps(targets) == [Bracket(labels[0]), AUDIO] + rest;
      forall i | 0 <= i < |rest| && rest[i] != AUDIO
        ensures exists k :: 0 <= k < |labels| && rest[i] == Bracket(labels[k])
      {
        var k :| 0 <= k < |labels[1..]| && rest[i] == Bracket(labels[1..][k]);
        assert labels[k + 1] == labels[1..][k];
      }
      assert AllMaps(targets)[1] == AUDIO;
    }
  }

  lemma {:induction false} MappedOnce(targets: seq<Target>, labels: seq<string>, pad: string)
    requires TakePads(targets, labels) && Filtergraph.Distinct(labels)
    ensures multiset(AllMaps(targets))[Bracket(pad)] == if pad in labels then 1 else 0
  {
    if targets != [] {
      MappedOnce(targets[1..], labels[1..], pad);
      BracketFacts(pad, labels[0]);
      assert AllMaps(targets) == [Bracket(labels[0]), AUDIO] + AllMaps(targets[1..]);
      assert labels == [labels[0]] + labels[1..];
      assert labels[0] !in labels[1..];
    }
  }

  /** Targets that take one pad and the audio each are connected exactly when there is audio. */
  lemma ConnectedExactly(targets: seq<Target>, labels: seq<string>, pads: Filtergraph.Pads, video: Video)
    requires targets != [] && TakePads(targets, labels) && Filtergraph.Distinct(labels)
    requires forall pad :: pad in pads <==> pad in labels
    ensures Connected(AllMaps(targets), pads, video) <==> video.hasAudio
  {
    var maps := AllMaps(targets);
    MapsOfTargets(targets, labels);
    forall pad | pad in pads
      ensures multiset(maps)[Bracket(pad)] == 1
    {
      MappedOnce(targets, labels, pad);
    }
    if !video.hasAudio {
      var i :| 0 <= i < |maps| && maps[i] == AUDIO;
      forall pad
        ensures Bracket(pad) != AUDIO
      {
        BracketFacts(pad, pad);
      }
      BracketFacts("", "");
      assert !Matches(maps[i], pads, video);
    }
  }

  /** The whole command, read back. */
  lemma CommandReads(config: Config, input: string, rotation: int, outputs: seq<Output>)
    requires outputs != []
    requires ReadTargets(OutputArgs(config, outputs, Filtergraph.OutLabels(|outputs|)), [])
             == Some(Targets(config, outputs, Filtergraph.OutLabels(|outputs|)))
    ensures ReadCommand(Command(config, input, rotation, outputs).value)
            == Some(Reading(false, if config.threads > 0 then [PrintInt(config.threads)] else [], [input],
                            Filtergraph.GraphText(Filtergraph.GraphOf(rotation, OutputSizes(outputs))),
                            Targets(config, outputs, Filtergraph.OutLabels(|outputs|))))
  {
    ReadGlobalArgs(config, input, Filtergraph.GraphText(Filtergraph.GraphOf(rotation, OutputSizes(outputs))),
                   OutputArgs(config, outputs, Filtergraph.OutLabels(|outputs|)));
  }

  lemma MeaningOf(config: Config, input: string, video: Video, outputs: seq<Output>)
    returns (targets: seq<Target>, pads: Filtergraph.Pads)
    requires outputs != [] && forall i :: 0 <= i < |outputs| ==> outputs[i].size.0 >= 0 && outputs[i].size.1 >= 0
    requires ReadTargets(OutputArgs(config, outputs, Filtergraph.OutLabels(|outputs|)), [])
             == Some(Targets(config, outputs, Filtergraph.OutLabels(|outputs|)))
    ensures Meaning(Command(config, input, video.rotation, outputs), input, video)
            == if video.hasAudio then Some((targets, pads)) else None
    ensures targets == Targets(config, outputs, Filtergraph.OutLabels(|outputs|))
    ensures PadsAre(pads, Filtergraph.TurnsOf(video.rotation), OutputSizes(outputs))
  {
    targets := Targets(config, outputs, Filtergraph.OutLabels(|outputs|));
    CommandReads(config, input, video.rotation, outputs);
    pads := PadsOfPlan(video.rotation, OutputSizes(outputs), (video.width, video.height));
    TargetsConnected(config, video, outputs, pads);
  }

  lemma TargetsConnected(config: Config, video: Video, outputs: seq<Output>, pads: Filtergraph.Pads)
    requires outputs != [] && forall pad :: pad in pads <==> pad in Filtergraph.OutLabels(|outputs|)
    ensures Connected(AllMaps(Targets(config, outputs, Filtergraph.OutLabels(|outputs|))), pads, video)
            <==> video.hasAudio
  {
    var labels := Filtergraph.OutLabels(|outputs|);
    TargetsTakePads(config, outputs, labels);
    Filtergraph.LabelsApart(|outputs|);
    ConnectedExactly(Targets(config, outputs, labels), labels, pads, video);
  }

  lemma TargetsTakePads(config: Config, outputs: seq<Output>, labels: seq<string>)
    requires |outputs| == |labels|
    ensures TakePads(Targets(config, outputs, labels), labels)
  {
    forall i | 0 <= i < |outputs|
      ensures ValuesOf(TargetOf(config, outputs[i], labels[i]).options, "-map") == [Bracket(labels[i]), AUDIO]
    {
      MappedPads(config, outputs[i], labels[i]);
    }
  }

  ghost predicate PadsAre(pads: Filtergraph.Pads, turns: nat, sizes: seq<Filtergraph.Size>) {
    |pads| == |sizes| && (forall pad :: pad in pads <==> pad in Filtergraph.OutLabels(|sizes|)) &&
    forall i {:trigger Filtergraph.OutLabel(i)} :: 0 <= i < |sizes| ==>
      Filtergraph.OutLabel(i) in pads && pads[Filtergraph.OutLabel(i)] == Filtergraph.Picture(turns, sizes[i], true)
  }

  lemma PadsOfPlan(rotation: int, sizes: seq<Filtergraph.Size>, source: Filtergraph.Size)
    returns (pads: Filtergraph.Pads)
    requires sizes != [] && forall i :: 0 <= i < |sizes| ==> sizes[i].0 >= 0 && sizes[i].1 >= 0
    ensures var graph := GraphReader.ReadGraph(Filtergraph.GraphText(Filtergraph.GraphOf(rotation, sizes)));
      graph.Some? &&
      Filtergraph.Eval(graph.value, map[VIDEO := Filtergraph.Picture(0, source)], {VIDEO})
        == Some(pads)
    ensures PadsAre(pads, Filtergraph.TurnsOf(rotation), sizes)
  {
    GraphReader.TextIsCorrect(rotation, sizes, source);
    var graph := GraphReader.ReadGraph(Filtergraph.GraphText(Filtergraph.GraphOf(rotation, sizes))).value;
    pads := Filtergraph.Eval(graph, map[VIDEO := Filtergraph.Picture(0, source)],
      {VIDEO}).value;
    var labels := Filtergraph.OutLabels(|sizes|);
    CountPads(pads, Filtergraph.TurnsOf(rotation), sizes, labels);
    forall i {:trigger Filtergraph.OutLabel(i)} | 0 <= i < |sizes|
      ensures Filtergraph.OutLabel(i) in pads
      ensures pads[Filtergraph.OutLabel(i)] == Filtergraph.Picture(Filtergraph.TurnsOf(rotation), sizes[i], true)
    {
      assert labels[i] == Filtergraph.OutLabel(i);
    }
  }

  /** No pad is left over that no output takes. */
  lemma {:induction false} CountPads<L>(pads: map<L, Filtergraph.Picture>, turns: nat, sizes: seq<Filtergraph.Size>,
                                        labels: seq<L>)
    requires |sizes| == |labels| && Filtergraph.OutputsOnly(pads, turns, sizes, labels) && Filtergraph.Distinct(labels)
    ensures |pads| == |labels|
    decreases |labels|
  {
    if labels == [] {
      assert pads == map[];
    } else {
      var n := |labels| - 1;
      var fewer := pads - {labels[n]};
      assert pads.Keys == fewer.Keys + {labels[n]};
      CountPads(fewer, turns, sizes[..n], labels[..n]);
    }
  }
}
