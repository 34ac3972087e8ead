/** A transcode from plan to stored task: directories, command, master playlist and recorded paths, and what they have
    to do with each other. */
module Transcoder {
  import opened Text
  import opened OutputPaths
  import opened Segments
  import opened FfmpegCommand
  import Filtergraph
  import Paths
  import Playlist
  import Rotation
  import Scaling
  import VideoInfo

  datatype VariantOutput = VariantOutput(resolution: string, playlistPath: string, bandwidth: int)

  // ----- planning -----

  /** How the file system answers, collisions between the transcode's own files and directories aside. */
  datatype Disk = Disk(outputMade: bool, thumbnailMade: bool, dirMade: string -> bool, masterWritten: bool)

  function MasterFile(outputDir: string): string {
    Paths.JoinPath([outputDir, MASTER])
  }

  function ThumbnailFile(outputDir: string): string {
    Paths.JoinPath([outputDir, THUMBNAIL])
  }

  /** The variant's directory can be made: the thumbnail, if there is one, is not in the way. */
  predicate DirMade(disk: Disk, outputDir: string, name: string) {
    disk.dirMade(VariantDir(outputDir, name)) &&
    !(disk.thumbnailMade && Under(ThumbnailFile(outputDir), VariantDir(outputDir, name)))
  }

  /** No variant's directory is where the master playlist is to be written. */
  predicate MasterFree(outputDir: string, variants: seq<Variant>) {
    forall i :: 0 <= i < |variants| ==> !Under(MasterFile(outputDir), VariantDir(outputDir, variants[i].name))
  }

  predicate AllDirsMade(disk: Disk, outputDir: string, variants: seq<Variant>) {
    forall i :: 0 <= i < |variants| ==> DirMade(disk, outputDir, variants[i].name)
  }

  /** Plans the outputs and makes their directories; None when one cannot be made. */
  method PlanOutputs(video: Video, outputDir: string, variants: seq<Variant>, disk: Disk)
    returns (r: Option<seq<Output>>)
    ensures r == if AllDirsMade(disk, outputDir, variants) then Some(Outputs(video, outputDir, variants)) else None
  {
    var outputs: seq<Output> := [];
    for i := 0 to |variants|
      invariant outputs == Outputs(video, outputDir, variants[..i])
      invariant forall j :: 0 <= j < i ==> DirMade(disk, outputDir, variants[j].name)
    {
      var v := variants[i];
      var width, height := Scaling.CalculateWithRotation(video.width, video.height, v.target, video.rotation);
      var dir := Paths.JoinPath([outputDir, v.name]);
      if !DirMade(disk, outputDir, v.name) {
        return None;
      }
      outputs := outputs + [Output(v, (width, height), dir, Paths.JoinPath([dir, INDEX]),
        Paths.JoinPath([dir, "segment_%04d.ts"]))];
      OutputsStep(video, outputDir, variants, i);
    }
    assert variants[..|variants|] == variants;
    r := Some(outputs);
  }

  lemma OutputsStep(video: Video, outputDir: string, variants: seq<Variant>, i: nat)
    requires i < |variants|
    ensures Outputs(video, outputDir, variants[..i + 1])
            == Outputs(video, outputDir, variants[..i]) + [Planned(video, outputDir, variants[i])]
  {
  }

  // ----- what is recorded -----

  predicate Portrait(video: Video) {
    var (w, h) := Scaling.EffectiveDimensions(video.width, video.height, video.rotation); h > w
  }

  function VariantRecord(video: Video, outputDir: string, v: Variant): VariantOutput {
    VariantOutput(PrintInt(v.target) + (if Portrait(video) then "p (portrait)" else "p"),
      RecordedPath(outputDir, v.name), v.bandwidth)
  }

  function VariantRecords(video: Video, outputDir: string, variants: seq<Variant>): seq<VariantOutput> {
    seq(|variants|, i requires 0 <= i < |variants| => VariantRecord(video, outputDir, variants[i]))
  }

  method RecordVariants(video: Video, outputDir: string, outputs: seq<Output>, ghost variants: seq<Variant>)
    returns (records: seq<VariantOutput>)
    requires outputs == Outputs(video, outputDir, variants)
    ensures records == VariantRecords(video, outputDir, variants)
  {
    var base := Paths.Base(outputDir);
    records := [];
    for i := 0 to |outputs|
      invariant records == VariantRecords(video, outputDir, variants[..i])
    {
      var v := outputs[i].variant;
      var resolution := PrintInt(v.target) + (if Portrait(video) then "p (portrait)" else "p");
      records := records + [VariantOutput(resolution, Paths.JoinPath([base, v.name, INDEX]), v.bandwidth)];
      RecordsStep(video, outputDir, variants, i);
    }
    assert variants[..|outputs|] == variants;
  }

  lemma RecordsStep(video: Video, outputDir: string, variants: seq<Variant>, i: nat)
    requires i < |variants|
    ensures VariantRecords(video, outputDir, variants[..i + 1])
            == VariantRecords(video, outputDir, variants[..i]) + [VariantRecord(video, outputDir, variants[i])]
  {
  }

  /** The side and the orientation that a label names. */
  function ReadLabel(text: string): Option<(nat, bool)> {
    var digits := Before(text, 'p');
    if |digits| > |text| then None
    else
      match ParseNat(digits)
      case None => None
      case Some(n) =>
        if text[|digits|..] == "p" then Some((n, false))
        else if text[|digits|..] == "p (portrait)" then Some((n, true))
        else None
  }

  /** The recorded label names the variant's target and whether the picture, once turned, is higher than wide; the label
      of a negative target cannot be read. */
  lemma LabelReadsBack<T>(video: Video, outputDir: string, v: Variant, frame: Rotation.Frame<T>)
    requires frame.Valid() && frame.width == video.width && frame.height == video.height
    ensures var turned := Rotation.ApplyFilter(Rotation.GetRotationFilterType(video.rotation), frame);
      ReadLabel(VariantRecord(video, outputDir, v).resolution)
      == if v.target < 0 then None else Some((v.target, turned.height > turned.width))
  {
    Rotation.FilterGivesEffectiveDimensions(video.rotation, frame);
    var digits, rest := PrintInt(v.target), if Portrait(video) then "p (portrait)" else "p";
    assert VariantRecord(video, outputDir, v).resolution == digits + rest;
    DigitsFree(PrintNat(if v.target < 0 then -v.target else v.target), 'p');
    assert digits + rest == digits + "p" + rest[1..];
    SplitAt(digits, rest[1..], 'p');
    assert (digits + rest)[|digits|..] == rest;
    if v.target >= 0 {
      ParsePrinted(v.target);
    } else {
      assert digits[0] == '-' && !IsDigit('-');
    }
  }

  // ----- the master playlist -----

  function Listed(video: Video, v: Variant): Playlist.Variant {
    Playlist.Variant(v.name, Size(video, v).0, Size(video, v).1, v.bandwidth)
  }

  function AllListed(video: Video, variants: seq<Variant>): seq<Playlist.Variant> {
    seq(|variants|, i requires 0 <= i < |variants| => Listed(video, variants[i]))
  }

  method GenerateMasterPlaylist(video: Video, records: seq<VariantOutput>, variants: seq<Variant>)
    returns (text: string)
    requires |records| == |variants| && forall i :: 0 <= i < |variants| ==>
             records[i].bandwidth == variants[i].bandwidth
    ensures text == Playlist.Printed(AllListed(video, variants))
  {
    var listed: seq<Playlist.Variant> := [];
    for i := 0 to |records|
      invariant listed == AllListed(video, variants[..i])
    {
      var width, height := Scaling.CalculateWithRotation(video.width, video.height, variants[i].target, video.rotation);
      listed := listed + [Playlist.Variant(variants[i].name, width, height, records[i].bandwidth)];
    }
    assert variants[..|records|] == variants;
    text := Playlist.BuildMasterPlaylist(listed);
  }

  // ----- the stored result -----

  function RewrittenRecord(taskID: string, record: VariantOutput): VariantOutput {
    record.(playlistPath := Rewritten(taskID, record.playlistPath))
  }

  function RewrittenRecords(taskID: string, records: seq<VariantOutput>): seq<VariantOutput> {
    seq(|records|, i requires 0 <= i < |records| => RewrittenRecord(taskID, records[i]))
  }

  /** The first `n` records are rewritten, the others not yet. */
  ghost predicate HalfRewritten(taskID: string, before: seq<VariantOutput>, now: seq<VariantOutput>, n: nat) {
    n <= |before| == |now| && forall j :: 0 <= j < |now| ==>
      now[j] == if j < n then RewrittenRecord(taskID, before[j]) else before[j]
  }

  datatype Info = Info(basePath: string, bucket: string, playlistPath: string, thumbnailPath: string,
    variants: seq<VariantOutput>)

  /** The paths as the worker stores them: relative to the task instead of the output directory. */
  function RewrittenInfo(taskID: string, info: Info): Info {
    Info(taskID, info.bucket,
         if info.playlistPath == "" then "" else MasterKey(taskID),
         if info.thumbnailPath == "" then "" else ThumbnailKey(taskID),
         RewrittenRecords(taskID, info.variants))
  }

  function ThumbnailKey(taskID: string): string {
    Paths.JoinPath([taskID, THUMBNAIL])
  }

  class OutputInfo {
    var basePath: string
    var bucket: string
    var playlistPath: string
    var thumbnailPath: string
    var variants: seq<VariantOutput>

    function State(): Info
      reads this
    {
      Info(basePath, bucket, playlistPath, thumbnailPath, variants)
    }

    constructor (basePath: string, bucket: string)
      ensures State() == Info(basePath, bucket, "", "", [])
    {
      this.basePath, this.bucket := basePath, bucket;
      playlistPath, thumbnailPath, variants := "", "", [];
    }

    /** What the transcoder fills in as it goes. */
    method Fill(thumbnailPath: string, records: seq<VariantOutput>, playlistPath: string)
      modifies this
      ensures State() == old(State()).(thumbnailPath := thumbnailPath, variants := records,
              playlistPath := playlistPath)
    {
      this.thumbnailPath, variants, this.playlistPath := thumbnailPath, records, playlistPath;
    }

    method RewritePaths(taskID: string)
      modifies this
      ensures State() == RewrittenInfo(taskID, old(State()))
      ensures basePath == taskID && bucket == old(bucket) && |variants| == |old(variants)|
      ensures forall i :: 0 <= i < |variants| ==>
        variants[i].resolution == old(variants)[i].resolution && variants[i].bandwidth == old(variants)[i].bandwidth
    {
      basePath := taskID;
      if playlistPath != "" {
        playlistPath := Paths.JoinPath([taskID, MASTER]);
      }
      if thumbnailPath != "" {
        thumbnailPath := Paths.JoinPath([taskID, THUMBNAIL]);
      }
      for i := 0 to |variants|
        modifies `variants
        invariant HalfRewritten(taskID, old(variants), variants, i)
      {
        var record := variants[i];
        var parts := Split(record.playlistPath, '/');
        if |parts| >= 2 {
          var directory := parts[|parts| - 2];
          variants := variants[i := record.(playlistPath := Paths.JoinPath([taskID, directory, INDEX]))];
        }
        assert variants[i] == RewrittenRecord(taskID, record);
      }
    }
  }

  /** What a successful transcode reports. */
  function Reported(config: Config, video: Video, outputDir: string, thumbnailMade: bool): Info {
    var base := Paths.Base(outputDir);
    Info(base, config.bucket, MasterKey(base), if thumbnailMade then ThumbnailKey(base) else "",
         VariantRecords(video, outputDir, config.variants))
  }

  predicate Accepted(config: Config, video: Video, input: string, outputs: seq<Output>) {
    Meaning(Command(config, input, video.rotation, outputs), input, video).Some?
  }

  /** How FFmpeg fares with a command that it accepts and whose files it can open: whether it finishes in time, and how
      many segments it writes for each output. */
  datatype Run = Run(finishes: bool, segments: nat -> nat)

  /** The directory `dir` is in the way of none of the files that FFmpeg writes for a target: its playlist, and the
      segments as its pattern expands. */
  predicate Openable(t: Target, segments: nat, dir: string) {
    !Under(t.file, dir) &&
    forall p, k :: p in ValuesOf(t.options, SEGMENT_OPTION) && 0 <= k < segments ==> !Under(Expand(p, k), dir)
  }

  predicate Writable(targets: seq<Target>, outputs: seq<Output>, run: Run) {
    forall i, j :: 0 <= i < |targets| && 0 <= j < |outputs| ==>
      Openable(targets[i], run.segments(i), outputs[j].dir)
  }

  /** FFmpeg accepts the command, can open the files of its targets, and finishes in time. */
  predicate Finishes(command: Option<seq<string>>, input: string, video: Video, outputs: seq<Output>, run: Run) {
    var meaning := Meaning(command, input, video);
    run.finishes && meaning.Some? && Writable(meaning.value.0, outputs, run)
  }

  predicate Succeeds(config: Config, video: Video, input: string, outputDir: string, disk: Disk, run: Run) {
    var outputs := Outputs(video, outputDir, config.variants);
    && disk.outputMade && config.variants != [] && AllDirsMade(disk, outputDir, config.variants)
    && Finishes(Command(config, input, video.rotation, outputs), input, video, outputs, run)
    && disk.masterWritten && MasterFree(outputDir, config.variants)
  }

  /** Runs FFmpeg once for all outputs; None when there are none or FFmpeg fails. */
  method TranscodeAllVariants(config: Config, video: Video, input: string, outputs: seq<Output>, run: Run)
    returns (r: Option<seq<string>>)
    ensures var command := Command(config, input, video.rotation, outputs);
      r == if Finishes(command, input, video, outputs, run) then command else None
  {
    r := BuildCommand(config, input, video.rotation, outputs);
    if !Finishes(r, input, video, outputs, run) {
      r := None;
    }
  }

  method Transcode(config: Config, video: Video, input: string, outputDir: string, disk: Disk, run: Run)
    returns (r: Option<OutputInfo>, args: seq<string>, master: string)
    ensures r.Some? <==> Succeeds(config, video, input, outputDir, disk, run)
    ensures r.Some? ==> fresh(r.value) && r.value.State() == Reported(config, video, outputDir, disk.thumbnailMade)
    ensures r.Some? ==> Some(args) == Command(config, input, video.rotation, Outputs(video, outputDir, config.variants))
    ensures r.Some? ==> master == Playlist.Printed(AllListed(video, config.variants))
    ensures r.Some? ==> disk.outputMade && disk.masterWritten && run.finishes && config.variants != []
    ensures r.Some? ==>
      forall i :: 0 <= i < |config.variants| ==> disk.dirMade(VariantDir(outputDir, config.variants[i].name))
  {
    r, args, master := None, [], "";
    if !disk.outputMade {
      return;
    }
    var base := Paths.Base(outputDir);
    var info := new OutputInfo(base, config.bucket);
    var thumbnail := if disk.thumbnailMade then ThumbnailKey(base) else "";
    if |config.variants| == 0 {
      return;
    }
    var planned := PlanOutputs(video, outputDir, config.variants, disk);
    if planned.None? {
      return;
    }
    var outputs := planned.value;
    var done := TranscodeAllVariants(config, video, input, outputs, run);
    if done.None? {
      return;
    }
    args := done.value;
    var records := RecordVariants(video, outputDir, outputs, config.variants);
    if !disk.masterWritten || !MasterFree(outputDir, config.variants) {
      return;
    }
    master := GenerateMasterPlaylist(video, records, config.variants);
    info.Fill(thumbnail, records, MasterKey(base));
    r := Some(info);
  }

  // ----- what the player finds -----

  lemma PlannedPositive(video: Video, v: Variant)
    ensures Size(video, v).0 >= 2 && Size(video, v).1 >= 2
  {
  }

  /** The master playlist, read back, lists every variant in order with its size and bandwidth; each variant's URI
      resolves to the path stored in the task, which is the key of the playlist file that was written, and next to it
      are the keys of its segments. No two variants write the same file, no path has a percent sign for FFmpeg to
      expand, and no directory is in the way of a fixed file. */
  ghost predicate Described(video: Video, tempDir: string, taskID: string, variants: seq<Variant>,
                            thumbnailMade: bool) {
    var dir := OutputDir(tempDir, taskID);
    && ReadsBack(video, variants) && AllReach(dir, taskID, variants, thumbnailMade) && FilesApart(dir, variants)
    && forall v, k: nat :: v in variants ==> SegmentStored(dir, taskID, v.name, k)
  }

  predicate ReadsBack(video: Video, variants: seq<Variant>) {
    var r := Playlist.Read(Playlist.Printed(AllListed(video, variants)));
    r.Some? && |r.value| == |variants| && forall i :: 0 <= i < |variants| ==> Shows(video, variants[i], r.value[i])
  }

  /** An entry of the playlist with a variant's name, planned size and bandwidth. */
  predicate Shows(video: Video, v: Variant, entry: Playlist.Variant) {
    && entry.name == v.name && entry.bandwidth == v.bandwidth
    && (entry.width, entry.height) == Scaling.Planned(video.width, video.height, v.target, video.rotation)
  }

  /** A segment is stored under its name next to the key of its playlist. */
  predicate SegmentStored(dir: string, taskID: string, name: string, k: nat) {
    UploadKey(dir, taskID, Expand(SegmentPattern(dir, name), k))
    == Some(Paths.Render(Paths.Rooted(taskID), Paths.Elements(taskID) + [name, SegmentName(k)]))
  }

  predicate AllReach(dir: string, taskID: string, variants: seq<Variant>, thumbnailMade: bool) {
    forall v :: v in variants ==> Reaches(dir, taskID, v.name) && Unobstructed(dir, v.name, thumbnailMade)
  }

  predicate FilesApart(dir: string, variants: seq<Variant>) {
    forall i, j :: 0 <= i < j < |variants| ==>
      PlaylistFile(dir, variants[i].name) != PlaylistFile(dir, variants[j].name)
  }

  predicate Unobstructed(dir: string, name: string, thumbnailMade: bool) {
    Literal(VariantDir(dir, name)) && !Under(MasterFile(dir), VariantDir(dir, name)) &&
      !(thumbnailMade && Under(ThumbnailFile(dir), VariantDir(dir, name)))
  }

  predicate Reaches(dir: string, taskID: string, name: string) {
    && Resolve(MasterKey(taskID), name + Playlist.SUFFIX) == UploadKey(dir, taskID, PlaylistFile(dir, name))
    && UploadKey(dir, taskID, PlaylistFile(dir, name)) == Some(Recorded(dir, taskID, name))
  }

  /** A name that survives as a path element, as a line and as a reference, and is not that of a fixed file. */
  predicate Servable(name: string, thumbnailMade: bool) {
    Serves(name, thumbnailMade) && Free(name, '\n')
  }

  predicate Serves(name: string, thumbnailMade: bool) {
    && Paths.Ordinary(name) && Free(name, '#') && Free(name, '?') && Free(name, ':') && Literal(name)
    && name != MASTER && (thumbnailMade ==> name != THUMBNAIL)
  }

  predicate DistinctNames(variants: seq<Variant>) {
    forall i, j :: 0 <= i < j < |variants| ==> variants[i].name != variants[j].name
  }

  lemma ReachesExactly(tempDir: string, taskID: string, name: string)
    requires Free(name, '/')
    ensures Reaches(OutputDir(tempDir, taskID), taskID, name)
            <==> Paths.Ordinary(name) && Free(name, '#') && Free(name, '?') && Free(name, ':')
  {
    RecordedIsUploaded(tempDir, taskID, name);
    if Paths.Ordinary(name) {
      OrdinaryVariant(tempDir, taskID, name);
      ReferenceIsUploaded(taskID, name);
    }
  }

  lemma UnobstructedExactly(tempDir: string, taskID: string, name: string, thumbnailMade: bool)
    requires Free(name, '/')
    ensures Unobstructed(OutputDir(tempDir, taskID), name, thumbnailMade)
            <==> Literal(OutputDir(tempDir, taskID)) && Literal(name) && name != MASTER &&
                 (thumbnailMade ==> name != THUMBNAIL)
  {
    LiteralExactly(tempDir, taskID, name);
    CollidesExactly(tempDir, taskID, MASTER, name);
    CollidesExactly(tempDir, taskID, THUMBNAIL, name);
  }

  lemma FixedNames()
    ensures forall c | c == '/' || c == '#' || c == '?' || c == ':' || c == '\n' ::
              Free(MASTER, c) && Free(THUMBNAIL, c)
  {
  }

  /** A variant called like a fixed file is reached by every path and reference, but its directory is that file's
      path. */
  lemma FixedNamesCollide(tempDir: string, taskID: string, name: string)
    requires name == MASTER || name == THUMBNAIL
    ensures Reaches(OutputDir(tempDir, taskID), taskID, name) && Free(name, '\n')
    ensures !Unobstructed(OutputDir(tempDir, taskID), name, true)
  {
    OrdinaryConstants();
    FixedNames();
    ReachesExactly(tempDir, taskID, name);
    UnobstructedExactly(tempDir, taskID, name, true);
  }

  lemma FilesDifferExactly(tempDir: string, taskID: string, variants: seq<Variant>)
    requires forall v :: v in variants ==> Paths.Ordinary(v.name)
    ensures FilesApart(OutputDir(tempDir, taskID), variants) <==> DistinctNames(variants)
  {
    var dir := OutputDir(tempDir, taskID);
    forall i, j | 0 <= i < j < |variants|
      ensures PlaylistFile(dir, variants[i].name) == PlaylistFile(dir, variants[j].name) <==>
              variants[i].name == variants[j].name
    {
      FilesDiffer(tempDir, taskID, variants[i].name, variants[j].name);
    }
  }

  /** For slash-free names the master playlist describes the stored outputs exactly when every name is servable, every
      bandwidth printable, no name occurs twice, and the output directory, if used at all, has no percent sign. */
  lemma PlaylistDescribesOutputs(video: Video, tempDir: string, taskID: string, variants: seq<Variant>,
                                 thumbnailMade: bool)
    requires forall v :: v in variants ==> Free(v.name, '/')
    ensures Described(video, tempDir, taskID, variants, thumbnailMade) <==>
            (forall v :: v in variants ==> Servable(v.name, thumbnailMade) && v.bandwidth >= 0) &&
            DistinctNames(variants) && (variants == [] || Literal(OutputDir(tempDir, taskID)))
  {
    AllReachExactly(tempDir, taskID, variants, thumbnailMade);
    ReadsBackExactly(video, variants);
    if forall v :: v in variants ==> Serves(v.name, thumbnailMade) {
      FilesDifferExactly(tempDir, taskID, variants);
      if variants != [] && Literal(OutputDir(tempDir, taskID)) {
        SegmentsStored(tempDir, taskID, variants, thumbnailMade);
      }
    }
  }

  lemma SegmentsStored(tempDir: string, taskID: string, variants: seq<Variant>, thumbnailMade: bool)
    requires Literal(OutputDir(tempDir, taskID)) && forall v :: v in variants ==> Serves(v.name, thumbnailMade)
    ensures forall v, k: nat :: v in variants ==> SegmentStored(OutputDir(tempDir, taskID), taskID, v.name, k)
  {
    forall v, k: nat | v in variants
      ensures SegmentStored(OutputDir(tempDir, taskID), taskID, v.name, k)
    {
      LiteralExactly(tempDir, taskID, v.name);
      SegmentPlace(tempDir, taskID, v.name, k);
      SegmentKeyExactly(tempDir, taskID, v.name, k);
    }
  }

  lemma AllReachExactly(tempDir: string, taskID: string, variants: seq<Variant>, thumbnailMade: bool)
    requires forall v :: v in variants ==> Free(v.name, '/')
    ensures AllReach(OutputDir(tempDir, taskID), taskID, variants, thumbnailMade)
            <==> (forall v :: v in variants ==> Serves(v.name, thumbnailMade)) &&
                 (variants == [] || Literal(OutputDir(tempDir, taskID)))
  {
    var dir := OutputDir(tempDir, taskID);
    forall v | v in variants
      ensures Reaches(dir, taskID, v.name) && Unobstructed(dir, v.name, thumbnailMade)
              <==> Serves(v.name, thumbnailMade) && Literal(dir)
    {
      ReachesExactly(tempDir, taskID, v.name);
      UnobstructedExactly(tempDir, taskID, v.name, thumbnailMade);
    }
    if variants != [] {
      assert variants[0] in variants;
    }
  }

  lemma ReadsBackExactly(video: Video, variants: seq<Variant>)
    ensures ReadsBack(video, variants) <==>
            forall v :: v in variants ==> Free(v.name, '\n') && !Playlist.HasPrefix(v.name, "#") && v.bandwidth >= 0
    ensures forall v :: v in variants ==> Free(v.name, '#') ==> !Playlist.HasPrefix(v.name, "#")
  {
    Playlist.RoundTrip(AllListed(video, variants));
    ListedPlain(video, variants);
    var r := Playlist.Read(Playlist.Printed(AllListed(video, variants)));
    if ReadsBack(video, variants) {
      forall i | 0 <= i < |variants|
        ensures r.value[i] == AllListed(video, variants)[i]
      {
        assert Shows(video, variants[i], r.value[i]);
      }
      assert r.value == AllListed(video, variants);
    }
  }

  lemma ListedPlain(video: Video, variants: seq<Variant>)
    ensures (forall p :: p in AllListed(video, variants) ==> Playlist.Plain(p))
            <==> forall v :: v in variants ==>
              Free(v.name, '\n') && !Playlist.HasPrefix(v.name, "#") && v.bandwidth >= 0
    ensures forall v :: v in variants ==> Free(v.name, '#') ==> !Playlist.HasPrefix(v.name, "#")
  {
    var listed := AllListed(video, variants);
    forall i | 0 <= i < |variants|
      ensures Playlist.Plain(listed[i])
              <==> (Free(variants[i].name, '\n') && !Playlist.HasPrefix(variants[i].name, "#") &&
                    variants[i].bandwidth >= 0)
    {
      PlannedPositive(video, variants[i]);
    }
    forall v | v in variants
      ensures Listed(video, v) in listed
    {
      var i :| 0 <= i < |variants| && variants[i] == v;
      assert listed[i] == Listed(video, v);
    }
    forall v | v in variants && Free(v.name, '#')
      ensures !Playlist.HasPrefix(v.name, "#")
    {
      Playlist.HashPrefix(v.name);
    }
  }

  lemma JoinedNonEmpty(tempDir: string, taskID: string, file: string)
    requires file == MASTER || file == THUMBNAIL
    ensures Paths.JoinPath([Paths.Base(OutputDir(tempDir, taskID)), file]) != ""
  {
    BaseIsOutput(tempDir, taskID);
    JoinTwo(OUTPUT, file);
    CleanIs(OUTPUT + "/" + file);
  }

  /** What the worker stores after a transcode: the master playlist and the thumbnail under their object keys, and for
      slash-free names each variant's playlist under its key exactly when the name is ordinary. */
  lemma StoredPathsAreKeys(config: Config, video: Video, tempDir: string, taskID: string, thumbnailMade: bool)
    requires forall v :: v in config.variants ==> Free(v.name, '/')
    ensures var dir := OutputDir(tempDir, taskID);
      var info := RewrittenInfo(taskID, Reported(config, video, dir, thumbnailMade));
      && UploadKey(dir, taskID, MasterFile(dir)) == Some(info.playlistPath)
      && (if thumbnailMade then UploadKey(dir, taskID, ThumbnailFile(dir)) == Some(info.thumbnailPath)
          else info.thumbnailPath == "")
      && info.basePath == taskID && info.bucket == config.bucket && |info.variants| == |config.variants|
      && forall i :: 0 <= i < |config.variants| ==>
           info.variants[i].bandwidth == config.variants[i].bandwidth &&
           (UploadKey(dir, taskID, PlaylistFile(dir, config.variants[i].name)) == Some(info.variants[i].playlistPath)
            <==> Paths.Ordinary(config.variants[i].name))
  {
    JoinedNonEmpty(tempDir, taskID, MASTER);
    JoinedNonEmpty(tempDir, taskID, THUMBNAIL);
    FixedFilesAreUploaded(tempDir, taskID, MASTER);
    FixedFilesAreUploaded(tempDir, taskID, THUMBNAIL);
    var dir := OutputDir(tempDir, taskID);
    var info := RewrittenInfo(taskID, Reported(config, video, dir, thumbnailMade));
    forall i | 0 <= i < |config.variants|
      ensures UploadKey(dir, taskID, PlaylistFile(dir, config.variants[i].name)) == Some(info.variants[i].playlistPath)
              <==> Paths.Ordinary(config.variants[i].name)
    {
      RecordedIsUploaded(tempDir, taskID, config.variants[i].name);
      assert info.variants[i].playlistPath == Recorded(dir, taskID, config.variants[i].name);
    }
  }

  /** Every output has the size that the master playlist lists and the file that its URI stands for. */
  predicate AsListed(outputs: seq<Output>, outputDir: string, listed: seq<Playlist.Variant>) {
    |outputs| == |listed| &&
    forall i :: 0 <= i < |listed| ==>
      outputs[i].size == (listed[i].width, listed[i].height) &&
        outputs[i].playlist == PlaylistFile(outputDir, listed[i].name)
  }

  lemma OutputsAsListed(video: Video, outputDir: string, variants: seq<Variant>)
    ensures AsListed(Outputs(video, outputDir, variants), outputDir, AllListed(video, variants))
  {
  }

  lemma PlannedOutputs(video: Video, tempDir: string, taskID: string, variants: seq<Variant>)
    requires Paths.Rooted(tempDir)
    ensures var outputs := Outputs(video, OutputDir(tempDir, taskID), variants);
      forall i :: 0 <= i < |outputs| ==>
        outputs[i].size.0 >= 0 && outputs[i].size.1 >= 0 && !IsOption(outputs[i].playlist)
  {
    var outputs := Outputs(video, OutputDir(tempDir, taskID), variants);
    forall i | 0 <= i < |outputs|
      ensures outputs[i].size.0 >= 0 && outputs[i].size.1 >= 0 && !IsOption(outputs[i].playlist)
    {
      FilesDiffer(tempDir, taskID, variants[i].name, variants[i].name);
      PlannedPositive(video, variants[i]);
    }
  }

  /** Below a rooted temporary directory, every planned command encodes, variant by variant, the files and sizes of the
      master playlist if and only if the input has an audio stream; for a silent video FFmpeg refuses it. */
  lemma CommandEncodesPlaylist(config: Config, video: Video, input: string, tempDir: string, taskID: string)
    requires Paths.Rooted(tempDir) && config.variants != []
    ensures var outputs := Outputs(video, OutputDir(tempDir, taskID), config.variants);
      var meaning := Meaning(Command(config, input, video.rotation, outputs), input, video);
      && (EncodesAll(meaning, Filtergraph.TurnsOf(video.rotation), outputs) <==> video.hasAudio)
      && (meaning.Some? <==> video.hasAudio)
      && AsListed(outputs, OutputDir(tempDir, taskID), AllListed(video, config.variants))
  {
    OutputsAsListed(video, OutputDir(tempDir, taskID), config.variants);
    PlannedOutputs(video, tempDir, taskID, config.variants);
    CommandEncodes(config, video, input, Outputs(video, OutputDir(tempDir, taskID), config.variants));
  }

  // ----- from the probe to the plan -----

  /** What the transcoder gets to know of a file, and whether the file has an audio stream. */
  function Probed(streams: seq<VideoInfo.Stream>, info: VideoInfo.Info): Video {
    Video(info.width, info.height, info.rotation, VideoInfo.HasAudio(streams))
  }

  /** For a probed file FFmpeg accepts the planned command exactly when the file has an audio stream, which a codec in
      the probe's result guarantees. */
  lemma ProbedFileEncodes(config: Config, streams: seq<VideoInfo.Stream>, info: VideoInfo.Info, input: string,
                          tempDir: string, taskID: string)
    requires Paths.Rooted(tempDir) && config.variants != [] && VideoInfo.AudioFrom(streams, info.audioCodec)
    ensures var video := Probed(streams, info);
      var outputs := Outputs(video, OutputDir(tempDir, taskID), config.variants);
      && (Accepted(config, video, input, outputs) <==> VideoInfo.HasAudio(streams))
      && (info.audioCodec != "" ==> Accepted(config, video, input, outputs))
  {
    CommandEncodesPlaylist(config, Probed(streams, info), input, tempDir, taskID);
    VideoInfo.AudioCodecExactly(streams, info.audioCodec);
  }

  /** A landscape video with a square cover picture behind it. */
  function WithCover(): seq<VideoInfo.Stream> {
    [VideoInfo.Stream.Video(1920, 1080, VideoInfo.Absent, []), VideoInfo.Audio("aac"),
     VideoInfo.Stream.Video(600, 600, VideoInfo.Absent, [])]
  }

  /** Whatever the probe makes of it, its 720p variant is planned as a square, while the stream that is encoded asks for
      1280 by 720. */
  lemma CoverIsPlanned(info: VideoInfo.Info, v: Variant)
    requires VideoInfo.VideoFrom(WithCover(), info) && v.target == 720
    ensures VideoInfo.FirstVideo(WithCover(), 0) && !VideoInfo.Describes(info, WithCover()[0])
    ensures Size(Probed(WithCover(), info), v) == (720, 720)
    ensures Scaling.Planned(WithCover()[0].width, WithCover()[0].height, 720, VideoInfo.StreamAngle(WithCover()[0]))
            == (1280, 720)
  {
    assert VideoInfo.LastVideo(WithCover(), 2);
    VideoInfo.EncodedIsDescribedExactly(WithCover(), info, 0, 2);
  }

  /** A file that FFmpeg writes into the directory of an output; segments only if the output directory does not expand
      to another. */
  predicate Written(outputDir: string, file: string, segments: nat) {
    file == INDEX || exists k :: 0 <= k < segments && file == SegmentName(k) && Expand(outputDir, k) == outputDir
  }

  /** No variant is called like a file of a variant that has no directory of its own. */
  predicate NamesClear(outputDir: string, variants: seq<Variant>, run: Run) {
    forall i, j :: 0 <= i < |variants| && 0 <= j < |variants| && (variants[i].name == "" || variants[i].name == ".") ==>
      !Written(outputDir, variants[j].name, run.segments(i))
  }

  /** What a target that was read from a command writes. */
  predicate WritesFor(t: Target, outputDir: string, name: string) {
    t.file == PlaylistFile(outputDir, name) && ValuesOf(t.options, SEGMENT_OPTION) == [SegmentPattern(outputDir, name)]
  }

  lemma OpenableExactly(tempDir: string, taskID: string, t: Target, a: string, segments: nat, b: string)
    requires Free(a, '/') && Free(b, '/') && WritesFor(t, OutputDir(tempDir, taskID), a)
    ensures var dir := OutputDir(tempDir, taskID);
      Openable(t, segments, VariantDir(dir, b)) <==> !((a == "" || a == ".") && Written(dir, b, segments))
  {
    OrdinaryConstants();
    var dir := OutputDir(tempDir, taskID);
    assert INDEX[0] != OUTPUT[0];
    FileCollidesExactly(tempDir, taskID, a, INDEX, b);
    forall k: nat | k < segments
      ensures Under(Expand(SegmentPattern(dir, a), k), VariantDir(dir, b))
              <==> (a == "" || a == ".") && b == SegmentName(k) && Expand(dir, k) == dir
    {
      SegmentCollidesExactly(tempDir, taskID, a, k, b);
    }
    assert SegmentPattern(dir, a) in ValuesOf(t.options, SEGMENT_OPTION);
  }

  /** The targets of the planned command write each variant's playlist and segments. */
  lemma TargetsWrite(config: Config, video: Video, input: string, tempDir: string, taskID: string)
    requires Paths.Rooted(tempDir) && config.variants != [] && video.hasAudio
    ensures var outputs := Outputs(video, OutputDir(tempDir, taskID), config.variants);
      var meaning := Meaning(Command(config, input, video.rotation, outputs), input, video);
      && meaning.Some? && |meaning.value.0| == |config.variants|
      && forall i :: 0 <= i < |config.variants| ==>
           WritesFor(meaning.value.0[i], OutputDir(tempDir, taskID), config.variants[i].name) &&
           outputs[i].variant == config.variants[i] && Configured(meaning.value.0[i], config, outputs[i])
  {
    var outputs := Outputs(video, OutputDir(tempDir, taskID), config.variants);
    PlannedOutputs(video, tempDir, taskID, config.variants);
    CommandTargets(config, video, input, outputs);
    var targets := Targets(config, outputs, Filtergraph.OutLabels(|outputs|));
    forall i | 0 <= i < |config.variants|
      ensures Configured(targets[i], config, outputs[i]) && targets[i].file == outputs[i].playlist
    {
      assert outputs[i] == outputs[i];
    }
  }

  /** Of every variant the command as FFmpeg reads it puts segment `k` under its name into the expanded directory; that
      is the directory of the variant's playlist exactly when expanding leaves it as it is, and always without percent
      signs. */
  lemma CommandPlacesSegments(config: Config, video: Video, input: string, tempDir: string, taskID: string, i: nat,
                              k: nat)
    requires Paths.Rooted(tempDir) && video.hasAudio && i < |config.variants|
    ensures var outputs := Outputs(video, OutputDir(tempDir, taskID), config.variants);
      var meaning := Meaning(Command(config, input, video.rotation, outputs), input, video);
      && meaning.Some? && i < |meaning.value.0|
      && var t := meaning.value.0[i]; var d := VariantDir(OutputDir(tempDir, taskID), config.variants[i].name);
      && t.file == Paths.JoinPath([d, "index.m3u8"]) && |ValuesOf(t.options, SEGMENT_OPTION)| == 1
      && var segment := Expand(ValuesOf(t.options, SEGMENT_OPTION)[0], k);
      && segment == Paths.JoinPath([Expand(d, k), SegmentName(k)])
      && (segment == Paths.JoinPath([d, SegmentName(k)]) <==> Expand(d, k) == d)
      && (Literal(d) ==> Expand(d, k) == d)
  {
    TargetsWrite(config, video, input, tempDir, taskID);
    SegmentPlace(tempDir, taskID, config.variants[i].name, k);
  }

  lemma WritableExactly(config: Config, video: Video, input: string, tempDir: string, taskID: string, run: Run)
    requires Paths.Rooted(tempDir) && config.variants != [] && video.hasAudio
    requires forall v :: v in config.variants ==> Free(v.name, '/')
    ensures var outputs := Outputs(video, OutputDir(tempDir, taskID), config.variants);
      var meaning := Meaning(Command(config, input, video.rotation, outputs), input, video);
      meaning.Some? &&
      (Writable(meaning.value.0, outputs, run) <==> NamesClear(OutputDir(tempDir, taskID), config.variants, run))
  {
    var dir, variants := OutputDir(tempDir, taskID), config.variants;
    var outputs := Outputs(video, dir, variants);
    TargetsWrite(config, video, input, tempDir, taskID);
    var targets := Meaning(Command(config, input, video.rotation, outputs), input, video).value.0;
    forall i, j | 0 <= i < |variants| && 0 <= j < |variants|
      ensures Openable(targets[i], run.segments(i), outputs[j].dir)
              <==> !((variants[i].name == "" || variants[i].name == ".") &&
                     Written(dir, variants[j].name, run.segments(i)))
    {
      OpenableExactly(tempDir, taskID, targets[i], variants[i].name, run.segments(i), variants[j].name);
    }
  }

  lemma FixedDirsExactly(tempDir: string, taskID: string, disk: Disk, variants: seq<Variant>)
    requires forall d :: disk.dirMade(d)
    requires forall v :: v in variants ==> Free(v.name, '/')
    ensures var dir := OutputDir(tempDir, taskID); AllDirsMade(disk, dir, variants) && MasterFree(dir, variants) <==>
            forall v :: v in variants ==> v.name != MASTER && (disk.thumbnailMade ==> v.name != THUMBNAIL)
  {
    var dir := OutputDir(tempDir, taskID);
    forall i | 0 <= i < |variants|
      ensures Under(MasterFile(dir), VariantDir(dir, variants[i].name)) <==> variants[i].name == MASTER
      ensures Under(ThumbnailFile(dir), VariantDir(dir, variants[i].name)) <==> variants[i].name == THUMBNAIL
    {
      CollidesExactly(tempDir, taskID, MASTER, variants[i].name);
      CollidesExactly(tempDir, taskID, THUMBNAIL, variants[i].name);
    }
    DirsExactly(disk, dir, variants);
  }

  /** When FFmpeg finishes in time and the file system refuses nothing for other reasons, a transcode below a rooted
      temporary directory with slash-free names succeeds exactly with at least one variant, an audio stream, no variant
      called like a fixed file, and none called like a file of a variant without a directory of its own. */
  lemma TranscodeSucceedsExactly(config: Config, video: Video, input: string, tempDir: string, taskID: string,
                                 disk: Disk, run: Run)
    requires Paths.Rooted(tempDir) && disk.outputMade && disk.masterWritten && forall dir :: disk.dirMade(dir)
    requires run.finishes
    requires forall v :: v in config.variants ==> Free(v.name, '/')
    ensures Succeeds(config, video, input, OutputDir(tempDir, taskID), disk, run) <==>
            && config.variants != [] && video.hasAudio
            && NamesClear(OutputDir(tempDir, taskID), config.variants, run)
            && forall v :: v in config.variants ==> v.name != MASTER && (disk.thumbnailMade ==> v.name != THUMBNAIL)
  {
    if config.variants != [] {
      CommandEncodesPlaylist(config, video, input, tempDir, taskID);
      if video.hasAudio {
        WritableExactly(config, video, input, tempDir, taskID, run);
      }
    }
    FixedDirsExactly(tempDir, taskID, disk, config.variants);
  }

  lemma DirsExactly(disk: Disk, dir: string, variants: seq<Variant>)
    requires forall d :: disk.dirMade(d)
    requires forall i :: 0 <= i < |variants| ==>
               (Under(MasterFile(dir), VariantDir(dir, variants[i].name)) <==> variants[i].name == MASTER) &&
               (Under(ThumbnailFile(dir), VariantDir(dir, variants[i].name)) <==> variants[i].name == THUMBNAIL)
    ensures AllDirsMade(disk, dir, variants) && MasterFree(dir, variants) <==>
            forall v :: v in variants ==> v.name != MASTER && (disk.thumbnailMade ==> v.name != THUMBNAIL)
  {
    if AllDirsMade(disk, dir, variants) && MasterFree(dir, variants) {
      forall v | v in variants
        ensures v.name != MASTER && (disk.thumbnailMade ==> v.name != THUMBNAIL)
      {
        var i :| 0 <= i < |variants| && variants[i] == v;
        assert DirMade(disk, dir, variants[i].name);
      }
    }
  }
}
