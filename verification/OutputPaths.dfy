/** Where a transcode puts its files, what the task records about them, and under which object keys they are stored. */
module OutputPaths {
  import opened Text
  import opened Paths
  import Playlist

  const INDEX := "index.m3u8"
  const MASTER := "master.m3u8"
  const THUMBNAIL := "thumbnail.jpg"
  const OUTPUT := "output"
  const SEGMENTS := "segment_%04d.ts"

  // ----- files -----

  function WorkDir(tempDir: string, taskID: string): string {
    JoinPath([tempDir, "cloud-media", taskID])
  }

  function OutputDir(tempDir: string, taskID: string): string {
    JoinPath([WorkDir(tempDir, taskID), OUTPUT])
  }

  function VariantDir(outputDir: string, name: string): string {
    JoinPath([outputDir, name])
  }

  /** A file of a variant. */
  function VariantFile(outputDir: string, name: string, file: string): string {
    JoinPath([VariantDir(outputDir, name), file])
  }

  function PlaylistFile(outputDir: string, name: string): string {
    VariantFile(outputDir, name, INDEX)
  }

  /** The file that FFmpeg writes for number `k` of the pattern `segment_%04d.ts`. */
  function SegmentName(k: nat): string {
    "segment_" + Padded(k, 4) + ".ts"
  }

  // ----- what the task records -----

  /** The path the transcoder records for a variant, below the base name of its output directory. */
  function RecordedPath(outputDir: string, name: string): string {
    JoinPath([Base(outputDir), name, INDEX])
  }

  /** The worker replaces everything but the variant's directory by the task. */
  function Rewritten(taskID: string, path: string): string {
    var parts := Split(path, '/');
    if |parts| >= 2 then JoinPath([taskID, parts[|parts| - 2], INDEX]) else path
  }

  function Recorded(outputDir: string, taskID: string, name: string): string {
    Rewritten(taskID, RecordedPath(outputDir, name))
  }

  // ----- what is stored -----

  /** The path of a file below a directory; None if it is elsewhere. Both paths are clean. */
  function Relative(dir: string, file: string): Option<string> {
    if Playlist.HasPrefix(file, dir + "/") then Some(file[|dir| + 1..]) else None
  }

  /** The object key of a file that the walk over the output directory finds. */
  function UploadKey(outputDir: string, taskID: string, file: string): Option<string> {
    match Relative(outputDir, file)
    case None => None
    case Some(rel) => Some(JoinPath([taskID, rel]))
  }

  // ----- references -----

  function Before(s: string, c: char): string {
    Split(s, c)[0]
  }

  /** Everything up to and including the last slash. */
  function Directory(path: string): string {
    if path != "" && path[|path| - 1] != '/' then Directory(path[..|path| - 1]) else path
  }

  /** A relative reference resolved against a base path (RFC 3986, section 5.2.2): fragment and query are not part of
      the path, and a first segment with a colon is a scheme. Percent signs are kept as they are. */
  function Resolve(base: string, reference: string): Option<string> {
    var path := Before(Before(reference, '#'), '?');
    if !Free(Before(path, '/'), ':') then None
    else if path == "" then Some(Clean(base))
    else if path[0] == '/' then Some(Clean(path))
    else Some(Clean(Directory(base) + path))
  }

  // ----- proofs -----

  lemma ElementsWalk(path: string, tail: string)
    requires path != ""
    ensures Elements(path + "/" + tail) == Walk(Elements(path), Split(tail, '/'), Rooted(path))
    ensures Rooted(path + "/" + tail) == Rooted(path)
  {
    SplitConcat(path, tail);
    WalkConcat([], Split(path, '/'), Split(tail, '/'), Rooted(path));
  }

  lemma JoinTwo(a: string, b: string)
    requires a != ""
    ensures JoinPath([a, b]) == Clean(a + "/" + b)
  {
    JoinPair(a, b, '/');
  }

  lemma JoinThree(a: string, b: string, c: string)
    requires a != "" || b != ""
    ensures JoinPath([a, b, c]) == JoinPath([a, Join([b, c], '/')])
  {
    var tail := Join([b, c], '/');
    JoinPair(b, c, '/');
    JoinPair(a, tail, '/');
    assert [a, b, c][1..] == [b, c] && [a, tail][1..] == [tail] && [tail][1..] == [];
    assert Join([a, b, c], '/') == a + "/" + tail;
  }

  /** A path that cleaning produced. */
  ghost predicate Is(path: string, rooted: bool, elements: seq<string>) {
    Settled(elements, rooted) && path == Render(rooted, elements) && path != "" &&
    Rooted(path) == rooted && Elements(path) == elements
  }

  lemma CleanIs(path: string)
    ensures Is(Clean(path), Rooted(path), Elements(path))
  {
    PathSettled(path);
    RenderedElements(Elements(path), Rooted(path));
    SettledFree(Elements(path), Rooted(path));
    if Elements(path) != [] {
      JoinFirst(Elements(path));
    }
  }

  lemma JoinIs(path: string, rooted: bool, elements: seq<string>, tail: string)
    requires Is(path, rooted, elements)
    ensures Is(JoinPath([path, tail]), rooted, Walk(elements, Split(tail, '/'), rooted))
  {
    JoinTwo(path, tail);
    ElementsWalk(path, tail);
    CleanIs(path + "/" + tail);
  }

  lemma WorkDirClean(tempDir: string, taskID: string) returns (p: string)
    ensures WorkDir(tempDir, taskID) == Clean(p)
  {
    var rest := ["cloud-media", taskID];
    assert [tempDir, "cloud-media", taskID][1..] == rest;
    if tempDir == "" {
      p := Join(rest, '/');
      assert JoinPath(rest) == Clean(p);
      assert JoinPath([tempDir, "cloud-media", taskID]) == JoinPath(rest);
    } else {
      p := Join([tempDir, "cloud-media", taskID], '/');
      assert JoinPath([tempDir, "cloud-media", taskID]) == Clean(p);
    }
  }

  /** The output directory is the directory `output` below some clean path. */
  lemma OutputDirIs(tempDir: string, taskID: string) returns (parent: seq<string>)
    ensures Is(OutputDir(tempDir, taskID), Rooted(WorkDir(tempDir, taskID)), parent + [OUTPUT])
  {
    var p := WorkDirClean(tempDir, taskID);
    OrdinaryConstants();
    CleanIs(p);
    ChildIs(Clean(p), Rooted(p), Elements(p), OUTPUT);
    parent := Elements(p);
  }

  lemma ChildIs(path: string, rooted: bool, elements: seq<string>, name: string)
    requires Is(path, rooted, elements) && Ordinary(name)
    ensures Is(JoinPath([path, name]), rooted, elements + [name])
  {
    SplitFree(name, '/');
    JoinIs(path, rooted, elements, name);
    WalkAppends(elements, [name], rooted);
  }

  lemma VariantFileIs(dir: string, rooted: bool, elements: seq<string>, name: string, file: string)
    requires Is(dir, rooted, elements) && Free(name, '/') && Ordinary(file)
    ensures Is(VariantFile(dir, name, file), rooted, Walk(elements, [name], rooted) + [file])
  {
    SplitFree(name, '/');
    JoinIs(dir, rooted, elements, name);
    ChildIs(VariantDir(dir, name), rooted, Walk(elements, [name], rooted), file);
  }

  lemma PlaylistFileIs(dir: string, rooted: bool, elements: seq<string>, name: string)
    requires Is(dir, rooted, elements) && Free(name, '/')
    ensures Is(PlaylistFile(dir, name), rooted, Walk(elements, [name], rooted) + [INDEX])
  {
    OrdinaryConstants();
    VariantFileIs(dir, rooted, elements, name, INDEX);
  }

  lemma RelativeBelow(dir: string, file: string, rooted: bool, elements: seq<string>, names: seq<string>)
    requires elements != [] && names != [] && dir == Render(rooted, elements) &&
             file == Render(rooted, elements + names)
    ensures Relative(dir, file) == Some(Join(names, '/'))
  {
    JoinAppend(elements, names, '/');
    assert file == dir + "/" + Join(names, '/');
  }

  lemma RenderSplit(rooted: bool, elements: seq<string>)
    requires Settled(elements, rooted) && elements != []
    ensures Split(Render(rooted, elements), '/') == (if rooted then [""] else []) + elements
  {
    SettledFree(elements, rooted);
    SplitJoin(elements, '/');
    if rooted {
      assert Render(rooted, elements)[1..] == Join(elements, '/');
    }
  }

  lemma RelativeIsBelow(dir: string, file: string, rooted: bool, elements: seq<string>, others: seq<string>)
    requires Is(dir, rooted, elements) && Is(file, rooted, others) && elements != [] && others != []
    ensures Relative(dir, file).Some? ==> |others| > |elements| && others[..|elements|] == elements
  {
    if Relative(dir, file).Some? {
      var rest := file[|dir| + 1..];
      assert file == dir + "/" + rest;
      SplitConcat(dir, rest);
      RenderSplit(rooted, elements);
      RenderSplit(rooted, others);
      Cancel(if rooted then [""] else [], others, elements, Split(rest, '/'));
    }
  }

  lemma Cancel(root: seq<string>, others: seq<string>, elements: seq<string>, rest: seq<string>)
    requires root + others == (root + elements) + rest && rest != []
    ensures |others| > |elements| && others[..|elements|] == elements
  {
    assert (root + others)[|root|..] == others && ((root + elements) + rest)[|root|..] == elements + rest;
  }

  /** Every file below the output directory is stored under the task. */
  lemma KeyOf(dir: string, rooted: bool, elements: seq<string>, names: seq<string>, file: string, taskID: string)
    requires Is(dir, rooted, elements) && elements != [] && names != [] && AllOrdinary(names)
    requires file == Render(rooted, elements + names)
    ensures UploadKey(dir, taskID, file) == Some(Render(Rooted(taskID), Elements(taskID) + names))
  {
    RelativeBelow(dir, file, rooted, elements, names);
    JoinedElements(taskID, names);
  }

  lemma OrdinaryConstants()
    ensures Ordinary(INDEX) && Ordinary(MASTER) && Ordinary(THUMBNAIL) && Ordinary(OUTPUT)
  {
    assert INDEX[0] == 'i' && MASTER[0] == 'm' && THUMBNAIL[0] == 't' && OUTPUT[0] == 'o';
  }

  lemma ThreeOrdinary(a: string, b: string, c: string)
    requires Ordinary(a) && Ordinary(b) && Ordinary(c)
    ensures Split(JoinPath([a, b, c]), '/') == [a, b, c]
  {
    JoinThree(a, b, c);
    SplitFree(a, '/');
    WalkAppends([], [a], false);
    JoinedElements(a, [b, c]);
    assert Elements(a) + [b, c] == [a, b, c];
    SplitJoin([a, b, c], '/');
  }

  lemma RecordedOrdinary(outputDir: string, taskID: string, name: string)
    requires Base(outputDir) == OUTPUT && Ordinary(name)
    ensures Recorded(outputDir, taskID, name) == JoinPath([taskID, Join([name, INDEX], '/')])
  {
    OrdinaryConstants();
    ThreeOrdinary(OUTPUT, name, INDEX);
    JoinThree(taskID, name, INDEX);
  }

  lemma EmptyElement(name: string)
    requires name == "" || name == "."
    ensures JoinPath([OUTPUT, name, INDEX]) == Join([OUTPUT, INDEX], '/')
  {
    var tail := Join([name, INDEX], '/');
    OrdinaryConstants();
    JoinThree(OUTPUT, name, INDEX);
    JoinTwo(OUTPUT, tail);
    SplitFree(OUTPUT, '/');
    SplitJoin([name, INDEX], '/');
    ElementsWalk(OUTPUT, tail);
    WalkEmpty(name);
  }

  lemma WalkEmpty(name: string)
    requires name == "" || name == "."
    ensures Walk([], [OUTPUT], false) == [OUTPUT] && Walk([OUTPUT], [name, INDEX], false) == [OUTPUT, INDEX]
  {
    OrdinaryConstants();
    WalkAppends([], [OUTPUT], false);
    assert [name, INDEX][1..] == [INDEX];
    WalkAppends([OUTPUT], [INDEX], false);
  }

  lemma RecordedEmpty(outputDir: string, taskID: string, name: string)
    requires Base(outputDir) == OUTPUT && (name == "" || name == ".")
    ensures Recorded(outputDir, taskID, name) == JoinPath([taskID, Join([OUTPUT, INDEX], '/')])
  {
    OrdinaryConstants();
    JoinThree(taskID, OUTPUT, INDEX);
    EmptyElement(name);
    SplitJoin([OUTPUT, INDEX], '/');
  }

  lemma BaseIsOutput(tempDir: string, taskID: string)
    ensures Base(OutputDir(tempDir, taskID)) == OUTPUT
  {
    OrdinaryConstants();
    var parent := OutputDirIs(tempDir, taskID);
    var rooted := Rooted(WorkDir(tempDir, taskID));
    PopSettled(parent, OUTPUT, rooted);
    BaseOfRendered(rooted, parent, OUTPUT);
  }

  lemma PopSettled(elements: seq<string>, last: string, rooted: bool)
    requires Settled(elements + [last], rooted)
    ensures Settled(elements, rooted)
  {
    SettledPop(elements + [last], rooted);
    assert (elements + [last])[..|elements|] == elements;
  }

  /** The key of a variant's media playlist. */
  function VariantKey(taskID: string, name: string): string {
    Render(Rooted(taskID), Elements(taskID) + [name, INDEX])
  }

  lemma OrdinaryVariant(tempDir: string, taskID: string, name: string)
    requires Ordinary(name)
    ensures var dir := OutputDir(tempDir, taskID);
      UploadKey(dir, taskID, PlaylistFile(dir, name)) == Some(VariantKey(taskID, name)) &&
      Recorded(dir, taskID, name) == VariantKey(taskID, name)
  {
    OrdinaryConstants();
    var dir, rooted := OutputDir(tempDir, taskID), Rooted(WorkDir(tempDir, taskID));
    var parent := OutputDirIs(tempDir, taskID);
    var elements := parent + [OUTPUT];
    PlaylistFileIs(dir, rooted, elements, name);
    WalkAppends(elements, [name], rooted);
    assert elements + [name] + [INDEX] == elements + [name, INDEX];
    KeyOf(dir, rooted, elements, [name, INDEX], PlaylistFile(dir, name), taskID);
    BaseIsOutput(tempDir, taskID);
    RecordedOrdinary(dir, taskID, name);
    JoinedElements(taskID, [name, INDEX]);
  }

  lemma EmptyVariant(tempDir: string, taskID: string, name: string)
    requires name == "" || name == "."
    ensures var dir := OutputDir(tempDir, taskID);
      UploadKey(dir, taskID, PlaylistFile(dir, name)) != Some(Recorded(dir, taskID, name))
  {
    OrdinaryConstants();
    var dir, rooted := OutputDir(tempDir, taskID), Rooted(WorkDir(tempDir, taskID));
    var parent := OutputDirIs(tempDir, taskID);
    var elements := parent + [OUTPUT];
    PlaylistFileIs(dir, rooted, elements, name);
    assert Walk(elements, [name], rooted) == Walk(elements, [], rooted) == elements;
    KeyOf(dir, rooted, elements, [INDEX], PlaylistFile(dir, name), taskID);
    BaseIsOutput(tempDir, taskID);
    RecordedEmpty(dir, taskID, name);
    assert Join([INDEX], '/') == INDEX;
    JoinedElements(taskID, [INDEX]);
    ElementsOfJoined(taskID, [INDEX]);
    ElementsOfJoined(taskID, [OUTPUT, INDEX]);
  }

  lemma ParentVariant(tempDir: string, taskID: string)
    ensures var dir := OutputDir(tempDir, taskID); UploadKey(dir, taskID, PlaylistFile(dir, "..")) == None
  {
    OrdinaryConstants();
    var dir, rooted := OutputDir(tempDir, taskID), Rooted(WorkDir(tempDir, taskID));
    var parent := OutputDirIs(tempDir, taskID);
    var elements := parent + [OUTPUT];
    PlaylistFileIs(dir, rooted, elements, "..");
    assert elements[..|elements| - 1] == parent;
    assert Walk(elements, [".."], rooted) == Walk(parent, [], rooted) == parent;
    RelativeIsBelow(dir, PlaylistFile(dir, ".."), rooted, elements, parent + [INDEX]);
  }

  /** For a name without slashes, the path stored in the task is the object key of the variant's playlist exactly
      when the name is ordinary: the empty name and `.` are recorded one directory too deep, `..` is never stored. */
  lemma RecordedIsUploaded(tempDir: string, taskID: string, name: string)
    requires Free(name, '/')
    ensures var dir := OutputDir(tempDir, taskID);
      UploadKey(dir, taskID, PlaylistFile(dir, name)) == Some(Recorded(dir, taskID, name)) <==> Ordinary(name)
  {
    if Ordinary(name) {
      OrdinaryVariant(tempDir, taskID, name);
    } else if name == ".." {
      ParentVariant(tempDir, taskID);
    } else {
      EmptyVariant(tempDir, taskID, name);
    }
  }

  /** The paths stored for the master playlist and the thumbnail are their object keys. */
  lemma FixedFilesAreUploaded(tempDir: string, taskID: string, file: string)
    requires file == MASTER || file == THUMBNAIL
    ensures var dir := OutputDir(tempDir, taskID);
      UploadKey(dir, taskID, JoinPath([dir, file])) == Some(JoinPath([taskID, file]))
  {
    OrdinaryConstants();
    var dir, rooted := OutputDir(tempDir, taskID), Rooted(WorkDir(tempDir, taskID));
    var parent := OutputDirIs(tempDir, taskID);
    var elements := parent + [OUTPUT];
    ChildIs(dir, rooted, elements, file);
    KeyOf(dir, rooted, elements, [file], JoinPath([dir, file]), taskID);
    assert Join([file], '/') == file;
    JoinedElements(taskID, [file]);
  }

  /** Variants with different names have different keys, and no variant's key is a fixed file's. */
  lemma KeysDiffer(taskID: string, a: string, b: string)
    requires Ordinary(a) && Ordinary(b)
    ensures VariantKey(taskID, a) == VariantKey(taskID, b) <==> a == b
    ensures VariantKey(taskID, a) !in {JoinPath([taskID, MASTER]), JoinPath([taskID, THUMBNAIL])}
  {
    OrdinaryConstants();
    JoinedElements(taskID, [a, INDEX]);
    JoinedElements(taskID, [b, INDEX]);
    ElementsOfJoined(taskID, [a, INDEX]);
    ElementsOfJoined(taskID, [b, INDEX]);
    assert (Elements(taskID) + [a, INDEX])[|Elements(taskID)|] == a;
    assert (Elements(taskID) + [b, INDEX])[|Elements(taskID)|] == b;
    assert Join([MASTER], '/') == MASTER && Join([THUMBNAIL], '/') == THUMBNAIL;
    ElementsOfJoined(taskID, [MASTER]);
    ElementsOfJoined(taskID, [THUMBNAIL]);
  }

  /** Below a rooted temporary directory every playlist path is absolute; ordinary names that differ give different
      files. */
  lemma FilesDiffer(tempDir: string, taskID: string, a: string, b: string)
    ensures var dir := OutputDir(tempDir, taskID);
      Rooted(tempDir) ==> Rooted(PlaylistFile(dir, a))
    ensures var dir := OutputDir(tempDir, taskID);
      Ordinary(a) && Ordinary(b) ==> (PlaylistFile(dir, a) == PlaylistFile(dir, b) <==> a == b)
  {
    var dir, rooted := OutputDir(tempDir, taskID), Rooted(WorkDir(tempDir, taskID));
    var parent := OutputDirIs(tempDir, taskID);
    var elements := parent + [OUTPUT];
    JoinIs(dir, rooted, elements, a);
    JoinIs(VariantDir(dir, a), rooted, Walk(elements, Split(a, '/'), rooted), INDEX);
    if Rooted(tempDir) {
      WorkDirRooted(tempDir, taskID);
    }
    if Ordinary(a) && Ordinary(b) {
      PlaylistFileIs(dir, rooted, elements, a);
      PlaylistFileIs(dir, rooted, elements, b);
      WalkAppends(elements, [a], rooted);
      WalkAppends(elements, [b], rooted);
      assert (elements + [a] + [INDEX])[|elements|] == a && (elements + [b] + [INDEX])[|elements|] == b;
    }
  }

  lemma WorkDirRooted(tempDir: string, taskID: string)
    requires Rooted(tempDir)
    ensures Rooted(WorkDir(tempDir, taskID))
  {
    var all := [tempDir, "cloud-media", taskID];
    JoinFirst(all);
    CleanIs(Join(all, '/'));
    assert JoinPath(all) == Clean(Join(all, '/'));
  }

  // ----- directories in the way of files -----

  /** Making the directory `dir` makes a directory of `path`, or fails if a file is there. Both paths are clean. */
  predicate Under(path: string, dir: string) {
    dir == path || Playlist.HasPrefix(dir, path + "/")
  }

  lemma UnderExactly(path: string, dir: string, rooted: bool, elements: seq<string>, name: string, others: seq<string>)
    requires Is(path, rooted, elements + [name]) && Is(dir, rooted, others) && |others| <= |elements| + 1
    ensures Under(path, dir) <==> others == elements + [name]
  {
    if others == [] {
      if Playlist.HasPrefix(dir, path + "/") {
        SettledFree(elements + [name], rooted);
        JoinFirst(elements + [name]);
        assert false;
      }
    } else {
      RelativeIsBelow(path, dir, rooted, elements + [name], others);
    }
  }

  /** Among slash-free names exactly the name of a fixed file makes its variant's directory collide with that file. */
  lemma CollidesExactly(tempDir: string, taskID: string, file: string, name: string)
    requires (file == MASTER || file == THUMBNAIL) && Free(name, '/')
    ensures var dir := OutputDir(tempDir, taskID);
      Under(JoinPath([dir, file]), VariantDir(dir, name)) <==> name == file
  {
    OrdinaryConstants();
    var dir, rooted := OutputDir(tempDir, taskID), Rooted(WorkDir(tempDir, taskID));
    var parent := OutputDirIs(tempDir, taskID);
    var elements := parent + [OUTPUT];
    ChildIs(dir, rooted, elements, file);
    SplitFree(name, '/');
    JoinIs(dir, rooted, elements, name);
    OneStep(elements, name, rooted);
    UnderExactly(JoinPath([dir, file]), VariantDir(dir, name), rooted, elements, file, Walk(elements, [name], rooted));
    ChildElements(elements, name, file, rooted);
  }

  lemma ChildElements(elements: seq<string>, name: string, file: string, rooted: bool)
    requires Ordinary(file) && Free(name, '/')
    ensures Walk(elements, [name], rooted) == elements + [file] <==> name == file
  {
    if Ordinary(name) {
      WalkAppends(elements, [name], rooted);
      assert (elements + [name])[|elements|] == name && (elements + [file])[|elements|] == file;
    } else {
      assert [name][1..] == [];
      assert |Walk(elements, [name], rooted)| == |elements| + 1 ==> Walk(elements, [name], rooted) == elements + [".."];
      assert (elements + [".."])[|elements|] == ".." && (elements + [file])[|elements|] == file;
    }
  }

  lemma UnderIsBelow(path: string, dir: string, rooted: bool, elements: seq<string>, others: seq<string>)
    requires Is(path, rooted, elements) && Is(dir, rooted, others) && elements != []
    ensures Under(path, dir) ==> |others| >= |elements| && others[..|elements|] == elements
  {
    if Under(path, dir) && others != [] {
      RelativeIsBelow(path, dir, rooted, elements, others);
      assert dir == path ==> others == elements;
    } else if Under(path, dir) {
      SettledFree(elements, rooted);
      JoinFirst(elements);
      assert false;
    }
  }

  /** Among slash-free names a variant's directory is in the way of a file of a variant exactly when the latter
      variant has no directory of its own and the former is called like the file. */
  lemma FileCollidesExactly(tempDir: string, taskID: string, a: string, file: string, b: string)
    requires Free(a, '/') && Free(b, '/') && Ordinary(file) && file != OUTPUT
    ensures var dir := OutputDir(tempDir, taskID);
      Under(VariantFile(dir, a, file), VariantDir(dir, b)) <==> (a == "" || a == ".") && b == file
  {
    OrdinaryConstants();
    var dir, rooted := OutputDir(tempDir, taskID), Rooted(WorkDir(tempDir, taskID));
    var parent := OutputDirIs(tempDir, taskID);
    var elements := parent + [OUTPUT];
    SplitFree(b, '/');
    VariantFileIs(dir, rooted, elements, a, file);
    JoinIs(dir, rooted, elements, b);
    UnderIsBelow(VariantFile(dir, a, file), VariantDir(dir, b), rooted, Walk(elements, [a], rooted) + [file],
                 Walk(elements, [b], rooted));
    WalkOne(parent, OUTPUT, a, rooted);
    WalkOne(parent, OUTPUT, b, rooted);
    OneInTheWay(parent, OUTPUT, file, a, b, rooted);
  }

  lemma SegmentNameOrdinary(k: nat)
    ensures Ordinary(SegmentName(k)) && SegmentName(k) != OUTPUT
  {
    var s := SegmentName(k);
    assert s[0] == 's' && OUTPUT[0] == 'o';
    DigitsFree(Padded(k, 4), '/');
    assert Free("segment_", '/') && Free(".ts", '/');
  }

  /** One more element below `parent + [last]`. */
  lemma WalkOne(parent: seq<string>, last: string, name: string, rooted: bool)
    requires Ordinary(last) && Free(name, '/')
    ensures Walk(parent + [last], [name], rooted)
            == if Ordinary(name) then parent + [last] + [name] else if name == ".." then parent else parent + [last]
  {
    var stack := parent + [last];
    assert [name][1..] == [];
    assert stack[..|stack| - 1] == parent;
    if Ordinary(name) {
      WalkAppends(stack, [name], rooted);
    }
  }

  lemma OneInTheWay(parent: seq<string>, last: string, index: string, a: string, b: string, rooted: bool)
    requires Ordinary(last) && Ordinary(index) && last != index && Free(a, '/') && Free(b, '/')
    requires Walk(parent + [last], [a], rooted)
             == if Ordinary(a) then parent + [last] + [a] else if a == ".." then parent else parent + [last]
    requires Walk(parent + [last], [b], rooted)
             == if Ordinary(b) then parent + [last] + [b] else if b == ".." then parent else parent + [last]
    ensures var file, dir := Walk(parent + [last], [a], rooted) + [index], Walk(parent + [last], [b], rooted);
      (|dir| >= |file| && dir[..|file|] == file ==> (a == "" || a == ".") && b == index) &&
      ((a == "" || a == ".") && b == index ==> file == dir)
  {
    var file, dir := Walk(parent + [last], [a], rooted) + [index], Walk(parent + [last], [b], rooted);
    var n := |parent|;
    if |dir| >= |file| && dir[..|file|] == file {
      if a != ".." {
        assert !Ordinary(a);
        assert file[n + 1] == index && dir[..|file|][n + 1] == b;
      }
    }
  }

  // ----- text of directories -----

  const PERCENT := '%'

  /** Without percent signs FFmpeg takes the directory of a segment pattern or playlist literally; with them it may
      expand it. */
  predicate Literal(dir: string) {
    Free(dir, PERCENT)
  }

  lemma RenderLiteral(rooted: bool, elements: seq<string>)
    ensures Literal(Render(rooted, elements)) <==> forall i :: 0 <= i < |elements| ==> Literal(elements[i])
  {
    JoinFree(elements, '/', PERCENT);
    var path := Render(rooted, elements);
    if rooted {
      assert path == "" + "/" + Join(elements, '/');
      FreeParts("", Join(elements, '/'), '/', PERCENT);
    }
  }

  lemma AllLiteral(parent: seq<string>, last: string)
    ensures (forall i :: 0 <= i < |parent + [last]| ==> Literal((parent + [last])[i]))
            <==> Literal(last) && forall i :: 0 <= i < |parent| ==> Literal(parent[i])
  {
    assert (parent + [last])[|parent|] == last;
    assert forall i :: 0 <= i < |parent| ==> (parent + [last])[i] == parent[i];
  }

  /** A variant's directory is literal exactly when the output directory and the name are. */
  lemma LiteralExactly(tempDir: string, taskID: string, name: string)
    requires Free(name, '/')
    ensures var dir := OutputDir(tempDir, taskID); Literal(VariantDir(dir, name)) <==> Literal(dir) && Literal(name)
  {
    OrdinaryConstants();
    var dir, rooted := OutputDir(tempDir, taskID), Rooted(WorkDir(tempDir, taskID));
    var parent := OutputDirIs(tempDir, taskID);
    SplitFree(name, '/');
    JoinIs(dir, rooted, parent + [OUTPUT], name);
    WalkOne(parent, OUTPUT, name, rooted);
    RenderLiteral(rooted, parent);
    RenderLiteral(rooted, parent + [OUTPUT]);
    RenderLiteral(rooted, parent + [OUTPUT] + [name]);
    AllLiteral(parent, OUTPUT);
    AllLiteral(parent + [OUTPUT], name);
    SpecialLiteral(name);
  }

  lemma SpecialLiteral(name: string)
    ensures Literal(OUTPUT) && (name == "" || name == "." || name == ".." ==> Literal(name))
  {
  }

  // ----- references from the master playlist -----

  lemma {:induction false} BeforePrefix(s: string, c: char)
    ensures Playlist.HasPrefix(s, Before(s, c)) && Free(Before(s, c), c)
  {
    if s != "" && s[0] != c {
      BeforePrefix(s[1..], c);
      assert s[..|Before(s, c)|] == [s[0]] + s[1..][..|Before(s[1..], c)|];
    } else {
      assert s[..0] == "";
    }
  }

  lemma {:induction false} BeforeAppend(a: string, b: string, c: char)
    requires !Free(a, c)
    ensures Before(a + b, c) == Before(a, c)
  {
    assert a != "" && (a + b)[1..] == a[1..] + b;
    if a[0] != c {
      assert !Free(a[1..], c) by {
        var i :| 0 <= i < |a| && a[i] == c;
        assert a[1..][i - 1] == c;
      }
      BeforeAppend(a[1..], b, c);
    }
  }

  lemma BeforeNone(a: string, c: char)
    requires Free(a, c)
    ensures Before(a, c) == a
  {
    SplitFree(a, c);
  }

  lemma PrefixFree(s: string, p: string, c: char)
    requires Playlist.HasPrefix(s, p) && Free(s, c)
    ensures Free(p, c)
  {
    forall i | 0 <= i < |p|
      ensures p[i] != c
    {
      assert p[i] == s[..|p|][i];
    }
  }

  lemma {:induction false} DirectoryAppend(p: string, file: string)
    requires Free(file, '/') && (p == "" || p[|p| - 1] == '/')
    ensures Directory(p + file) == p
  {
    if file == "" {
      assert p + file == p;
    } else {
      var s := p + file;
      assert s[..|s| - 1] == p + file[..|file| - 1];
      DirectoryAppend(p, file[..|file| - 1]);
    }
  }

  lemma FromRoot(rooted: bool, path: string)
    requires path != "" && path[0] != '/'
    ensures Clean((if rooted then "/" else "") + path) == Render(rooted, Walk([], Split(path, '/'), rooted))
  {
    var whole := (if rooted then "/" else "") + path;
    if rooted {
      assert whole[1..] == path;
      assert Split(whole, '/') == [""] + Split(path, '/');
      assert ([""] + Split(path, '/'))[1..] == Split(path, '/');
    } else {
      assert whole == path;
    }
  }

  lemma DifferentLengths(rooted: bool, a: seq<string>, b: seq<string>)
    requires Settled(a, rooted) && Settled(b, rooted) && |a| != |b|
    ensures Render(rooted, a) != Render(rooted, b)
  {
    RenderedElements(a, rooted);
    RenderedElements(b, rooted);
  }

  /** What a relative path next to the file `name` in the directory `elements` resolves to. */
  lemma NextTo(base: string, rooted: bool, elements: seq<string>, name: string, path: string)
    requires Settled(elements, rooted) && Ordinary(name) && base == Render(rooted, elements + [name])
    requires path != "" && path[0] != '/'
    ensures Clean(Directory(base) + path) == Render(rooted, Walk(elements, Split(path, '/'), rooted))
  {
    if elements == [] {
      assert elements + [name] == [name];
      assert Join([name], '/') == name;
      DirectoryAppend(if rooted then "/" else "", name);
      FromRoot(rooted, path);
    } else {
      var dir := Render(rooted, elements);
      RenderedElements(elements, rooted);
      JoinAppend(elements, [name], '/');
      assert base == dir + "/" + name;
      DirectoryAppend(dir + "/", name);
      SettledFree(elements, rooted);
      JoinFirst(elements);
      ElementsWalk(dir, path);
    }
  }

  function MasterKey(taskID: string): string {
    JoinPath([taskID, MASTER])
  }

  lemma MasterKeyIs(taskID: string)
    ensures MasterKey(taskID) == Render(Rooted(taskID), Elements(taskID) + [MASTER])
    ensures Settled(Elements(taskID), Rooted(taskID)) && Clean(MasterKey(taskID)) == MasterKey(taskID)
  {
    OrdinaryConstants();
    PathSettled(taskID);
    assert Join([MASTER], '/') == MASTER;
    JoinedElements(taskID, [MASTER]);
    ElementsOfJoined(taskID, [MASTER]);
  }

  /** A path without slashes names nothing one directory further down. */
  lemma StaysShort(rooted: bool, elements: seq<string>, path: string, a: string, b: string)
    requires Settled(elements, rooted) && Ordinary(a) && Ordinary(b) && Free(path, '/')
    ensures Render(rooted, Walk(elements, Split(path, '/'), rooted)) != Render(rooted, elements + [a, b])
  {
    SplitFree(path, '/');
    WalkSettled(elements, [path], rooted);
    OneStep(elements, path, rooted);
    SettledAppend(elements, [a, b], rooted);
    DifferentLengths(rooted, Walk(elements, [path], rooted), elements + [a, b]);
  }

  lemma StaysOutside(taskID: string, name: string, path: string)
    requires Ordinary(name) && Free(path, '/') && path != ""
    ensures Clean(Directory(MasterKey(taskID)) + path) != VariantKey(taskID, name)
  {
    MasterKeyIs(taskID);
    OrdinaryConstants();
    NextTo(MasterKey(taskID), Rooted(taskID), Elements(taskID), MASTER, path);
    StaysShort(Rooted(taskID), Elements(taskID), path, name, INDEX);
  }

  lemma OneStep(stack: seq<string>, p: string, rooted: bool)
    ensures |Walk(stack, [p], rooted)| <= |stack| + 1
  {
    assert [p][1..] == [];
  }

  lemma CutReference(taskID: string, name: string, path: string)
    requires Ordinary(name) && Free(path, '/')
    ensures (if path == "" then Clean(MasterKey(taskID))
            else Clean(Directory(MasterKey(taskID)) + path)) != VariantKey(taskID, name)
  {
    if path == "" {
      MasterKeyIs(taskID);
      KeysDiffer(taskID, name, name);
    } else {
      StaysOutside(taskID, name, path);
    }
  }

  /** The part of the reference that is its path. */
  lemma ReferencePath(name: string)
    requires Ordinary(name)
    ensures var path := Before(Before(name + Playlist.SUFFIX, '#'), '?');
      if Free(name, '#') && Free(name, '?') then path == name + "/" + INDEX && Before(path, '/') == name
      else Free(path, '/')
  {
    var reference := name + Playlist.SUFFIX;
    assert reference == name + "/" + INDEX;
    assert Free(Playlist.SUFFIX, '#') && Free(Playlist.SUFFIX, '?');
    if !Free(name, '#') {
      BeforeAppend(name, Playlist.SUFFIX, '#');
      BeforePrefix(name, '#');
      PrefixFree(name, Before(name, '#'), '/');
      BeforePrefix(Before(name, '#'), '?');
      PrefixFree(Before(name, '#'), Before(Before(name, '#'), '?'), '/');
    } else {
      BeforeNone(reference, '#');
      if !Free(name, '?') {
        BeforeAppend(name, Playlist.SUFFIX, '?');
        BeforePrefix(name, '?');
        PrefixFree(name, Before(name, '?'), '/');
      } else {
        BeforeNone(reference, '?');
        SplitAt(name, INDEX, '/');
      }
    }
  }

  lemma BelowNextTo(base: string, rooted: bool, elements: seq<string>, file: string, a: string, b: string)
    requires Settled(elements, rooted) && Ordinary(file) && base == Render(rooted, elements + [file]) && Ordinary(a) &&
             Ordinary(b)
    ensures Clean(Directory(base) + (a + "/" + b)) == Render(rooted, elements + [a, b])
  {
    NextTo(base, rooted, elements, file, a + "/" + b);
    SplitJoin([a, b], '/');
    JoinPair(a, b, '/');
    WalkAppends(elements, [a, b], rooted);
  }

  lemma WholeReference(taskID: string, name: string)
    requires Ordinary(name)
    ensures Clean(Directory(MasterKey(taskID)) + (name + "/" + INDEX)) == VariantKey(taskID, name)
  {
    OrdinaryConstants();
    MasterKeyIs(taskID);
    BelowNextTo(MasterKey(taskID), Rooted(taskID), Elements(taskID), MASTER, name, INDEX);
  }

  /** A player resolves a variant's URI in the master playlist to the key of the variant's playlist exactly when the
      name has no character that ends the path of a reference or turns it into another scheme. */
  lemma ReferenceIsUploaded(taskID: string, name: string)
    requires Ordinary(name)
    ensures Resolve(MasterKey(taskID), name + Playlist.SUFFIX) == Some(VariantKey(taskID, name))
            <==> Free(name, '#') && Free(name, '?') && Free(name, ':')
  {
    var path := Before(Before(name + Playlist.SUFFIX, '#'), '?');
    ReferencePath(name);
    if Free(name, '#') && Free(name, '?') {
      WholeReference(taskID, name);
    } else {
      CutReference(taskID, name, path);
    }
  }
}
