/** What keeps two tasks apart: their object keys and their working directories, for arbitrary task ids. */
module Isolation {
  import opened Text
  import opened Paths
  import opened OutputPaths

  // ----- object keys -----

  /** A file of a transcode: the master playlist or the thumbnail, or a playlist or segment of a variant. */
  datatype File = Fixed(name: string) | OfVariant(variant: string, name: string)

  ghost predicate HlsFile(name: string) {
    name == INDEX || exists k: nat :: name == SegmentName(k)
  }

  ghost predicate Stored(f: File) {
    match f
    case Fixed(name) => name == MASTER || name == THUMBNAIL
    case OfVariant(variant, name) => Ordinary(variant) && HlsFile(name)
  }

  function Names(f: File): seq<string> {
    match f
    case Fixed(name) => [name]
    case OfVariant(variant, name) => [variant, name]
  }

  function Place(outputDir: string, f: File): string {
    match f
    case Fixed(name) => JoinPath([outputDir, name])
    case OfVariant(variant, name) => VariantFile(outputDir, variant, name)
  }

  /** The key under which a worker with that temporary directory uploads a task's file. */
  function Key(tempDir: string, taskID: string, f: File): Option<string> {
    var dir := OutputDir(tempDir, taskID); UploadKey(dir, taskID, Place(dir, f))
  }

  lemma HlsFileOrdinary(name: string)
    requires HlsFile(name)
    ensures Ordinary(name) && name != MASTER && name != THUMBNAIL
  {
    OrdinaryConstants();
    assert INDEX[0] == 'i' && MASTER[0] == 'm' && THUMBNAIL[0] == 't';
    if name != INDEX {
      var k: nat :| name == SegmentName(k);
      SegmentNameOrdinary(k);
      assert name[0] == 's';
    }
  }

  lemma NamesOrdinary(f: File)
    requires Stored(f)
    ensures AllOrdinary(Names(f)) && Names(f) != []
  {
    OrdinaryConstants();
    if f.OfVariant? {
      HlsFileOrdinary(f.name);
    }
  }

  lemma PlaceIs(dir: string, rooted: bool, elements: seq<string>, f: File)
    requires Is(dir, rooted, elements) && Stored(f)
    ensures Place(dir, f) == Render(rooted, elements + Names(f))
  {
    NamesOrdinary(f);
    match f {
      case Fixed(name) =>
        assert Ordinary(Names(f)[0]);
        ChildIs(dir, rooted, elements, name);
      case OfVariant(variant, name) =>
        assert Ordinary(Names(f)[0]) && Ordinary(Names(f)[1]);
        VariantFileIs(dir, rooted, elements, variant, name);
        WalkAppends(elements, [variant], rooted);
        assert elements + [variant] + [name] == elements + Names(f);
    }
  }

  lemma KeyIs(tempDir: string, taskID: string, f: File)
    requires Stored(f)
    ensures Key(tempDir, taskID, f) == Some(Render(Rooted(taskID), Elements(taskID) + Names(f)))
    ensures Settled(Elements(taskID) + Names(f), Rooted(taskID))
  {
    var dir, rooted := OutputDir(tempDir, taskID), Rooted(WorkDir(tempDir, taskID));
    var parent := OutputDirIs(tempDir, taskID);
    PlaceIs(dir, rooted, parent + [OUTPUT], f);
    NamesOrdinary(f);
    KeyOf(dir, rooted, parent + [OUTPUT], Names(f), Place(dir, f), taskID);
    PathSettled(taskID);
    SettledAppend(Elements(taskID), Names(f), Rooted(taskID));
  }

  lemma SameCleaned(a: string, b: string)
    ensures Clean(a) == Clean(b) <==> Rooted(a) == Rooted(b) && Elements(a) == Elements(b)
  {
    CleanIs(a);
    CleanIs(b);
  }

  /** A file's place below a task tells task and file. */
  lemma NamesTell(a: seq<string>, b: seq<string>, f: File, g: File)
    requires Stored(f) && Stored(g) && a + Names(f) == b + Names(g)
    ensures a == b && f == g
  {
    var all := a + Names(f);
    assert all[|all| - 1] == f.name == g.name;
    if f.OfVariant? {
      HlsFileOrdinary(f.name);
      assert all[|all| - 2] == f.variant;
    }
    if g.OfVariant? {
      HlsFileOrdinary(g.name);
      assert (b + Names(g))[|all| - 2] == g.variant;
    }
    assert a == all[..|a|] && b == (b + Names(g))[..|b|];
  }

  /** For arbitrary task ids and workers: two stored files have the same key exactly when they are the same file and the
      ids clean to the same path. */
  lemma KeysCoincideExactly(tempA: string, a: string, f: File, tempB: string, b: string, g: File)
    requires Stored(f) && Stored(g)
    ensures Key(tempA, a, f) == Key(tempB, b, g) <==> Clean(a) == Clean(b) && f == g
  {
    KeyIs(tempA, a, f);
    KeyIs(tempB, b, g);
    RenderedElements(Elements(a) + Names(f), Rooted(a));
    RenderedElements(Elements(b) + Names(g), Rooted(b));
    SameCleaned(a, b);
    if Key(tempA, a, f) == Key(tempB, b, g) {
      NamesTell(Elements(a), Elements(b), f, g);
    }
  }

  ghost predicate KeysDisjoint(tempA: string, a: string, tempB: string, b: string) {
    forall f, g :: Stored(f) && Stored(g) ==> Key(tempA, a, f) != Key(tempB, b, g)
  }

  /** Two tasks never overwrite each other's objects exactly when their ids clean to different paths. */
  lemma TasksApartExactly(tempA: string, a: string, tempB: string, b: string)
    ensures KeysDisjoint(tempA, a, tempB, b) <==> Clean(a) != Clean(b)
  {
    forall f, g | Stored(f) && Stored(g)
      ensures Key(tempA, a, f) == Key(tempB, b, g) <==> Clean(a) == Clean(b) && f == g
    {
      KeysCoincideExactly(tempA, a, f, tempB, b, g);
    }
    assert Stored(Fixed(MASTER));
  }

  lemma OrdinaryClean(name: string)
    requires Ordinary(name)
    ensures Clean(name) == name && !Rooted(name) && Elements(name) == [name]
  {
    SplitFree(name, '/');
    WalkAppends([], [name], false);
    assert Join([name], '/') == name;
  }

  lemma SlashedElements(a: string, b: string)
    requires Free(a, '/') && a != "" && Free(b, '/')
    ensures Elements(a + "/" + b) == Walk([], [a, b], false) && !Rooted(a + "/" + b)
  {
    SplitConcat(a, b);
    SplitFree(a, '/');
    SplitFree(b, '/');
    assert [a] + [b] == [a, b];
  }

  /** Two tasks of the table that share every object: `a` and `./a`. */
  lemma DifferentIdsShareKeys(tempA: string, tempB: string, id: string, f: File)
    requires Ordinary(id) && Stored(f)
    ensures "./" + id != id && Key(tempA, "./" + id, f) == Key(tempB, id, f)
  {
    OrdinaryClean(id);
    SlashedElements(".", id);
    assert "." + "/" + id == "./" + id;
    assert [".", id][1..] == [id] && [id][1..] == [];
    assert Walk([], [".", id], false) == Walk([], [id], false) == Walk([id], [], false);
    SameCleaned("./" + id, id);
    KeysCoincideExactly(tempA, "./" + id, f, tempB, id, f);
  }

  // ----- working directories -----

  const MEDIA := "cloud-media"

  /** The id's own elements, with the leading `..` that lead out of the directory it is joined to. */
  function Relatively(taskID: string): seq<string> {
    Walk([], Split(taskID, '/'), false)
  }

  /** How many elements up. */
  function Climb(elements: seq<string>): (k: nat)
    ensures k <= |elements|
  {
    if elements != [] && elements[0] == ".." then 1 + Climb(elements[1..]) else 0
  }

  function Up(base: seq<string>, k: nat): seq<string> {
    if k <= |base| then base[..|base| - k] else []
  }

  /** The elements of the directory all working directories are meant to be in. */
  function MediaElements(tempDir: string): seq<string> {
    Elements(tempDir) + [MEDIA]
  }

  lemma SettledLast(s: seq<string>)
    requires Settled(s, false) && s != [] && s[|s| - 1] != ".."
    ensures Ordinary(s[|s| - 1])
    decreases |s|
  {
    if !AllOrdinary(s) {
      assert s[1..] != [];
      SettledLast(s[1..]);
    }
  }

  lemma StepRelatively(base: seq<string>, s: seq<string>, p: string)
    requires Settled(s, false) && Free(p, '/')
    ensures Walk(Walk(base, s, true), [p], true) == Walk(base, Walk(s, [p], false), true)
  {
    assert [p][1..] == [];
    if p == ".." && s != [] && s[|s| - 1] != ".." {
      var before, last := s[..|s| - 1], s[|s| - 1];
      SettledLast(s);
      assert s == before + [last];
      WalkConcat(base, before, [last], true);
      WalkAppends(Walk(base, before, true), [last], true);
      assert (Walk(base, before, true) + [last])[..|Walk(base, before, true)|] == Walk(base, before, true);
    } else if p != "" && p != "." {
      WalkConcat(base, s, [p], true);
    }
  }

  /** Walking down from a rooted directory may clean the path first. */
  lemma {:induction false} WalkRelatively(base: seq<string>, s: seq<string>, parts: seq<string>)
    requires Settled(s, false) && forall i :: 0 <= i < |parts| ==> Free(parts[i], '/')
    ensures Walk(Walk(base, s, true), parts, true) == Walk(base, Walk(s, parts, false), true)
    decreases |parts|
  {
    if parts != [] {
      var p, rest := parts[0], parts[1..];
      assert parts == [p] + rest;
      StepRelatively(base, s, p);
      WalkSettled(s, [p], false);
      WalkConcat(Walk(base, s, true), [p], rest, true);
      WalkConcat(s, [p], rest, false);
      WalkRelatively(base, Walk(s, [p], false), rest);
    }
  }

  lemma {:induction false} WalkClimbs(base: seq<string>, s: seq<string>)
    requires AllOrdinary(base) && Settled(s, false)
    ensures Walk(base, s, true) == Up(base, Climb(s)) + s[Climb(s)..]
    ensures AllOrdinary(s[Climb(s)..])
    decreases |s|
  {
    if AllOrdinary(s) {
      WalkAppends(base, s, true);
      assert Climb(s) == 0 && s[0..] == s;
    } else {
      var rest := s[1..];
      WalkClimbs(Up(base, 1), rest);
      assert rest[Climb(rest)..] == s[Climb(s)..];
      assert Up(Up(base, 1), Climb(rest)) == Up(base, Climb(s));
    }
  }

  lemma MediaOrdinary(tempDir: string)
    requires Rooted(tempDir)
    ensures Ordinary(MEDIA) && AllOrdinary(MediaElements(tempDir))
  {
    assert MEDIA[0] == 'c';
    PathSettled(tempDir);
  }

  lemma WorkDirIs(tempDir: string, taskID: string)
    requires Rooted(tempDir)
    ensures Is(WorkDir(tempDir, taskID), true, Walk(MediaElements(tempDir), Split(taskID, '/'), true))
  {
    var tail := MEDIA + "/" + taskID;
    MediaOrdinary(tempDir);
    JoinThree(tempDir, MEDIA, taskID);
    JoinPair(MEDIA, taskID, '/');
    JoinTwo(tempDir, tail);
    ElementsWalk(tempDir, tail);
    CleanIs(tempDir + "/" + tail);
    WalkMedia(tempDir, taskID);
  }

  lemma WalkMedia(tempDir: string, taskID: string)
    requires Rooted(tempDir)
    ensures Walk(Elements(tempDir), Split(MEDIA + "/" + taskID, '/'), true)
            == Walk(MediaElements(tempDir), Split(taskID, '/'), true)
  {
    MediaOrdinary(tempDir);
    SplitConcat(MEDIA, taskID);
    SplitFree(MEDIA, '/');
    WalkConcat(Elements(tempDir), [MEDIA], Split(taskID, '/'), true);
    WalkAppends(Elements(tempDir), [MEDIA], true);
  }

  /** Where a worker with a rooted temporary directory puts the task `taskID`, for every id. */
  lemma WorkDirElements(tempDir: string, taskID: string)
    requires Rooted(tempDir)
    ensures var s := Relatively(taskID);
      Is(WorkDir(tempDir, taskID), true, Up(MediaElements(tempDir), Climb(s)) + s[Climb(s)..])
    ensures AllOrdinary(MediaElements(tempDir)) && AllOrdinary(Relatively(taskID)[Climb(Relatively(taskID))..])
  {
    var base := MediaElements(tempDir);
    MediaOrdinary(tempDir);
    WorkDirIs(tempDir, taskID);
    WalkRelatively(base, [], Split(taskID, '/'));
    WalkSettled([], Split(taskID, '/'), false);
    WalkClimbs(base, Relatively(taskID));
  }

  /** Removing `path` removes `other`: it is the same directory or lies in it. Both paths are clean. */
  predicate Removes(path: string, other: string) {
    Rooted(path) == Rooted(other) && Elements(path) <= Elements(other)
  }

  predicate Below(path: string, other: string) {
    Removes(path, other) && Elements(path) != Elements(other)
  }

  function MediaDir(tempDir: string): string {
    JoinPath([tempDir, MEDIA])
  }

  lemma MediaDirIs(tempDir: string)
    requires Rooted(tempDir)
    ensures Is(MediaDir(tempDir), true, MediaElements(tempDir))
  {
    MediaOrdinary(tempDir);
    JoinTwo(tempDir, MEDIA);
    assert Join([MEDIA], '/') == MEDIA;
    ElementsAppend(tempDir, [MEDIA]);
    CleanIs(tempDir + "/" + MEDIA);
  }

  /** The id climbs out of the last `k` elements of `base`, all of them if there are not as many, and comes back the
      same way and further. */
  predicate ComesBack(base: seq<string>, k: nat, rest: seq<string>) {
    var n := if k <= |base| then k else |base|;
    |rest| > n && rest[..n] == base[|base| - n..]
  }

  lemma BackBelow(base: seq<string>, k: nat, rest: seq<string>)
    ensures ComesBack(base, k, rest) <==> base <= Up(base, k) + rest && base != Up(base, k) + rest
  {
    var n := if k <= |base| then k else |base|;
    var all := Up(base, k) + rest;
    assert Up(base, k) == base[..|base| - n];
    assert base == Up(base, k) + base[|base| - n..];
    if |rest| >= n {
      assert all[..|base|] == Up(base, k) + rest[..n];
      assert rest[..n] == all[..|base|][|base| - n..];
    }
  }

  /** For arbitrary ids: the working directory, which is removed after the task, lies below `cloud-media` exactly when
      the id has a name left after cleaning and any `..` before it lead out and the same way back in. */
  lemma StaysBelowExactly(tempDir: string, taskID: string)
    requires Rooted(tempDir)
    ensures Below(MediaDir(tempDir), WorkDir(tempDir, taskID)) <==>
            var s := Relatively(taskID); ComesBack(MediaElements(tempDir), Climb(s), s[Climb(s)..])
  {
    var s := Relatively(taskID);
    WorkDirElements(tempDir, taskID);
    MediaDirIs(tempDir);
    BackBelow(MediaElements(tempDir), Climb(s), s[Climb(s)..]);
  }

  lemma SlashFreeRelatively(taskID: string)
    requires Free(taskID, '/')
    ensures Relatively(taskID) == if taskID == "" || taskID == "." then [] else [taskID]
  {
    SplitFree(taskID, '/');
    assert [taskID][1..] == [] && [] + [taskID] == [taskID];
    assert Walk([], [], false) == [] && Walk([taskID], [], false) == [taskID];
  }

  /** Among slash-free ids the ordinary ones stay below; `.` is all working directories, and `..` the temporary
      directory itself. */
  lemma SlashFreeStaysBelow(tempDir: string, taskID: string)
    requires Rooted(tempDir) && Free(taskID, '/')
    ensures Below(MediaDir(tempDir), WorkDir(tempDir, taskID)) <==> Ordinary(taskID)
    ensures taskID == "." ==> WorkDir(tempDir, taskID) == MediaDir(tempDir)
    ensures taskID == ".." ==> WorkDir(tempDir, taskID) == Clean(tempDir)
  {
    var base, s := MediaElements(tempDir), Relatively(taskID);
    StaysBelowExactly(tempDir, taskID);
    SlashFreeRelatively(taskID);
    WorkDirElements(tempDir, taskID);
    MediaDirIs(tempDir);
    if taskID == ".." {
      assert [".."][1..] == [] && Climb(s) == 1;
      assert Up(base, 1) + [] == Elements(tempDir);
    } else if taskID == "." {
      assert Up(base, 0) + [] == base;
    }
  }

  /** For ids that lead out of nowhere: removing one task's directory removes another's exactly when the cleaned id of
      the one is a prefix of the other's, element by element. */
  lemma RemovesExactly(tempDir: string, a: string, b: string)
    requires Rooted(tempDir) && Climb(Relatively(a)) == Climb(Relatively(b)) == 0
    ensures Removes(WorkDir(tempDir, a), WorkDir(tempDir, b)) <==> Relatively(a) <= Relatively(b)
  {
    var base, p, q := MediaElements(tempDir), Relatively(a), Relatively(b);
    WorkDirElements(tempDir, a);
    WorkDirElements(tempDir, b);
    assert Up(base, 0) == base && p[0..] == p && q[0..] == q;
    SamePrefix(base, p, q);
  }

  lemma SamePrefix(base: seq<string>, p: seq<string>, q: seq<string>)
    ensures base + p <= base + q <==> p <= q
  {
    if |p| <= |q| {
      assert (base + q)[..|base + p|] == base + q[..|p|];
      if base + p <= base + q {
        assert p == (base + p)[|base|..] && q[..|p|] == (base + q)[..|base + p|][|base|..];
      }
    }
  }

  /** Tasks with ordinary ids, as the service generates them, share neither objects nor directories unless the ids are
      the same; the task `..` removes the directory of every other. */
  lemma OrdinaryTasksIsolated(tempDir: string, a: string, b: string)
    requires Rooted(tempDir) && Ordinary(a) && Ordinary(b)
    ensures KeysDisjoint(tempDir, a, tempDir, b) <==> a != b
    ensures Removes(WorkDir(tempDir, a), WorkDir(tempDir, b)) <==> a == b
    ensures Removes(WorkDir(tempDir, ".."), WorkDir(tempDir, b))
  {
    TasksApartExactly(tempDir, a, tempDir, b);
    OrdinaryClean(a);
    OrdinaryClean(b);
    SlashFreeRelatively(a);
    SlashFreeRelatively(b);
    RemovesExactly(tempDir, a, b);
    SlashFreeStaysBelow(tempDir, "..");
    CleanIs(tempDir);
    WorkDirElements(tempDir, b);
    assert Up(MediaElements(tempDir), 0) == Elements(tempDir) + [MEDIA];
  }
}
