/** Where FFmpeg writes the segments of an output: its expansion of file name patterns, and what that does to the
    directories of variants. */
module Segments {
  import opened Text
  import opened Paths
  import opened OutputPaths

  // ----- patterns -----

  function LeadingDigits(s: string): (n: nat)
    ensures n <= |s| && Digits(s[..n]) && (n < |s| ==> !IsDigit(s[n]))
  {
    if s != "" && IsDigit(s[0]) then 1 + LeadingDigits(s[1..]) else 0
  }

  /** The length of the placeholder that a text starts with: a percent sign, digits for a width, and `d`. */
  function Placeholder(s: string): (n: nat)
    ensures n == 0 || (2 <= n <= |s| && s[0] == '%' && Digits(s[1..n - 1]))
  {
    if s == "" || s[0] != '%' then 0
    else
      var n := LeadingDigits(s[1..]);
      assert s[1..n + 1] == s[1..][..n];
      if n + 1 < |s| && s[n + 1] == 'd' then n + 2 else 0
  }

  /** What FFmpeg makes of a pattern for segment `k`: every placeholder becomes the number, in its width; a doubled
      percent sign stays as it is, and so does any other. */
  function Expand(pattern: string, k: nat): string
    decreases |pattern|
  {
    if pattern == "" then ""
    else if |pattern| > 1 && pattern[0] == pattern[1] == '%' then "%%" + Expand(pattern[2..], k)
    else
      var n := Placeholder(pattern);
      if n > 0 then Padded(k, Value(pattern[1..n - 1])) + Expand(pattern[n..], k)
      else [pattern[0]] + Expand(pattern[1..], k)
  }

  lemma {:induction false} LeadingDigitsStop(a: string, b: string)
    requires b != "" && !IsDigit(b[0])
    ensures LeadingDigits(a + b) == LeadingDigits(a)
  {
    if a == "" {
      assert a + b == b;
    } else if IsDigit(a[0]) {
      assert (a + b)[1..] == a[1..] + b;
      LeadingDigitsStop(a[1..], b);
    }
  }

  /** No placeholder reaches across a slash. */
  lemma PlaceholderSlash(a: string, b: string)
    requires a != ""
    ensures var n := Placeholder(a + "/" + b); n == Placeholder(a)
    ensures var n := Placeholder(a); n > 0 ==>
      (a + "/" + b)[1..n - 1] == a[1..n - 1] && (a + "/" + b)[n..] == a[n..] + "/" + b
  {
    var s := a + "/" + b;
    assert s[1..] == a[1..] + ("/" + b);
    LeadingDigitsStop(a[1..], "/" + b);
  }

  lemma {:induction false} ExpandSlash(a: string, b: string, k: nat)
    ensures Expand(a + "/" + b, k) == Expand(a, k) + "/" + Expand(b, k)
    decreases |a|
  {
    var s := a + "/" + b;
    if a == "" {
      assert s == "/" + b && s[1..] == b;
      assert Expand(a, k) + "/" + Expand(b, k) == "/" + Expand(b, k);
    } else if |a| > 1 && a[0] == a[1] == '%' {
      assert s[2..] == a[2..] + "/" + b;
      ExpandSlash(a[2..], b, k);
      Regroup("%%", Expand(a[2..], k), "/", Expand(b, k));
    } else {
      var n := Placeholder(a);
      PlaceholderSlash(a, b);
      if n > 0 {
        ExpandSlash(a[n..], b, k);
        Regroup(Padded(k, Value(a[1..n - 1])), Expand(a[n..], k), "/", Expand(b, k));
      } else {
        assert s[1..] == a[1..] + "/" + b;
        ExpandSlash(a[1..], b, k);
        Regroup([a[0]], Expand(a[1..], k), "/", Expand(b, k));
      }
    }
  }

  lemma Regroup(a: string, b: string, c: string, d: string)
    ensures a + (b + c + d) == (a + b) + c + d
  {
  }

  lemma {:induction false} ExpandPrefix(a: string, b: string, k: nat)
    requires Free(a, '%')
    ensures Expand(a + b, k) == a + Expand(b, k)
  {
    if a == "" {
      assert a + b == b && "" + Expand(b, k) == Expand(b, k);
    } else {
      assert (a + b)[1..] == a[1..] + b;
      ExpandPrefix(a[1..], b, k);
      assert [a[0]] + (a[1..] + Expand(b, k)) == a + Expand(b, k);
    }
  }

  lemma ExpandLiteral(a: string, k: nat)
    requires Free(a, '%')
    ensures Expand(a, k) == a
  {
    ExpandPrefix(a, "", k);
    assert a + "" == a;
  }

  lemma WidthFour()
    ensures Placeholder("%04d.ts") == 4 && "%04d.ts"[1..3] == "04" && Value("04") == 4
  {
    assert "%04d.ts"[1..] == "04d.ts" && "04d.ts"[1..] == "4d.ts" && "4d.ts"[1..] == "d.ts";
    assert LeadingDigits("d.ts") == 0 && LeadingDigits("4d.ts") == 1 && LeadingDigits("04d.ts") == 2;
    assert "04"[..1] == "0" && "0"[..0] == "";
    assert Value("") == 0 && Value("0") == 0;
  }

  lemma ExpandNumber(before: string, pattern: string, after: string, k: nat)
    requires Free(before, '%') && Free(after, '%')
    requires Placeholder(pattern) == 4 && pattern[1..3] == "04" && Value("04") == 4 && pattern[4..] == after
    ensures Expand(before + pattern, k) == before + Padded(k, 4) + after
  {
    ExpandPrefix(before, pattern, k);
    ExpandLiteral(after, k);
    assert before + (Padded(k, 4) + after) == before + Padded(k, 4) + after;
  }

  lemma ExpandPattern(k: nat)
    ensures Expand(SEGMENTS, k) == SegmentName(k)
  {
    WidthFour();
    assert "%04d.ts"[4..] == ".ts";
    ExpandNumber("segment_", "%04d.ts", ".ts", k);
    assert SEGMENTS == "segment_" + "%04d.ts";
  }

  // ----- paths -----

  function ExpandAll(elements: seq<string>, k: nat): seq<string> {
    seq(|elements|, i requires 0 <= i < |elements| => Expand(elements[i], k))
  }

  lemma {:induction false} ExpandJoin(elements: seq<string>, k: nat)
    ensures Expand(Join(elements, '/'), k) == Join(ExpandAll(elements, k), '/')
  {
    if |elements| > 1 {
      ExpandSlash(elements[0], Join(elements[1..], '/'), k);
      ExpandJoin(elements[1..], k);
      assert ExpandAll(elements, k)[1..] == ExpandAll(elements[1..], k);
    }
  }

  lemma ExpandRender(rooted: bool, elements: seq<string>, k: nat)
    ensures Expand(Render(rooted, elements), k) == Render(rooted, ExpandAll(elements, k))
  {
    ExpandJoin(elements, k);
    ExpandLiteral(".", k);
    if rooted {
      ExpandPrefix("/", Join(elements, '/'), k);
    }
  }

  lemma {:induction false} ExpandFree(s: string, k: nat)
    requires Free(s, '/')
    ensures Free(Expand(s, k), '/') && (s != "" ==> Expand(s, k) != "")
    decreases |s|
  {
    if s != "" {
      var n := Placeholder(s);
      if |s| > 1 && s[0] == s[1] == '%' {
        ExpandFree(s[2..], k);
      } else if n > 0 {
        DigitsFree(Padded(k, Value(s[1..n - 1])), '/');
        ExpandFree(s[n..], k);
      } else {
        ExpandFree(s[1..], k);
      }
    }
  }

  /** What starts with a dot did so before. */
  lemma ExpandDot(s: string, k: nat)
    requires s != "" && Expand(s, k) != "" && Expand(s, k)[0] == '.'
    ensures s[0] == '.' && Expand(s, k) == "." + Expand(s[1..], k)
  {
  }

  lemma ExpandOrdinary(name: string, k: nat)
    requires Ordinary(name)
    ensures Ordinary(Expand(name, k))
  {
    ExpandFree(name, k);
    var e := Expand(name, k);
    if e == "." || e == ".." {
      ExpandDot(name, k);
      var rest := name[1..];
      assert name == "." + rest;
      ExpandFree(rest, k);
      assert e[1..] == Expand(rest, k);
      if rest != "" {
        ExpandDot(rest, k);
        ExpandFree(rest[1..], k);
      }
    }
  }

  lemma {:induction false} ExpandSettled(elements: seq<string>, rooted: bool, k: nat)
    requires Settled(elements, rooted)
    ensures Settled(ExpandAll(elements, k), rooted)
    decreases |elements|
  {
    if elements != [] {
      if AllOrdinary(elements) {
        forall i | 0 <= i < |elements|
          ensures Ordinary(ExpandAll(elements, k)[i])
        {
          ExpandOrdinary(elements[i], k);
        }
      } else {
        ExpandLiteral("..", k);
        ExpandSettled(elements[1..], rooted, k);
        assert ExpandAll(elements, k)[1..] == ExpandAll(elements[1..], k);
      }
    }
  }

  /** Expanding a clean path expands its elements. */
  lemma ExpandIs(path: string, rooted: bool, elements: seq<string>, k: nat)
    requires Is(path, rooted, elements)
    ensures Is(Expand(path, k), rooted, ExpandAll(elements, k))
  {
    ExpandRender(rooted, elements, k);
    ExpandSettled(elements, rooted, k);
    RenderIs(rooted, ExpandAll(elements, k));
  }

  lemma RenderIs(rooted: bool, elements: seq<string>)
    requires Settled(elements, rooted)
    ensures Is(Render(rooted, elements), rooted, elements)
  {
    RenderedElements(elements, rooted);
    SettledFree(elements, rooted);
    if elements != [] {
      JoinFirst(elements);
    }
  }

  // ----- segments -----

  /** The pattern that an output of this name gets. */
  function SegmentPattern(outputDir: string, name: string): string {
    JoinPath([VariantDir(outputDir, name), SEGMENTS])
  }

  lemma PatternOrdinary()
    ensures Ordinary(SEGMENTS)
  {
    assert SEGMENTS[0] == 's';
  }

  lemma SegmentIs(dir: string, rooted: bool, elements: seq<string>, k: nat)
    requires Is(dir, rooted, elements)
    ensures Is(Expand(JoinPath([dir, SEGMENTS]), k), rooted, ExpandAll(elements, k) + [SegmentName(k)])
  {
    PatternOrdinary();
    ChildIs(dir, rooted, elements, SEGMENTS);
    ExpandIs(JoinPath([dir, SEGMENTS]), rooted, elements + [SEGMENTS], k);
    ExpandPattern(k);
    ExpandAppend(elements, SEGMENTS, k);
  }

  lemma ExpandAppend(elements: seq<string>, last: string, k: nat)
    ensures ExpandAll(elements + [last], k) == ExpandAll(elements, k) + [Expand(last, k)]
  {
  }

  lemma SegmentBelow(dir: string, rooted: bool, elements: seq<string>, k: nat)
    requires Is(dir, rooted, elements)
    ensures Expand(JoinPath([dir, SEGMENTS]), k) == JoinPath([Expand(dir, k), SegmentName(k)])
    ensures Expand(JoinPath([dir, SEGMENTS]), k) == JoinPath([dir, SegmentName(k)]) <==> Expand(dir, k) == dir
  {
    SegmentIs(dir, rooted, elements, k);
    SegmentNameOrdinary(k);
    ExpandIs(dir, rooted, elements, k);
    ChildIs(Expand(dir, k), rooted, ExpandAll(elements, k), SegmentName(k));
    ChildIs(dir, rooted, elements, SegmentName(k));
    var a, b := ExpandAll(elements, k) + [SegmentName(k)], elements + [SegmentName(k)];
    if a == b {
      assert ExpandAll(elements, k) == a[..|elements|] && elements == b[..|elements|];
    }
  }

  /** Segment `k` of a variant is the file of its name in the variant's directory, next to its playlist, exactly when
      expanding leaves that directory as it is; that is so without percent signs. */
  lemma SegmentPlace(tempDir: string, taskID: string, name: string, k: nat)
    ensures var dir := OutputDir(tempDir, taskID); var d := VariantDir(dir, name);
      && Expand(SegmentPattern(dir, name), k) == JoinPath([Expand(d, k), SegmentName(k)])
      && (Expand(SegmentPattern(dir, name), k) == VariantFile(dir, name, SegmentName(k)) <==> Expand(d, k) == d)
      && (Literal(d) ==> Expand(d, k) == d)
  {
    var dir, rooted := OutputDir(tempDir, taskID), Rooted(WorkDir(tempDir, taskID));
    var parent := OutputDirIs(tempDir, taskID);
    var elements := parent + [OUTPUT];
    JoinIs(dir, rooted, elements, name);
    SegmentBelow(VariantDir(dir, name), rooted, Walk(elements, Split(name, '/'), rooted), k);
    if Literal(VariantDir(dir, name)) {
      ExpandLiteral(VariantDir(dir, name), k);
    }
  }

  lemma SegmentNamesDiffer(k: nat, l: nat)
    requires SegmentName(k) == SegmentName(l)
    ensures k == l
  {
    var a, b := SegmentName(k), SegmentName(l);
    assert a[8..|a| - 3] == Padded(k, 4) && b[8..|b| - 3] == Padded(l, 4);
    PaddedInjective(k, l, 4);
  }

  /** The elements of a segment of a variant with an ordinary name. */
  lemma VariantSegmentIs(dir: string, rooted: bool, elements: seq<string>, name: string, k: nat)
    requires Is(dir, rooted, elements) && Ordinary(name)
    ensures Is(Expand(SegmentPattern(dir, name), k), rooted, ExpandAll(elements, k) + [Expand(name, k), SegmentName(k)])
  {
    ChildIs(dir, rooted, elements, name);
    SegmentIs(VariantDir(dir, name), rooted, elements + [name], k);
    assert ExpandAll(elements + [name], k) + [SegmentName(k)]
        == ExpandAll(elements, k) + [Expand(name, k), SegmentName(k)];
  }

  /** Segments of two variants are one file exactly when they have the same number and the names expand to the same; so
      never without percent signs, unless variant and number are the same. */
  lemma SegmentsApartExactly(tempDir: string, taskID: string, a: string, k: nat, b: string, l: nat)
    requires Ordinary(a) && Ordinary(b)
    ensures var dir := OutputDir(tempDir, taskID);
      Expand(SegmentPattern(dir, a), k) == Expand(SegmentPattern(dir, b), l) <==> k == l && Expand(a, k) == Expand(b, l)
    ensures Literal(a) ==> Expand(a, k) == a
    ensures Literal(b) ==> Expand(b, l) == b
  {
    var dir, rooted := OutputDir(tempDir, taskID), Rooted(WorkDir(tempDir, taskID));
    var parent := OutputDirIs(tempDir, taskID);
    var elements := parent + [OUTPUT];
    VariantSegmentIs(dir, rooted, elements, a, k);
    VariantSegmentIs(dir, rooted, elements, b, l);
    if Expand(SegmentPattern(dir, a), k) == Expand(SegmentPattern(dir, b), l) {
      var p := ExpandAll(elements, k) + [Expand(a, k), SegmentName(k)];
      var q := ExpandAll(elements, l) + [Expand(b, l), SegmentName(l)];
      assert p[|elements|] == q[|elements|] && p[|elements| + 1] == q[|elements| + 1];
      SegmentNamesDiffer(k, l);
    }
    if Literal(a) {
      ExpandLiteral(a, k);
    }
    if Literal(b) {
      ExpandLiteral(b, l);
    }
  }

  /** A segment is uploaded under its name next to the key of its playlist exactly when expanding leaves its directory
      as it is. */
  lemma SegmentKeyExactly(tempDir: string, taskID: string, name: string, k: nat)
    requires Ordinary(name)
    ensures var dir := OutputDir(tempDir, taskID); var d := VariantDir(dir, name);
      (UploadKey(dir, taskID, Expand(SegmentPattern(dir, name), k))
       == Some(Render(Rooted(taskID), Elements(taskID) + [name, SegmentName(k)]))) <==> Expand(d, k) == d
    ensures VariantKey(taskID, name) == Render(Rooted(taskID), Elements(taskID) + [name, INDEX])
  {
    var dir, rooted := OutputDir(tempDir, taskID), Rooted(WorkDir(tempDir, taskID));
    var parent := OutputDirIs(tempDir, taskID);
    var elements := parent + [OUTPUT];
    SegmentNameOrdinary(k);
    ExpandOrdinary(name, k);
    VariantSegmentIs(dir, rooted, elements, name, k);
    ChildIs(dir, rooted, elements, name);
    ExpandIs(VariantDir(dir, name), rooted, elements + [name], k);
    assert ExpandAll(elements + [name], k) == ExpandAll(elements, k) + [Expand(name, k)];
    SameExpanded(elements, name, k);
    if ExpandAll(elements, k) == elements {
      KeyOf(dir, rooted, elements, [Expand(name, k), SegmentName(k)], Expand(SegmentPattern(dir, name), k), taskID);
      KeysOfNames(taskID, name, Expand(name, k), SegmentName(k));
    } else {
      var all := ExpandAll(elements, k) + [Expand(name, k), SegmentName(k)];
      assert all[..|elements|] == ExpandAll(elements, k);
      RelativeIsBelow(dir, Expand(SegmentPattern(dir, name), k), rooted, elements, all);
    }
  }

  lemma SameExpanded(elements: seq<string>, name: string, k: nat)
    ensures ExpandAll(elements, k) + [Expand(name, k)] == elements + [name]
            <==> ExpandAll(elements, k) == elements && Expand(name, k) == name
  {
    var a, b := ExpandAll(elements, k) + [Expand(name, k)], elements + [name];
    if a == b {
      assert a[..|elements|] == ExpandAll(elements, k) && b[..|elements|] == elements;
      assert a[|elements|] == b[|elements|];
    }
  }

  lemma KeysOfNames(taskID: string, a: string, b: string, file: string)
    requires Ordinary(a) && Ordinary(b) && Ordinary(file)
    ensures Render(Rooted(taskID), Elements(taskID) + [a, file]) == Render(Rooted(taskID), Elements(taskID) + [b, file])
            <==> a == b
  {
    PathSettled(taskID);
    SettledAppend(Elements(taskID), [a, file], Rooted(taskID));
    SettledAppend(Elements(taskID), [b, file], Rooted(taskID));
    RenderedElements(Elements(taskID) + [a, file], Rooted(taskID));
    RenderedElements(Elements(taskID) + [b, file], Rooted(taskID));
    assert (Elements(taskID) + [a, file])[|Elements(taskID)|] == a;
    assert (Elements(taskID) + [b, file])[|Elements(taskID)|] == b;
  }

  /** Among slash-free names a variant's directory is in the way of a segment exactly when the segment's variant has no
      directory of its own, the other is called like the segment, and the output directory does not expand to
      another. */
  lemma SegmentCollidesExactly(tempDir: string, taskID: string, a: string, k: nat, b: string)
    requires Free(a, '/') && Free(b, '/')
    ensures var dir := OutputDir(tempDir, taskID);
      Under(Expand(SegmentPattern(dir, a), k), VariantDir(dir, b))
      <==> (a == "" || a == ".") && b == SegmentName(k) && Expand(dir, k) == dir
  {
    OrdinaryConstants();
    SegmentNameOrdinary(k);
    var dir, rooted := OutputDir(tempDir, taskID), Rooted(WorkDir(tempDir, taskID));
    var parent := OutputDirIs(tempDir, taskID);
    var elements := parent + [OUTPUT];
    SplitFree(a, '/');
    SplitFree(b, '/');
    JoinIs(dir, rooted, elements, a);
    JoinIs(dir, rooted, elements, b);
    WalkOne(parent, OUTPUT, a, rooted);
    WalkOne(parent, OUTPUT, b, rooted);
    var from, others := Walk(elements, [a], rooted), Walk(elements, [b], rooted);
    SegmentIs(VariantDir(dir, a), rooted, from, k);
    ExpandIs(dir, rooted, elements, k);
    UnderIsBelow(Expand(SegmentPattern(dir, a), k), VariantDir(dir, b), rooted, ExpandAll(from, k) + [SegmentName(k)],
                 others);
    SegmentInTheWay(parent, from, others, a, b, SegmentName(k), k);
  }

  lemma SegmentInTheWay(parent: seq<string>, from: seq<string>, others: seq<string>, a: string, b: string, file: string,
                        k: nat)
    requires Ordinary(file) && file != OUTPUT
    requires from == if Ordinary(a) then parent + [OUTPUT] + [a] else if a == ".." then parent else parent + [OUTPUT]
    requires others == if Ordinary(b) then parent + [OUTPUT] + [b] else if b == ".." then parent else parent + [OUTPUT]
    requires Free(a, '/') && Free(b, '/')
    ensures var path := ExpandAll(from, k) + [file];
      && (|others| >= |path| && others[..|path|] == path ==>
            (a == "" || a == ".") && b == file && ExpandAll(parent + [OUTPUT], k) == parent + [OUTPUT])
      && ((a == "" || a == ".") && b == file && ExpandAll(parent + [OUTPUT], k) == parent + [OUTPUT] ==> path == others)
  {
    var path, n := ExpandAll(from, k) + [file], |parent|;
    if |others| >= |path| && others[..|path|] == path {
      assert path[|from|] == file == others[|from|];
      if a != ".." {
        assert path[..n + 1] == ExpandAll(from, k)[..n + 1] && others[..n + 1] == parent + [OUTPUT];
        assert others[..|path|][..n + 1] == others[..n + 1];
      }
    }
  }
}
