/** Progress reports parsed from the transcoder's log lines. */
module Progress {
  import opened Text

  // ----- the time stamp of a line -----

  /** `time=HH:MM:SS.CC` */
  predicate TimeAt(line: string, i: nat) {
    i + 16 <= |line| && line[i..i + 5] == "time=" &&
    Digits(line[i + 5..i + 7]) && line[i + 7] == ':' && Digits(line[i + 8..i + 10]) && line[i + 10] == ':' &&
    Digits(line[i + 11..i + 13]) && line[i + 13] == '.' && Digits(line[i + 14..i + 16])
  }

  /** The leftmost time stamp at or after `i`, in hundredths of a second. */
  function FindTime(line: string, i: nat): Option<nat>
    decreases |line| - i
  {
    if i + 16 > |line| then None
    else if TimeAt(line, i) then
      Some((Value(line[i + 5..i + 7]) * 3600 + Value(line[i + 8..i + 10]) * 60 + Value(line[i + 11..i + 13])) * 100
           + Value(line[i + 14..i + 16]))
    else FindTime(line, i + 1)
  }

  // ----- what a time stamp is -----

  /** A number below 100 in two digits. */
  function TwoDigits(n: nat): string
    requires n < 100
  {
    [Digit(n / 10), Digit(n % 10)]
  }

  datatype Clock = Clock(h: nat, m: nat, s: nat, c: nat)

  predicate Valid(k: Clock) {
    k.h < 100 && k.m < 100 && k.s < 100 && k.c < 100
  }

  /** A time as FFmpeg prints it. */
  function Stamp(k: Clock): string
    requires Valid(k)
  {
    "time=" + TwoDigits(k.h) + ":" + TwoDigits(k.m) + ":" + TwoDigits(k.s) + "." + TwoDigits(k.c)
  }

  function Centiseconds(k: Clock): nat {
    360000 * k.h + 6000 * k.m + 100 * k.s + k.c
  }

  ghost predicate StampAt(line: string, i: nat, k: Clock) {
    Valid(k) && i + 16 <= |line| && line[i..i + 16] == Stamp(k)
  }

  ghost predicate NoStamp(line: string, from: nat, to: nat) {
    forall i: nat, k :: from <= i < to ==> !StampAt(line, i, k)
  }

  /** The line shows the time `t`: its leftmost stamp is that of `t`. */
  ghost predicate Shows(line: string, t: nat) {
    exists i: nat, k :: StampAt(line, i, k) && NoStamp(line, 0, i) && t == Centiseconds(k)
  }

  lemma TwoDigitsValue(s: string)
    requires |s| == 2 && Digits(s)
    ensures Value(s) < 100 && s == TwoDigits(Value(s))
  {
    var a, b := (s[0] - '0') as nat, (s[1] - '0') as nat;
    assert s[..1] == [s[0]] && [s[0]][..0] == "";
    assert Value("") == 0 && Value([s[0]]) == a;
    assert Value(s) == a * 10 + b;
    assert (a * 10 + b) / 10 == a && (a * 10 + b) % 10 == b;
  }

  lemma TwoDigitsInjective(n: nat)
    requires n < 100
    ensures Digits(TwoDigits(n)) && Value(TwoDigits(n)) == n
  {
    var s := TwoDigits(n);
    assert s[..1] == [s[0]] && [s[0]][..0] == "";
    assert Value("") == 0 && Value([s[0]]) == n / 10;
  }

  lemma SliceOf(line: string, i: nat, s: string, a: nat, b: nat)
    requires i + |s| <= |line| && line[i..i + |s|] == s && a <= b <= |s|
    ensures line[i + a..i + b] == s[a..b]
    ensures a < b ==> line[i + a] == s[a]
  {
    forall j | a <= j < b
      ensures line[i + j] == s[j]
    {
      assert line[i..i + |s|][j] == line[i + j];
    }
    assert |line[i + a..i + b]| == |s[a..b]|;
    forall j | 0 <= j < b - a
      ensures line[i + a..i + b][j] == s[a..b][j]
    {
      assert line[i + (a + j)] == s[a + j];
    }
  }

  lemma StampSlices(k: Clock)
    requires Valid(k)
    ensures var s := Stamp(k);
      && |s| == 16 && s[0..5] == "time=" && s[5..7] == TwoDigits(k.h) && s[7] == ':' && s[8..10] == TwoDigits(k.m)
      && s[10] == ':' && s[11..13] == TwoDigits(k.s) && s[13] == '.' && s[14..16] == TwoDigits(k.c)
  {
    var h, m, s, c := TwoDigits(k.h), TwoDigits(k.m), TwoDigits(k.s), TwoDigits(k.c);
    assert Stamp(k) == ['t', 'i', 'm', 'e', '=', h[0], h[1], ':', m[0], m[1], ':', s[0], s[1], '.', c[0], c[1]];
    assert h == [h[0], h[1]] && m == [m[0], m[1]] && s == [s[0], s[1]] && c == [c[0], c[1]];
  }

  /** The parts of a printed time. */
  lemma StampParts(line: string, i: nat, k: Clock)
    requires StampAt(line, i, k)
    ensures TimeAt(line, i)
    ensures line[i + 5..i + 7] == TwoDigits(k.h) && line[i + 8..i + 10] == TwoDigits(k.m)
    ensures line[i + 11..i + 13] == TwoDigits(k.s) && line[i + 14..i + 16] == TwoDigits(k.c)
  {
    TwoDigitsInjective(k.h);
    TwoDigitsInjective(k.m);
    TwoDigitsInjective(k.s);
    TwoDigitsInjective(k.c);
    StampSlices(k);
    SliceOf(line, i, Stamp(k), 0, 5);
    SliceOf(line, i, Stamp(k), 5, 7);
    SliceOf(line, i, Stamp(k), 7, 8);
    SliceOf(line, i, Stamp(k), 8, 10);
    SliceOf(line, i, Stamp(k), 10, 11);
    SliceOf(line, i, Stamp(k), 11, 13);
    SliceOf(line, i, Stamp(k), 13, 14);
    SliceOf(line, i, Stamp(k), 14, 16);
  }

  /** The pattern matches exactly the printed times. */
  lemma MatchedStamp(line: string, i: nat) returns (k: Clock)
    requires TimeAt(line, i)
    ensures StampAt(line, i, k)
    ensures k == Clock(Value(line[i + 5..i + 7]), Value(line[i + 8..i + 10]), Value(line[i + 11..i + 13]),
                       Value(line[i + 14..i + 16]))
  {
    TwoDigitsValue(line[i + 5..i + 7]);
    TwoDigitsValue(line[i + 8..i + 10]);
    TwoDigitsValue(line[i + 11..i + 13]);
    TwoDigitsValue(line[i + 14..i + 16]);
    k := Clock(Value(line[i + 5..i + 7]), Value(line[i + 8..i + 10]), Value(line[i + 11..i + 13]),
      Value(line[i + 14..i + 16]));
    assert line[i..i + 16] == line[i..i + 5] + line[i + 5..i + 7] + [line[i + 7]] + line[i + 8..i + 10] +
      [line[i + 10]] + line[i + 11..i + 13] + [line[i + 13]] + line[i + 14..i + 16];
  }

  /** A line without a printed time carries none; any other carries its leftmost one. */
  lemma FindTimeExactly(line: string)
    ensures FindTime(line, 0).None? <==> NoStamp(line, 0, |line|)
    ensures FindTime(line, 0).Some? ==> Shows(line, FindTime(line, 0).value)
  {
    FindTimeFrom(line, 0);
  }

  lemma {:induction false} FindTimeFrom(line: string, i: nat)
    requires NoStamp(line, 0, i)
    ensures FindTime(line, i).None? <==> NoStamp(line, 0, |line|)
    ensures FindTime(line, i).Some? ==> Shows(line, FindTime(line, i).value)
    decreases |line| - i
  {
    if i + 16 <= |line| {
      if TimeAt(line, i) {
        var k := MatchedStamp(line, i);
        assert StampAt(line, i, k);
      } else {
        forall k
          ensures !StampAt(line, i, k)
        {
          if StampAt(line, i, k) {
            StampParts(line, i, k);
          }
        }
        FindTimeFrom(line, i + 1);
      }
    }
  }

  lemma ClocksDiffer(k: Clock, l: Clock)
    requires Valid(k) && Valid(l) && Stamp(k) == Stamp(l)
    ensures k == l
  {
    var s := Stamp(k);
    assert s[0..16] == s;
    StampParts(s, 0, k);
    StampParts(s, 0, l);
    TwoDigitsInjective(k.h);
    TwoDigitsInjective(l.h);
    TwoDigitsInjective(k.m);
    TwoDigitsInjective(l.m);
    TwoDigitsInjective(k.s);
    TwoDigitsInjective(l.s);
    TwoDigitsInjective(k.c);
    TwoDigitsInjective(l.c);
  }

  lemma LeftmostOnce(line: string, i: nat, k: Clock, j: nat, l: Clock)
    requires StampAt(line, i, k) && NoStamp(line, 0, i) && StampAt(line, j, l) && NoStamp(line, 0, j)
    ensures k == l
  {
    if i == j {
      ClocksDiffer(k, l);
    }
  }

  lemma ShownOnce(line: string, t: nat, u: nat)
    requires Shows(line, t) && Shows(line, u)
    ensures t == u
  {
    var i: nat, k :| StampAt(line, i, k) && NoStamp(line, 0, i) && t == Centiseconds(k);
    var j: nat, l :| StampAt(line, j, l) && NoStamp(line, 0, j) && u == Centiseconds(l);
    LeftmostOnce(line, i, k, j, l);
  }

  /** A printed time reads back from every line, after any text without a time and before any text. */
  lemma StampReadsBack(before: string, k: Clock, after: string)
    requires Valid(k) && NoStamp(before, 0, |before|)
    ensures FindTime(before + Stamp(k) + after, 0) == Some(Centiseconds(k))
  {
    var line, n := before + Stamp(k) + after, |before|;
    assert line[n..n + 16] == Stamp(k);
    assert StampAt(line, n, k) && line[n] == line[n..n + 16][0];
    forall i: nat, l | i < n
      ensures !StampAt(line, i, l)
    {
      if StampAt(line, i, l) {
        if i + 16 <= n {
          assert line[i..i + 16] == before[i..i + 16];
          assert StampAt(before, i, l);
        } else {
          assert line[i..i + 16][n - i] == line[n] == 't';
          StampTail(l);
          assert false;
        }
      }
    }
    FindTimeExactly(line);
    ShownOnce(line, Centiseconds(k), FindTime(line, 0).value);
  }

  /** Only the first character of a printed time is a `t`. */
  lemma StampTail(k: Clock)
    requires Valid(k)
    ensures |Stamp(k)| == 16 && Stamp(k)[0] == 't' && forall i :: 1 <= i < 16 ==> Stamp(k)[i] != 't'
  {
    TwoDigitsInjective(k.h);
    TwoDigitsInjective(k.m);
    TwoDigitsInjective(k.s);
    TwoDigitsInjective(k.c);
  }

  // ----- specification -----

  /** The full hundredths of the duration that have passed, 100 from the full duration on. */
  ghost predicate PercentOf(p: int, centiseconds: nat, duration: real) {
    var time := centiseconds as real / 100.0;
    && 0 <= p <= 100 && p as real * duration <= 100.0 * time
    && (p < 100 ==> 100.0 * time < (p + 1) as real * duration)
  }

  method Progress(centiseconds: nat, duration: real) returns (progress: int)
    requires duration > 0.0
    ensures PercentOf(progress, centiseconds, duration)
    ensures progress == 100 <==> centiseconds as real / 100.0 >= duration
  {
    progress := (centiseconds as real / 100.0 / duration * 100.0).Floor;
    Bounds(centiseconds as real / 100.0, duration, centiseconds as real / 100.0 / duration * 100.0, progress);
    Bounds(centiseconds as real / 100.0, duration, centiseconds as real / 100.0 / duration * 100.0, 100);
    if progress > 100 {
      progress := 100;
    }
  }

  /** The hundredths determine the percentage. */
  lemma PercentUnique(p: int, q: int, centiseconds: nat, duration: real)
    requires duration > 0.0 && PercentOf(p, centiseconds, duration) && PercentOf(q, centiseconds, duration)
    ensures p == q
  {
    var time := centiseconds as real / 100.0;
    if p < 100 {
      NotAbove(p, q, 100.0 * time, duration);
    }
    if q < 100 {
      NotAbove(q, p, 100.0 * time, duration);
    }
  }

  lemma NotAbove(p: int, q: int, x: real, duration: real)
    requires duration > 0.0 && q as real * duration <= x < (p + 1) as real * duration
    ensures q <= p
  {
    Scale((p + 1) as real, q as real, duration);
    assert !((p + 1) as real <= q as real);
  }

  lemma Bounds(time: real, duration: real, ratio: real, p: int)
    requires duration > 0.0 && ratio == time / duration * 100.0
    ensures p as real <= ratio <==> p as real * duration <= 100.0 * time
    ensures ratio < (p + 1) as real <==> 100.0 * time < (p + 1) as real * duration
  {
    assert ratio * duration == 100.0 * time;
    Scale(p as real, ratio, duration);
    Scale((p + 1) as real, ratio, duration);
  }

  lemma Scale(a: real, b: real, duration: real)
    requires duration > 0.0
    ensures a <= b <==> a * duration <= b * duration
  {
    if a > b {
      assert (a - b) * duration > 0.0;
    } else {
      assert (b - a) * duration >= 0.0;
    }
  }

  /** The percentage of the time that a line shows. */
  ghost predicate Means(line: string, duration: real, value: int) {
    exists t :: Shows(line, t) && PercentOf(value, t, duration)
  }

  lemma MeansOne(line: string, duration: real, p: int, q: int)
    requires duration > 0.0 && Means(line, duration, p) && Means(line, duration, q)
    ensures p == q
  {
    var t :| Shows(line, t) && PercentOf(p, t, duration);
    var u :| Shows(line, u) && PercentOf(q, u, duration);
    ShownOnce(line, t, u);
    PercentUnique(p, q, t, duration);
  }

  /** `values` are the percentages that the lines mean: one for each line that shows a time, in order. */
  ghost predicate Meant(lines: seq<string>, duration: real, values: seq<int>) {
    if lines == [] then values == []
    else
      var n, last := |lines| - 1, lines[|lines| - 1];
      if NoStamp(last, 0, |last|) then Meant(lines[..n], duration, values)
      else
        && values != [] && Meant(lines[..n], duration, values[..|values| - 1])
        && Means(last, duration, values[|values| - 1])
  }

  lemma MeantStep(lines: seq<string>, duration: real, values: seq<int>, i: nat, value: int)
    requires i < |lines| && Meant(lines[..i], duration, values)
    requires var time := FindTime(lines[i], 0); time.Some? ==> PercentOf(value, time.value, duration)
    ensures var time := FindTime(lines[i], 0);
      Meant(lines[..i + 1], duration, if time.Some? then values + [value] else values)
  {
    assert lines[..i + 1][..i] == lines[..i];
    FindTimeExactly(lines[i]);
    assert (values + [value])[..|values|] == values;
  }

  /** The lines determine what they mean. */
  lemma {:induction false} MeantUnique(lines: seq<string>, duration: real, a: seq<int>, b: seq<int>)
    requires duration > 0.0 && Meant(lines, duration, a) && Meant(lines, duration, b)
    ensures a == b
    decreases |lines|
  {
    if lines != [] {
      var n, last := |lines| - 1, lines[|lines| - 1];
      if NoStamp(last, 0, |last|) {
        MeantUnique(lines[..n], duration, a, b);
      } else {
        MeantUnique(lines[..n], duration, a[..|a| - 1], b[..|b| - 1]);
        MeansOne(last, duration, a[|a| - 1], b[|b| - 1]);
        assert a == a[..|a| - 1] + [a[|a| - 1]] && b == b[..|b| - 1] + [b[|b| - 1]];
      }
    }
  }

  lemma {:induction false} MeantRange(lines: seq<string>, duration: real, values: seq<int>)
    requires Meant(lines, duration, values)
    ensures forall i :: 0 <= i < |values| ==> 0 <= values[i] <= 100
    decreases |lines|
  {
    if lines != [] {
      var n, last := |lines| - 1, lines[|lines| - 1];
      if NoStamp(last, 0, |last|) {
        MeantRange(lines[..n], duration, values);
      } else {
        MeantRange(lines[..n], duration, values[..|values| - 1]);
      }
    }
  }

  /** The largest value so far, not below 0. */
  function RunningMax(values: seq<int>): int {
    if values == [] then 0
    else
      var m := RunningMax(values[..|values| - 1]);
      if values[|values| - 1] > m then values[|values| - 1] else m
  }

  ghost predicate Increasing(s: seq<int>) {
    forall i, j :: 0 <= i < j < |s| ==> s[i] < s[j]
  }

  /** `reports` lists each running maximum once. With the order this determines the reports. */
  ghost predicate ReportsMaxima(reports: seq<int>, values: seq<int>) {
    && Increasing(reports)
    && (forall v :: v in reports <==> IsMaximum(values, v))
  }

  /** `v` is the largest of some first values. */
  ghost predicate IsMaximum(values: seq<int>, v: int) {
    exists k :: 1 <= k <= |values| && v == RunningMax(values[..k])
  }

  /** The reports tell each new maximum of the percentages that the lines mean, and end at the last. */
  ghost predicate Reports(lines: seq<string>, duration: real, reports: seq<int>) {
    exists values ::
      && Meant(lines, duration, values) && ReportsMaxima(reports, values)
      && (reports == [] <==> values == []) && (reports != [] ==> reports[|reports| - 1] == RunningMax(values))
  }

  /** `last` is the last report, -1 before the first. */
  ghost predicate Reported(reports: seq<int>, values: seq<int>, last: int) {
    ReportsMaxima(reports, values) &&
    if values == [] then reports == [] && last == -1
    else reports != [] && reports[|reports| - 1] == last == RunningMax(values)
  }

  method Parse(lines: seq<string>, duration: real, hasCallback: bool) returns (reports: seq<int>)
    ensures duration <= 0.0 || !hasCallback ==> reports == []
    ensures duration > 0.0 && hasCallback ==> Reports(lines, duration, reports)
  {
    reports := [];
    var maxProgress := 0;
    var lastReported := -1;
    ghost var values: seq<int> := [];
    for i := 0 to |lines|
      invariant duration > 0.0 ==> Meant(lines[..i], duration, values) && 0 <= maxProgress == RunningMax(values)
      invariant duration <= 0.0 || !hasCallback ==> reports == []
      invariant duration > 0.0 && hasCallback ==> Reported(reports, values, lastReported)
    {
      var time := FindTime(lines[i], 0);
      if duration > 0.0 && time.None? {
        MeantStep(lines, duration, values, i, 0);
      }
      if time.Some? && duration > 0.0 {
        var progress := Progress(time.value, duration);
        MeantStep(lines, duration, values, i, progress);
        MaximumStep(values, progress);
        if hasCallback {
          ReportedStep(reports, values, lastReported, progress);
        }
        values := values + [progress];
        if progress > maxProgress {
          maxProgress := progress;
        }
        if hasCallback && maxProgress != lastReported {
          lastReported := maxProgress;
          reports := reports + [maxProgress];
        }
      }
    }
    assert lines[..|lines|] == lines;
  }

  lemma MaximumStep(values: seq<int>, value: int)
    ensures RunningMax(values + [value]) == if value > RunningMax(values) then value else RunningMax(values)
  {
    assert (values + [value])[..|values|] == values;
  }

  lemma ReportedStep(reports: seq<int>, values: seq<int>, last: int, value: int)
    requires Reported(reports, values, last) && RunningMax(values) >= 0
    ensures var m := RunningMax(values + [value]);
      Reported(if m != last then reports + [m] else reports, values + [value], m)
  {
    var m := RunningMax(values + [value]);
    MaximumStep(values, value);
    MaximaGrow(reports, values, value, if m != last then reports + [m] else reports);
  }

  lemma MaximaGrow(reported: seq<int>, before: seq<int>, value: int, reports: seq<int>)
    requires ReportsMaxima(reported, before) &&
             (before != [] ==> reported != [] && reported[|reported| - 1] == RunningMax(before))
    requires before == [] ==> reported == []
    requires var m := RunningMax(before + [value]);
      reports == if before != [] && m == RunningMax(before) then reported else reported + [m]
    requires RunningMax(before) >= 0
    ensures ReportsMaxima(reports, before + [value])
  {
    var values := before + [value];
    assert values[..|before|] == before && values[..|values|] == values;
    assert forall k :: 1 <= k <= |before| ==> values[..k] == before[..k];
    forall v
      ensures v in reports <==> IsMaximum(values, v)
    {
      if v in reported {
        var k :| 1 <= k <= |before| && v == RunningMax(before[..k]);
        assert v == RunningMax(values[..k]);
      }
      if v == RunningMax(values) {
        assert v == RunningMax(values[..|values|]);
        assert before != [] ==> RunningMax(before) in reported;
      }
      if k :| 1 <= k <= |values| && v == RunningMax(values[..k]) {
        if k <= |before| {
          assert v == RunningMax(before[..k]);
        }
      }
    }
    assert RunningMax(values) >= RunningMax(before);
  }

  // ----- consequences -----

  lemma {:induction false} RunningMaxRange(values: seq<int>)
    requires forall i :: 0 <= i < |values| ==> 0 <= values[i] <= 100
    ensures 0 <= RunningMax(values) <= 100
    ensures forall i :: 0 <= i < |values| ==> values[i] <= RunningMax(values)
  {
    if values != [] {
      RunningMaxRange(values[..|values| - 1]);
    }
  }

  lemma {:induction false} IncreasingLength(s: seq<int>, low: int, high: int)
    requires Increasing(s) && forall i :: 0 <= i < |s| ==> low <= s[i] <= high
    requires low <= high + 1
    ensures |s| <= high - low + 1
    decreases |s|
  {
    if s != [] {
      IncreasingLength(s[1..], s[0] + 1, high);
    }
  }

  /** The progress shown for the whole transcode: thumbnail first, then ninety percent for the variants. */
  function Mapped(p: int): int {
    10 + p * 90 / 100
  }

  /** Reports strictly increase, lie in 0..100, number at most 101, and map to non-decreasing progress in 10..100. */
  lemma ReportsAreSane(lines: seq<string>, duration: real, reports: seq<int>)
    requires duration > 0.0 && Reports(lines, duration, reports)
    ensures |reports| <= 101 && Increasing(reports)
    ensures forall i :: 0 <= i < |reports| ==> 0 <= reports[i] <= 100 && 10 <= Mapped(reports[i]) <= 100
    ensures forall i :: 0 <= i < |reports| ==>
      100 * (Mapped(reports[i]) - 10) <= 90 * reports[i] < 100 * (Mapped(reports[i]) - 9)
    ensures forall i, j :: 0 <= i < j < |reports| ==> Mapped(reports[i]) <= Mapped(reports[j])
  {
    var values :| Meant(lines, duration, values) && ReportsMaxima(reports, values);
    MeantRange(lines, duration, values);
    forall i | 0 <= i < |reports|
      ensures 0 <= reports[i] <= 100
    {
      assert reports[i] in reports;
      var k :| 1 <= k <= |values| && reports[i] == RunningMax(values[..k]);
      RunningMaxRange(values[..k]);
    }
    IncreasingLength(reports, 0, 100);
  }

  lemma HeadInside(s: seq<int>)
    ensures s == [] || s[0] in s
  {
  }

  /** The reports are determined by the lines. */
  lemma {:induction false} MaximaUnique(a: seq<int>, b: seq<int>)
    requires Increasing(a) && Increasing(b) && forall v :: v in a <==> v in b
    ensures a == b
    decreases |a|
  {
    HeadInside(a);
    HeadInside(b);
    if a != [] && b != [] {
      var m, n := |a| - 1, |b| - 1;
      assert a[m] in b && b[n] in a;
      assert a[m] == b[n];
      assert forall v :: v in a[..m] ==> v in a && v != a[m];
      assert forall v :: v in b[..n] ==> v in b && v != b[n];
      forall v
        ensures v in a[..m] <==> v in b[..n]
      {
        assert v in a && v != a[m] ==> v in a[..m];
        assert v in b && v != b[n] ==> v in b[..n];
      }
      MaximaUnique(a[..m], b[..n]);
    }
  }

  /** So the lines determine the reports. */
  lemma ReportsUnique(lines: seq<string>, duration: real, a: seq<int>, b: seq<int>)
    requires duration > 0.0 && Reports(lines, duration, a) && Reports(lines, duration, b)
    ensures a == b
  {
    var u :| Meant(lines, duration, u) && ReportsMaxima(a, u);
    var v :| Meant(lines, duration, v) && ReportsMaxima(b, v);
    MeantUnique(lines, duration, u, v);
    MaximaUnique(a, b);
  }
}
