/** Strings as the planner uses them: splitting and joining at a separator, and decimal numbers. */
module Text {
  datatype Option<+T> = None | Some(value: T)

  predicate Free(s: string, sep: char) {
    forall i :: 0 <= i < |s| ==> s[i] != sep
  }

  /** The pieces between separators; one more piece than there are separators. */
  function Split(s: string, sep: char): (r: seq<string>)
    ensures |r| >= 1 && forall i :: 0 <= i < |r| ==> Free(r[i], sep)
  {
    if s == "" then [""]
    else if s[0] == sep then [""] + Split(s[1..], sep)
    else var rest := Split(s[1..], sep); [[s[0]] + rest[0]] + rest[1..]
  }

  function Join(parts: seq<string>, sep: char): string {
    if parts == [] then "" else if |parts| == 1 then parts[0] else parts[0] + [sep] + Join(parts[1..], sep)
  }

  lemma JoinPair(a: string, b: string, sep: char)
    ensures Join([a, b], sep) == a + [sep] + b
  {
    assert [a, b][1..] == [b];
  }

  lemma {:induction false} SplitFree(a: string, sep: char)
    requires Free(a, sep)
    ensures Split(a, sep) == [a]
  {
    if a != "" {
      SplitFree(a[1..], sep);
      assert [a[0]] + a[1..] == a;
    }
  }

  lemma {:induction false} SplitAt(a: string, b: string, sep: char)
    requires Free(a, sep)
    ensures Split(a + [sep] + b, sep) == [a] + Split(b, sep)
  {
    var s := a + [sep] + b;
    if a == "" {
      assert s[1..] == b;
    } else {
      assert s[1..] == a[1..] + [sep] + b;
      SplitAt(a[1..], b, sep);
      assert [a[0]] + a[1..] == a;
      assert ([a[1..]] + Split(b, sep))[1..] == Split(b, sep);
    }
  }

  lemma {:induction false} SplitJoin(parts: seq<string>, sep: char)
    requires parts != [] && forall i :: 0 <= i < |parts| ==> Free(parts[i], sep)
    ensures Split(Join(parts, sep), sep) == parts
  {
    if |parts| == 1 {
      SplitFree(parts[0], sep);
    } else {
      SplitAt(parts[0], Join(parts[1..], sep), sep);
      SplitJoin(parts[1..], sep);
    }
  }

  lemma {:induction false} JoinAppend(a: seq<string>, b: seq<string>, sep: char)
    requires a != [] && b != []
    ensures Join(a + b, sep) == Join(a, sep) + [sep] + Join(b, sep)
  {
    if |a| == 1 {
      assert (a + b)[1..] == b;
    } else {
      assert (a + b)[1..] == a[1..] + b;
      JoinAppend(a[1..], b, sep);
      assert a[0] + [sep] + (Join(a[1..], sep) + [sep] + Join(b, sep))
        == (a[0] + [sep] + Join(a[1..], sep)) + [sep] + Join(b, sep);
    }
  }

  lemma FreeParts(a: string, b: string, sep: char, c: char)
    requires c != sep
    ensures Free(a + [sep] + b, c) <==> Free(a, c) && Free(b, c)
  {
    var s := a + [sep] + b;
    if Free(s, c) {
      assert forall i :: 0 <= i < |a| ==> a[i] == s[i];
      assert forall i :: 0 <= i < |b| ==> b[i] == s[|a| + 1 + i];
    }
  }

  lemma {:induction false} JoinFree(parts: seq<string>, sep: char, c: char)
    requires c != sep
    ensures Free(Join(parts, sep), c) <==> forall i :: 0 <= i < |parts| ==> Free(parts[i], c)
  {
    if |parts| > 1 {
      JoinFree(parts[1..], sep, c);
      FreeParts(parts[0], Join(parts[1..], sep), sep, c);
      assert forall i :: 1 <= i < |parts| ==> parts[i] == parts[1..][i - 1];
    }
  }

  // ----- decimal numbers -----

  predicate IsDigit(c: char) {
    '0' <= c <= '9'
  }

  predicate Digits(s: string) {
    forall i :: 0 <= i < |s| ==> IsDigit(s[i])
  }

  lemma DigitsFree(s: string, c: char)
    requires Digits(s) && !IsDigit(c)
    ensures Free(s, c)
  {
  }

  function Digit(n: nat): char
    requires n < 10
  {
    '0' + n as char
  }

  function PrintNat(n: nat): (s: string)
    ensures s != "" && Digits(s)
  {
    if n < 10 then [Digit(n)] else PrintNat(n / 10) + [Digit(n % 10)]
  }

  /** A number with leading zeros up to a width. */
  function Padded(n: nat, width: nat): (s: string)
    ensures s != "" && Digits(s)
  {
    var digits := PrintNat(n);
    seq(if |digits| < width then width - |digits| else 0, _ => '0') + digits
  }

  /** `%d`. */
  function PrintInt(n: int): string {
    if n < 0 then "-" + PrintNat(-n) else PrintNat(n)
  }

  function Value(s: string): nat
    requires Digits(s)
  {
    if s == "" then 0 else Value(s[..|s| - 1]) * 10 + (s[|s| - 1] - '0') as nat
  }

  function ParseNat(s: string): Option<nat> {
    if s != "" && Digits(s) then Some(Value(s)) else None
  }

  lemma {:induction false} ValueOfPrinted(n: nat)
    ensures Value(PrintNat(n)) == n
  {
    if n < 10 {
      assert [Digit(n)][..0] == "";
    } else {
      ValueOfPrinted(n / 10);
      var s := PrintNat(n);
      assert s[..|s| - 1] == PrintNat(n / 10);
    }
  }

  lemma ParsePrinted(n: nat)
    ensures ParseNat(PrintNat(n)) == Some(n)
  {
    ValueOfPrinted(n);
  }

  lemma {:induction false} ValueOfZeros(zeros: nat, digits: string)
    requires Digits(digits)
    ensures Digits(seq(zeros, _ => '0') + digits) && Value(seq(zeros, _ => '0') + digits) == Value(digits)
    decreases |digits|, zeros
  {
    var s := seq(zeros, _ => '0') + digits;
    if digits != "" {
      var n := |digits| - 1;
      assert s[..|s| - 1] == seq(zeros, _ => '0') + digits[..n];
      ValueOfZeros(zeros, digits[..n]);
    } else if zeros > 0 {
      assert s[..|s| - 1] == seq(zeros - 1, _ => '0') + digits;
      ValueOfZeros(zeros - 1, digits);
    }
  }

  lemma PaddedInjective(m: nat, n: nat, width: nat)
    requires Padded(m, width) == Padded(n, width)
    ensures m == n
  {
    var a, b := PrintNat(m), PrintNat(n);
    ValueOfZeros(if |a| < width then width - |a| else 0, a);
    ValueOfZeros(if |b| < width then width - |b| else 0, b);
    ValueOfPrinted(m);
    ValueOfPrinted(n);
  }

  lemma PrintInjective(m: nat, n: nat)
    requires PrintNat(m) == PrintNat(n)
    ensures m == n
  {
    ParsePrinted(m);
    ParsePrinted(n);
  }
}
