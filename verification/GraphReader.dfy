/** Reading a filtergraph back from its text, as FFmpeg does: chains between semicolons, filters between commas, pads in
    brackets. */
module GraphReader {
  import opened Text
  import opened Filtergraph

  // ----- reader -----

  /** The text before and after the first separator. */
  function Cut(s: string, sep: char): Option<(string, string)> {
    if s == "" then None
    else if s[0] == sep then Some(("", s[1..]))
    else
      match Cut(s[1..], sep)
      case None => None
      case Some((a, b)) => Some(([s[0]] + a, b))
  }

  function ReadFilter(s: string): Option<Filter> {
    match Cut(s, '=')
    case None => None
    case Some((name, value)) =>
      if name == "scale" then
        var parts := Split(value, ':');
        if |parts| != 3 || parts[2] != "flags=lanczos" then None
        else
          match (ParseNat(parts[0]), ParseNat(parts[1]))
          case (Some(w), Some(h)) => Some(Scale(w, h))
          case _ => None
      else if name == "setsar" then if value == "1:1" then Some(SetSar) else None
      else
        match ParseNat(value)
        case None => None
        case Some(n) => if name == "transpose" then Some(Transpose(n)) else if name == "split" then Some(SplitInto(n))
          else None
  }

  function ReadFilters(texts: seq<string>): Option<seq<Filter>> {
    if texts == [] then Some([])
    else
      match (ReadFilter(texts[0]), ReadFilters(texts[1..]))
      case (Some(f), Some(rest)) => Some([f] + rest)
      case _ => None
  }

  lemma {:induction false} CutShorter(s: string, sep: char)
    ensures Cut(s, sep).Some? ==> |Cut(s, sep).value.0| + |Cut(s, sep).value.1| + 1 == |s|
  {
    if s != "" && s[0] != sep {
      CutShorter(s[1..], sep);
    }
  }

  /** Bracketed pads at the start of a text, and the rest of it. */
  function ReadPads(s: string): Option<(seq<string>, string)>
    decreases |s|
  {
    if s == "" || s[0] != '[' then Some(([], s))
    else
      match Cut(s[1..], ']')
      case None => None
      case Some((pad, tail)) =>
        CutShorter(s[1..], ']');
        match ReadPads(tail)
        case None => None
        case Some((pads, rest)) => Some(([pad] + pads, rest))
  }

  function ReadChain(s: string): Option<Chain> {
    match ReadPads(s)
    case None => None
    case Some((inputs, rest)) =>
      match Cut(rest, '[')
      case None => None
      case Some((body, _)) =>
        CutPrefix(rest, '[');
        match (ReadFilters(Split(body, ',')), ReadPads(rest[|body|..]))
        case (Some(filters), Some((outputs, end))) => if end == "" then Some(Chain(inputs, filters, outputs)) else None
        case _ => None
  }

  lemma {:induction false} CutPrefix(s: string, sep: char)
    ensures Cut(s, sep).Some? ==> |Cut(s, sep).value.0| < |s|
  {
    CutShorter(s, sep);
  }

  function ReadChains(texts: seq<string>): Option<seq<Chain>> {
    if texts == [] then Some([])
    else
      match (ReadChain(texts[0]), ReadChains(texts[1..]))
      case (Some(c), Some(rest)) => Some([c] + rest)
      case _ => None
  }

  function ReadGraph(s: string): Option<seq<Chain>> {
    ReadChains(Split(s, ';'))
  }

  // ----- reading what was printed -----

  /** Characters that cannot occur in a pad. */
  predicate PlainPad(pad: string) {
    Free(pad, '[') && Free(pad, ']') && Free(pad, ';')
  }

  predicate PlainFilter(f: Filter) {
    f.Scale? ==> f.w >= 0 && f.h >= 0
  }

  predicate PlainChain(c: Chain) {
    c.filters != [] && c.outputs != []
    && (forall i :: 0 <= i < |c.inputs| ==> PlainPad(c.inputs[i]))
    && (forall i :: 0 <= i < |c.outputs| ==> PlainPad(c.outputs[i]))
    && (forall i :: 0 <= i < |c.filters| ==> PlainFilter(c.filters[i]))
  }

  lemma {:induction false} CutAt(a: string, b: string, sep: char)
    requires Free(a, sep)
    ensures Cut(a + [sep] + b, sep) == Some((a, b))
  {
    var s := a + [sep] + b;
    if a == "" {
      assert s[1..] == b;
    } else {
      assert s[1..] == a[1..] + [sep] + b;
      CutAt(a[1..], b, sep);
      assert [a[0]] + a[1..] == a;
    }
  }

  lemma ReadNumber(name: string, text: string, n: nat)
    requires text == name + "=" + PrintNat(n) && Free(name, '=')
    ensures Cut(text, '=') == Some((name, PrintNat(n))) && ParseNat(PrintNat(n)) == Some(n)
  {
    CutAt(name, PrintNat(n), '=');
    ParsePrinted(n);
  }

  lemma SplitThree(a: string, b: string, c: string, sep: char)
    requires Free(a, sep) && Free(b, sep) && Free(c, sep)
    ensures Split(a + [sep] + (b + [sep] + c), sep) == [a, b, c]
  {
    SplitAt(a, b + [sep] + c, sep);
    SplitAt(b, c, sep);
    SplitFree(c, sep);
  }

  const FLAGS := "flags=lanczos"

  lemma ScaleText(w: string, h: string)
    ensures "scale=" + w + ":" + h + ":flags=lanczos" == "scale" + "=" + (w + ":" + (h + ":" + FLAGS))
  {
    assert "scale=" == "scale" + "=" && ":flags=lanczos" == ":" + FLAGS;
  }

  lemma ReadScale(w: nat, h: nat)
    ensures ReadFilter(FilterText(Scale(w, h))) == Some(Scale(w, h))
  {
    ScaleText(PrintNat(w), PrintNat(h));
    CutAt("scale", PrintNat(w) + ":" + (PrintNat(h) + ":" + FLAGS), '=');
    DigitsFree(PrintNat(w), ':');
    DigitsFree(PrintNat(h), ':');
    SplitThree(PrintNat(w), PrintNat(h), FLAGS, ':');
    ParsePrinted(w);
    ParsePrinted(h);
  }

  lemma Names()
    ensures "scale" != "setsar" && "transpose" !in {"scale", "setsar"} && "split" !in {"scale", "setsar", "transpose"}
  {
    assert "scale"[1] == 'c' && "setsar"[1] == 'e' && "transpose"[1] == 'r' && "split"[1] == 'p';
  }

  lemma ReadOther(f: Filter)
    requires !f.Scale?
    ensures ReadFilter(FilterText(f)) == Some(f)
  {
    Names();
    match f
    case Transpose(d) =>
      assert "transpose=" == "transpose" + "=";
      ReadNumber("transpose", FilterText(f), d);
    case SplitInto(n) =>
      assert "split=" == "split" + "=";
      ReadNumber("split", FilterText(f), n);
    case SetSar =>
      assert "setsar=1:1" == "setsar" + "=" + "1:1";
      CutAt("setsar", "1:1", '=');
  }

  lemma NumberFree(before: string, n: nat, c: char)
    requires Free(before, c) && !IsDigit(c)
    ensures Free(before + PrintNat(n), c)
  {
    DigitsFree(PrintNat(n), c);
  }

  lemma FreeConcat(a: string, b: string, c: char)
    requires Free(a, c) && Free(b, c)
    ensures Free(a + b, c)
  {
  }

  lemma FilterTextFree(f: Filter, c: char)
    requires PlainFilter(f) && c in {',', ';', '['}
    ensures Free(FilterText(f), c) && FilterText(f) != ""
  {
    match f
    case Transpose(d) => NumberFree("transpose=", d, c);
    case SplitInto(n) => NumberFree("split=", n, c);
    case Scale(w, h) =>
      NumberFree("scale=", w, c);
      FreeConcat("scale=" + PrintNat(w), ":", c);
      NumberFree("scale=" + PrintNat(w) + ":", h, c);
      FreeConcat("scale=" + PrintNat(w) + ":" + PrintNat(h), ":flags=lanczos", c);
    case SetSar =>
  }

  lemma ReadOneFilter(f: Filter)
    requires PlainFilter(f)
    ensures ReadFilter(FilterText(f)) == Some(f)
  {
    if f.Scale? {
      ReadScale(f.w, f.h);
    } else {
      ReadOther(f);
    }
  }

  lemma ReadNextFilter(texts: seq<string>, filters: seq<Filter>)
    requires texts != [] && filters != [] && ReadFilter(texts[0]) == Some(filters[0]) &&
             ReadFilters(texts[1..]) == Some(filters[1..])
    ensures ReadFilters(texts) == Some(filters)
  {
    assert [filters[0]] + filters[1..] == filters;
  }

  lemma {:induction false} ReadAllFilters(filters: seq<Filter>)
    requires forall i :: 0 <= i < |filters| ==> PlainFilter(filters[i])
    ensures ReadFilters(Texts(filters)) == Some(filters)
  {
    if filters != [] {
      ReadOneFilter(filters[0]);
      ReadAllFilters(filters[1..]);
      assert Texts(filters)[1..] == Texts(filters[1..]);
      ReadNextFilter(Texts(filters), filters);
    }
  }

  lemma Regroup(a: string, b: string, c: string, d: string, e: string)
    ensures (a + (b + c + d)) + e == a + (b + c + (d + e))
  {
  }

  lemma {:induction false} BracketedFirst(pads: seq<string>)
    requires pads != []
    ensures Bracketed(pads) == "[" + (pads[0] + "]" + Bracketed(pads[1..]))
  {
    var n := |pads| - 1;
    if n == 0 {
      assert Bracketed(pads[..n]) == "" && Bracketed(pads[1..]) == "";
      assert pads[n] + "]" + "" == pads[n] + "]";
    } else {
      BracketedFirst(pads[..n]);
      assert pads[..n][1..] == pads[1..][..n - 1];
      var last := "[" + pads[n] + "]";
      assert Bracketed(pads[1..]) == Bracketed(pads[1..][..n - 1]) + last;
      Regroup("[", pads[0], "]", Bracketed(pads[1..][..n - 1]), last);
    }
  }

  lemma ReadOnePad(pad: string, rest: string, pads: seq<string>, tail: string)
    requires PlainPad(pad) && ReadPads(rest) == Some((pads, tail))
    ensures ReadPads("[" + (pad + "]" + rest)) == Some(([pad] + pads, tail))
  {
    var s := "[" + (pad + "]" + rest);
    assert s[0] == '[' && s[1..] == pad + "]" + rest;
    CutAt(pad, rest, ']');
  }

  lemma {:induction false} ReadAllPads(pads: seq<string>, tail: string)
    requires forall i :: 0 <= i < |pads| ==> PlainPad(pads[i])
    requires tail == "" || tail[0] != '['
    ensures ReadPads(Bracketed(pads) + tail) == Some((pads, tail))
    decreases |pads|
  {
    if pads == [] {
      assert Bracketed(pads) + tail == tail;
    } else {
      BracketedFirst(pads);
      Regroup("[", pads[0], "]", Bracketed(pads[1..]), tail);
      ReadAllPads(pads[1..], tail);
      ReadOnePad(pads[0], Bracketed(pads[1..]) + tail, pads[1..], tail);
      assert [pads[0]] + pads[1..] == pads;
    }
  }

  lemma {:induction false} BracketedFree(pads: seq<string>)
    requires forall i :: 0 <= i < |pads| ==> PlainPad(pads[i])
    ensures Free(Bracketed(pads), ';')
  {
    if pads != [] {
      BracketedFree(pads[..|pads| - 1]);
    }
  }

  lemma BodyText(filters: seq<Filter>)
    requires filters != [] && forall i :: 0 <= i < |filters| ==> PlainFilter(filters[i])
    ensures var body := Join(Texts(filters), ',');
      Free(body, '[') && Free(body, ';') && body != "" && Split(body, ',') == Texts(filters)
  {
    var texts := Texts(filters);
    forall i | 0 <= i < |texts|
      ensures Free(texts[i], ',') && Free(texts[i], ';') && Free(texts[i], '[') && texts[i] != ""
    {
      FilterTextFree(filters[i], ',');
      FilterTextFree(filters[i], ';');
      FilterTextFree(filters[i], '[');
    }
    JoinFree(texts, ',', '[');
    JoinFree(texts, ',', ';');
    SplitJoin(texts, ',');
  }

  lemma ReadOneChain(c: Chain)
    requires PlainChain(c)
    ensures ReadChain(ChainText(c)) == Some(c) && Free(ChainText(c), ';')
  {
    var body, outs := Join(Texts(c.filters), ','), Bracketed(c.outputs);
    BodyText(c.filters);
    ReadAllFilters(c.filters);
    BracketedFirst(c.outputs);
    ReadRest(body, outs, outs[1..]);
    ReadAllPads(c.inputs, body + outs);
    assert Bracketed(c.inputs) + body + outs == Bracketed(c.inputs) + (body + outs);
    ReadAllPads(c.outputs, "");
    assert outs + "" == outs;
    BracketedFree(c.inputs);
    BracketedFree(c.outputs);
  }

  lemma ReadRest(body: string, outs: string, rest: string)
    requires Free(body, '[') && body != "" && outs == "[" + rest
    ensures Cut(body + outs, '[') == Some((body, rest)) && (body + outs)[|body|..] == outs && (body + outs)[0] != '['
  {
    CutAt(body, rest, '[');
    assert body + "[" + rest == body + outs;
  }

  lemma ReadNextChain(texts: seq<string>, chains: seq<Chain>)
    requires texts != [] && chains != [] && ReadChain(texts[0]) == Some(chains[0]) &&
             ReadChains(texts[1..]) == Some(chains[1..])
    ensures ReadChains(texts) == Some(chains)
  {
    assert [chains[0]] + chains[1..] == chains;
  }

  lemma {:induction false} ReadAllChains(chains: seq<Chain>)
    requires forall i :: 0 <= i < |chains| ==> PlainChain(chains[i])
    ensures ReadChains(ChainTexts(chains)) == Some(chains)
  {
    if chains != [] {
      ReadOneChain(chains[0]);
      ReadAllChains(chains[1..]);
      assert ChainTexts(chains)[1..] == ChainTexts(chains[1..]);
      ReadNextChain(ChainTexts(chains), chains);
    }
  }

  /** Reading the text of a graph gives the graph back. */
  lemma GraphReadsBack(chains: seq<Chain>)
    requires chains != [] && forall i :: 0 <= i < |chains| ==> PlainChain(chains[i])
    ensures ReadGraph(GraphText(chains)) == Some(chains)
  {
    forall i | 0 <= i < |chains|
      ensures Free(ChainTexts(chains)[i], ';')
    {
      ReadOneChain(chains[i]);
    }
    SplitJoin(ChainTexts(chains), ';');
    ReadAllChains(chains);
  }

  lemma LabelsPlain(i: nat)
    ensures PlainPad(SplitLabel(i)) && PlainPad(OutLabel(i)) && PlainPad(INPUT) && PlainPad(ROTATED)
  {
    DigitsFree(PrintNat(i + 1), '[');
    DigitsFree(PrintNat(i + 1), ']');
    DigitsFree(PrintNat(i + 1), ';');
  }

  lemma GraphIsPlain(rotation: int, sizes: seq<Size>)
    requires sizes != [] && forall i :: 0 <= i < |sizes| ==> sizes[i].0 >= 0 && sizes[i].1 >= 0
    ensures forall i :: 0 <= i < |GraphOf(rotation, sizes)| ==> PlainChain(GraphOf(rotation, sizes)[i])
  {
    forall i | 0 <= i < |sizes|
      ensures PlainPad(SplitLabels(|sizes|)[i]) && PlainChain(ScaleChain(i, sizes[i]))
    {
      LabelsPlain(i);
    }
    LabelsPlain(0);
  }

  /** The text that the transcoder builds, read by FFmpeg's rules and evaluated, has exactly the output pads, each with
      the source turned as its rotation asks and scaled to the planned size. */
  lemma TextIsCorrect(rotation: int, sizes: seq<Size>, source: Size)
    requires sizes != [] && forall i :: 0 <= i < |sizes| ==> sizes[i].0 >= 0 && sizes[i].1 >= 0
    ensures var chains := ReadGraph(GraphText(GraphOf(rotation, sizes)));
      chains.Some? &&
      var r := Eval(chains.value, map[INPUT := Picture(0, source)], {INPUT});
      r.Some? && OutputsOnly(r.value, TurnsOf(rotation), sizes, OutLabels(|sizes|)) && Distinct(OutLabels(|sizes|))
  {
    GraphIsPlain(rotation, sizes);
    GraphReadsBack(GraphOf(rotation, sizes));
    GraphIsCorrect(rotation, sizes, source);
  }
}
