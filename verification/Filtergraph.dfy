/** The filtergraph: built as text by the transcoder, here also as chains of filters between labelled pads. */
module Filtergraph {
  import opened Text
  import Scaling
  import Rotation

  type Size = (int, int)

  datatype Filter = Transpose(direction: nat) | SplitInto(n: nat) | Scale(w: int, h: int) | SetSar
  datatype Chain = Chain(inputs: seq<string>, filters: seq<Filter>, outputs: seq<string>)

  // ----- text -----

  function FilterText(f: Filter): string {
    match f
    case Transpose(d) => "transpose=" + PrintNat(d)
    case SplitInto(n) => "split=" + PrintNat(n)
    case Scale(w, h) => "scale=" + PrintInt(w) + ":" + PrintInt(h) + ":flags=lanczos"
    case SetSar => "setsar=1:1"
  }

  function Texts(filters: seq<Filter>): seq<string> {
    seq(|filters|, i requires 0 <= i < |filters| => FilterText(filters[i]))
  }

  function Bracketed(labels: seq<string>): string {
    if labels == [] then "" else Bracketed(labels[..|labels| - 1]) + ("[" + labels[|labels| - 1] + "]")
  }

  function ChainText(c: Chain): string {
    Bracketed(c.inputs) + Join(Texts(c.filters), ',') + Bracketed(c.outputs)
  }

  function ChainTexts(chains: seq<Chain>): seq<string> {
    seq(|chains|, i requires 0 <= i < |chains| => ChainText(chains[i]))
  }

  function GraphText(chains: seq<Chain>): string {
    Join(ChainTexts(chains), ';')
  }

  // ----- the graph of a transcode -----

  const INPUT := "0:v"
  const ROTATED := "rotated"

  function SplitLabel(i: nat): string {
    "v" + PrintNat(i + 1)
  }

  function OutLabel(i: nat): string {
    "out" + PrintNat(i + 1)
  }

  function SplitLabels(n: nat): seq<string> {
    seq(n, i requires 0 <= i < n => SplitLabel(i))
  }

  function OutLabels(n: nat): seq<string> {
    seq(n, i requires 0 <= i < n => OutLabel(i))
  }

  function RotationFilters(t: Rotation.FilterType): seq<Filter> {
    match t
    case NoRotation => []
    case Transpose1 => [Transpose(1)]
    case Transpose2 => [Transpose(2)]
    case Transpose1x2 => [Transpose(1), Transpose(1)]
  }

  function RotationChains(rotation: int): seq<Chain> {
    var filters := RotationFilters(Rotation.GetRotationFilterType(rotation));
    if filters == [] then [] else [Chain([INPUT], filters, [ROTATED])]
  }

  function SplitInput(rotation: int): string {
    if RotationChains(rotation) == [] then INPUT else ROTATED
  }

  function ScaleChain(i: nat, size: Size): Chain {
    Chain([SplitLabel(i)], [Scale(size.0, size.1), SetSar], [OutLabel(i)])
  }

  function ScaleChains(sizes: seq<Size>): seq<Chain> {
    seq(|sizes|, i requires 0 <= i < |sizes| => ScaleChain(i, sizes[i]))
  }

  function GraphOf(rotation: int, sizes: seq<Size>): seq<Chain> {
    Head(rotation, |sizes|) + ScaleChains(sizes)
  }

  // ----- the builder -----

  function ApplyRotationToLabel(pad: string, rotation: int): (string, string) {
    match Rotation.GetRotationFilterType(rotation)
    case Transpose2 => (("[" + pad + "]") + "transpose=2" + ("[" + ROTATED + "]"), ROTATED)
    case Transpose1x2 => (("[" + pad + "]") + "transpose=1,transpose=1" + ("[" + ROTATED + "]"), ROTATED)
    case Transpose1 => (("[" + pad + "]") + "transpose=1" + ("[" + ROTATED + "]"), ROTATED)
    case NoRotation => ("", pad)
  }

  function ScaleText(splitLabel: string, size: Size, outLabel: string): string {
    splitLabel + (FilterText(Scale(size.0, size.1)) + "," + "setsar=1:1") + ("[" + outLabel + "]")
  }

  method BuildFiltergraph(rotation: int, sizes: seq<Size>) returns (r: Option<(string, seq<string>)>)
    ensures r == if sizes == [] then None else Some((GraphText(GraphOf(rotation, sizes)), OutLabels(|sizes|)))
  {
    var n := |sizes|;
    if n == 0 {
      return None;
    }
    var parts: seq<string> := [];
    var pad := INPUT;
    var (rotationFilter, newLabel) := ApplyRotationToLabel(pad, rotation);
    if rotationFilter != "" {
      parts := parts + [rotationFilter];
      pad := newLabel;
    }
    var splitLabels: seq<string> := [];
    for i := 0 to n
      invariant splitLabels == Brackets(i)
    {
      splitLabels := splitLabels + ["[" + SplitLabel(i) + "]"];
    }
    parts := parts + [("[" + pad + "]") + ("split=" + PrintInt(n)) + Concat(splitLabels)];
    HeadText(rotation, n);
    ghost var head := Head(rotation, n);
    assert sizes[..0] == [] && parts == ChainTexts(head + ScaleChains(sizes[..0]));
    var outputLabels: seq<string> := [];
    for i := 0 to n
      invariant outputLabels == OutLabels(i)
      invariant parts == ChainTexts(head + ScaleChains(sizes[..i]))
    {
      outputLabels := outputLabels + [OutLabel(i)];
      parts := parts + [ScaleText(splitLabels[i], sizes[i], outputLabels[i])];
      ScaleStep(head, sizes, i);
    }
    assert sizes[..n] == sizes;
    r := Some((Join(parts, ';'), outputLabels));
  }

  function Brackets(n: nat): seq<string> {
    seq(n, j requires 0 <= j < n => "[" + SplitLabel(j) + "]")
  }

  /** Everything before the scaling chains. */
  function Head(rotation: int, n: nat): seq<Chain> {
    RotationChains(rotation) + [Chain([SplitInput(rotation)], [SplitInto(n)], SplitLabels(n))]
  }

  lemma HeadText(rotation: int, n: nat)
    ensures var (text, pad) := ApplyRotationToLabel(INPUT, rotation);
      ChainTexts(Head(rotation, n) + ScaleChains([]))
      == (if text == "" then [] else [text]) + [("[" + pad + "]") + ("split=" + PrintInt(n)) + Concat(Brackets(n))]
    ensures ApplyRotationToLabel(INPUT, rotation).0 == "" ==> ApplyRotationToLabel(INPUT, rotation).1 == INPUT
  {
    RotationText(rotation);
    SplitText(rotation, n, Brackets(n));
    ChainTextsAppend(RotationChains(rotation), Chain([SplitInput(rotation)], [SplitInto(n)], SplitLabels(n)));
    assert Head(rotation, n) + ScaleChains([]) == Head(rotation, n);
  }

  lemma ScaleStep(head: seq<Chain>, sizes: seq<Size>, i: nat)
    requires i < |sizes|
    ensures ChainTexts(head + ScaleChains(sizes[..i + 1]))
            == ChainTexts(head + ScaleChains(sizes[..i]))
              + [ScaleText("[" + SplitLabel(i) + "]", sizes[i], OutLabel(i))]
  {
    ScaleChainText(i, sizes[i]);
    ChainTextsAppend(head + ScaleChains(sizes[..i]), ScaleChain(i, sizes[i]));
    assert head + ScaleChains(sizes[..i]) + [ScaleChain(i, sizes[i])] == head + ScaleChains(sizes[..i + 1]);
  }

  function Concat(parts: seq<string>): string {
    if parts == [] then "" else Concat(parts[..|parts| - 1]) + parts[|parts| - 1]
  }

  lemma ChainTextsAppend(chains: seq<Chain>, c: Chain)
    ensures ChainTexts(chains + [c]) == ChainTexts(chains) + [ChainText(c)]
  {
  }

  lemma OneLabel(pad: string)
    ensures Bracketed([pad]) == "[" + pad + "]"
  {
    assert [pad][..0] == [];
    assert Bracketed([]) == "";
  }

  lemma RotationText(rotation: int)
    ensures var (text, pad) := ApplyRotationToLabel(INPUT, rotation);
      ChainTexts(RotationChains(rotation)) == (if text == "" then [] else [text]) &&
      SplitInput(rotation) == pad && (text == "" ==> pad == INPUT)
  {
    OneLabel(INPUT);
    OneLabel(ROTATED);
    TransposeText();
    match Rotation.GetRotationFilterType(rotation)
    case NoRotation =>
    case Transpose1 =>
      assert Texts([Transpose(1)]) == ["transpose=1"];
      OneChain(Chain([INPUT], [Transpose(1)], [ROTATED]));
    case Transpose2 =>
      assert Texts([Transpose(2)]) == ["transpose=2"];
      OneChain(Chain([INPUT], [Transpose(2)], [ROTATED]));
    case Transpose1x2 =>
      JoinPair("transpose=1", "transpose=1", ',');
      assert "transpose=1" + "," + "transpose=1" == "transpose=1,transpose=1";
      assert Texts([Transpose(1), Transpose(1)]) == ["transpose=1", "transpose=1"];
      OneChain(Chain([INPUT], [Transpose(1), Transpose(1)], [ROTATED]));
  }

  lemma TransposeText()
    ensures FilterText(Transpose(1)) == "transpose=1" && FilterText(Transpose(2)) == "transpose=2"
  {
    assert PrintNat(1) == "1" && PrintNat(2) == "2";
    assert "transpose=" + "1" == "transpose=1" && "transpose=" + "2" == "transpose=2";
  }

  lemma OneChain(c: Chain)
    ensures ChainTexts([c]) == [ChainText(c)]
  {
  }

  lemma {:induction false} ConcatBracketed(n: nat, parts: seq<string>)
    requires parts == Brackets(n)
    ensures Concat(parts) == Bracketed(SplitLabels(n))
  {
    if n > 0 {
      assert SplitLabels(n)[..n - 1] == SplitLabels(n - 1);
      ConcatBracketed(n - 1, parts[..n - 1]);
    }
  }

  lemma SplitText(rotation: int, n: nat, parts: seq<string>)
    requires parts == Brackets(n)
    ensures ChainText(Chain([SplitInput(rotation)], [SplitInto(n)], SplitLabels(n)))
            == ("[" + SplitInput(rotation) + "]") + ("split=" + PrintInt(n)) + Concat(parts)
  {
    ConcatBracketed(n, parts);
    OneLabel(SplitInput(rotation));
    assert Texts([SplitInto(n)]) == [FilterText(SplitInto(n))];
  }

  lemma ScaleChainText(i: nat, size: Size)
    ensures ChainText(ScaleChain(i, size)) == ScaleText("[" + SplitLabel(i) + "]", size, OutLabel(i))
  {
    OneLabel(SplitLabel(i));
    OneLabel(OutLabel(i));
    var scale := FilterText(Scale(size.0, size.1));
    assert Texts([Scale(size.0, size.1), SetSar]) == [scale, "setsar=1:1"];
    JoinPair(scale, "setsar=1:1", ',');
  }

  // ----- meaning -----

  /** What a pad carries: the source turned counterclockwise by `turns` quarter turns, at some size, and whether its
      pixels are sure to be square. */
  datatype Picture = Picture(turns: nat, size: Size, square: bool := false)

  type Pads = map<string, Picture>

  function FilterPicture(f: Filter, p: Picture): Picture {
    match f
    case Transpose(d) => Picture((p.turns + if d == 1 then 3 else 1) % 4, (p.size.1, p.size.0))
    case SplitInto(_) => p
    case Scale(w, h) => p.(size := (w, h), square := false)
    case SetSar => p.(square := true)
  }

  function FiltersPicture(filters: seq<Filter>, p: Picture): Picture {
    if filters == [] then p else FiltersPicture(filters[1..], FilterPicture(filters[0], p))
  }

  /** How many frames a chain hands on. */
  function Arity(filters: seq<Filter>): nat {
    if filters == [] then 1
    else if filters[|filters| - 1].SplitInto? then filters[|filters| - 1].n
    else 1
  }

  predicate Distinct<L(==)>(labels: seq<L>) {
    forall i, j :: 0 <= i < j < |labels| ==> labels[i] != labels[j]
  }

  /** A chain consumes its one input pad, which no later chain can use again, and produces new pads. */
  function Step(c: Chain, pads: Pads, used: set<string>): Option<(Pads, set<string>)> {
    if |c.inputs| != 1 || c.inputs[0] !in pads then None
    else if |c.outputs| != Arity(c.filters) || !Distinct(c.outputs) then None
    else if exists i :: 0 <= i < |c.outputs| && c.outputs[i] in used then None
    else
      var picture := FiltersPicture(c.filters, pads[c.inputs[0]]);
      var made := map x | x in c.outputs :: picture;
      Some(((pads - {c.inputs[0]}) + made, used + set x | x in c.outputs))
  }

  /** The pads left over when every chain has run; None when a pad is missing, used twice or produced twice. */
  function Eval(chains: seq<Chain>, pads: Pads, used: set<string>): Option<Pads>
    decreases |chains|
  {
    if chains == [] then Some(pads)
    else
      match Step(chains[0], pads, used)
      case None => None
      case Some((pads', used')) => Eval(chains[1..], pads', used')
  }

  lemma {:induction false} EvalConcat(a: seq<Chain>, b: seq<Chain>, pads: Pads, used: set<string>, pads': Pads,
                                      used': set<string>)
    requires EvalTo(a, pads, used, pads', used')
    ensures Eval(a + b, pads, used) == Eval(b, pads', used')
    decreases |a|
  {
    if a == [] {
      assert a + b == b;
    } else {
      assert (a + b)[1..] == a[1..] + b;
      var r := Step(a[0], pads, used).value;
      EvalConcat(a[1..], b, r.0, r.1, pads', used');
    }
  }

  ghost predicate EvalTo(chains: seq<Chain>, pads: Pads, used: set<string>, pads': Pads, used': set<string>)
    decreases |chains|
  {
    if chains == [] then pads == pads' && used == used'
    else
      match Step(chains[0], pads, used)
      case None => false
      case Some((p, u)) => EvalTo(chains[1..], p, u, pads', used')
  }

  lemma LabelsDiffer(i: nat, j: nat)
    ensures SplitLabel(i) == SplitLabel(j) ==> i == j
    ensures OutLabel(i) == OutLabel(j) ==> i == j
    ensures SplitLabel(i) != OutLabel(j)
    ensures SplitLabel(i) != INPUT && SplitLabel(i) != ROTATED && OutLabel(i) != INPUT && OutLabel(i) != ROTATED
  {
    if SplitLabel(i) == SplitLabel(j) {
      assert SplitLabel(i)[1..] == PrintNat(i + 1) && SplitLabel(j)[1..] == PrintNat(j + 1);
      PrintInjective(i + 1, j + 1);
    }
    if OutLabel(i) == OutLabel(j) {
      assert OutLabel(i)[3..] == PrintNat(i + 1) && OutLabel(j)[3..] == PrintNat(j + 1);
      PrintInjective(i + 1, j + 1);
    }
    assert SplitLabel(i)[0] == 'v' && OutLabel(j)[0] == 'o' && OutLabel(i)[0] == 'o' && INPUT[0] == '0' &&
      ROTATED[0] == 'r';
  }

  /** The labels of the scaling chains: no label occurs twice among inputs and outputs. */
  ghost predicate Apart<L>(ins: seq<L>, outs: seq<L>) {
    && |ins| == |outs| && Distinct(ins) && Distinct(outs)
    && (forall i, j :: 0 <= i < |ins| && 0 <= j < |outs| ==> ins[i] != outs[j])
  }

  /** Pads `k` and later still wait to be scaled; the earlier ones are done. */
  ghost predicate Halfway<L>(pads: map<L, Picture>, used: set<L>, source: Picture, sizes: seq<Size>, ins: seq<L>,
                             outs: seq<L>, k: nat)
    requires k <= |sizes| == |ins| == |outs|
  {
    && (forall i :: k <= i < |ins| ==> ins[i] in pads && pads[ins[i]] == source && outs[i] !in used)
    && (forall i :: 0 <= i < k ==> outs[i] in pads && pads[outs[i]] == Picture(source.turns, sizes[i], true))
    && (forall x :: x in pads ==>
      (exists i :: k <= i < |ins| && x == ins[i]) || (exists i :: 0 <= i < k && x == outs[i]))
  }

  lemma TwoFilters(size: Size, source: Picture)
    ensures FiltersPicture([Scale(size.0, size.1), SetSar], source) == Picture(source.turns, size, true)
    ensures Arity([Scale(size.0, size.1), SetSar]) == 1
  {
    assert [Scale(size.0, size.1), SetSar][1..] == [SetSar];
    OneFilter(SetSar, Picture(source.turns, size));
  }

  lemma StepOne(pads: Pads, used: set<string>, input: string, output: string, size: Size)
    requires input in pads && output !in used
    ensures Step(Chain([input], [Scale(size.0, size.1), SetSar], [output]), pads, used)
            == Some(((pads - {input})[output := Picture(pads[input].turns, size, true)], used + {output}))
  {
    TwoFilters(size, pads[input]);
    var c := Chain([input], [Scale(size.0, size.1), SetSar], [output]);
    assert c.outputs[0] == output;
    var picture := Picture(pads[input].turns, size, true);
    assert (pads - {input}) + (map x | x in c.outputs :: picture) == (pads - {input})[output := picture];
    assert used + (set x | x in c.outputs) == used + {output};
  }

  lemma ScaleOne<L>(pads: map<L, Picture>, used: set<L>, source: Picture, sizes: seq<Size>, ins: seq<L>, outs: seq<L>,
                    k: nat)
    requires Apart(ins, outs) && k < |sizes| == |ins| && Halfway(pads, used, source, sizes, ins, outs, k)
    ensures Halfway((pads - {ins[k]})[outs[k] := Picture(source.turns, sizes[k], true)], used + {outs[k]}, source,
                    sizes, ins, outs, k + 1)
  {
    var pads' := (pads - {ins[k]})[outs[k] := Picture(source.turns, sizes[k], true)];
    forall x | x in pads'
      ensures (exists i :: k + 1 <= i < |ins| && x == ins[i]) || (exists i :: 0 <= i < k + 1 && x == outs[i])
    {
      if x != outs[k] {
        assert x in pads && x != ins[k];
      }
    }
  }

  lemma ScaleFirst(pads: Pads, used: set<string>, source: Picture, sizes: seq<Size>, ins: seq<string>,
                   outs: seq<string>, k: nat)
    requires k < |sizes| && ins == SplitLabels(|sizes|) && outs == OutLabels(|sizes|)
    requires ins[k] in pads && pads[ins[k]] == source && outs[k] !in used
    ensures Eval(ScaleChains(sizes)[k..], pads, used)
            == Eval(ScaleChains(sizes)[k + 1..], (pads - {ins[k]})[outs[k] := Picture(source.turns, sizes[k], true)],
              used + {outs[k]})
  {
    StepOne(pads, used, ins[k], outs[k], sizes[k]);
    var rest := ScaleChains(sizes)[k..];
    assert rest[0] == Chain([ins[k]], [Scale(sizes[k].0, sizes[k].1), SetSar], [outs[k]]);
    assert rest[1..] == ScaleChains(sizes)[k + 1..];
  }

  lemma {:induction false} ScaleAll(pads: Pads, used: set<string>, source: Picture, sizes: seq<Size>,
                                    ins: seq<string>, outs: seq<string>, k: nat)
    requires Apart(ins, outs) && k <= |sizes| == |ins| && Halfway(pads, used, source, sizes, ins, outs, k)
    requires ins == SplitLabels(|sizes|) && outs == OutLabels(|sizes|)
    ensures var r := Eval(ScaleChains(sizes)[k..], pads, used);
            r.Some? && OutputsOnly(r.value, source.turns, sizes, outs)
    decreases |sizes| - k
  {
    if k < |sizes| {
      ScaleFirst(pads, used, source, sizes, ins, outs, k);
      ScaleOne(pads, used, source, sizes, ins, outs, k);
      ScaleAll((pads - {ins[k]})[outs[k] := Picture(source.turns, sizes[k], true)], used + {outs[k]}, source, sizes,
        ins, outs, k + 1);
    }
  }

  /** Exactly the output pads remain, each with its size and square pixels. */
  ghost predicate OutputsOnly<L>(pads: map<L, Picture>, turns: nat, sizes: seq<Size>, outs: seq<L>)
    requires |sizes| == |outs|
  {
    && (forall x :: x in pads ==> exists i :: 0 <= i < |outs| && x == outs[i])
    && (forall i :: 0 <= i < |outs| ==> outs[i] in pads && pads[outs[i]] == Picture(turns, sizes[i], true))
  }

  lemma LabelsApart(n: nat)
    ensures Apart(SplitLabels(n), OutLabels(n))
    ensures forall i :: 0 <= i < n ==> SplitLabels(n)[i] !in {INPUT, ROTATED} && OutLabels(n)[i] !in {INPUT, ROTATED}
  {
    var ins, outs := SplitLabels(n), OutLabels(n);
    forall i: nat, j: nat | i < n && j < n
      ensures ins[i] == ins[j] ==> i == j
      ensures outs[i] == outs[j] ==> i == j
      ensures ins[i] != outs[j] && ins[i] !in {INPUT, ROTATED} && outs[i] !in {INPUT, ROTATED}
    {
      LabelsDiffer(i, j);
    }
  }

  /** After rotation and split there are as many pads as outputs, all of the effective source size. */
  lemma SplitAll(source: Picture, pad: string, used: set<string>, sizes: seq<Size>, ins: seq<string>, outs: seq<string>)
    requires |sizes| == |ins| && Apart(ins, outs)
    requires forall i :: 0 <= i < |ins| ==> ins[i] !in used && ins[i] != pad && outs[i] !in used
    ensures var r := Step(Chain([pad], [SplitInto(|ins|)], ins), map[pad := source], used);
            r.Some? && Halfway(r.value.0, r.value.1, source, sizes, ins, outs, 0)
  {
    var c := Chain([pad], [SplitInto(|ins|)], ins);
    assert c.filters[1..] == [];
    assert FiltersPicture(c.filters, source) == source;
    assert (map[pad := source] - {c.inputs[0]}) + (map x | x in ins :: source) == map x | x in ins :: source;
  }

  /** The quarter turns that the chosen filter makes. */
  function TurnsOf(rotation: int): nat {
    match Rotation.GetRotationFilterType(rotation)
    case NoRotation => 0
    case Transpose2 => 1
    case Transpose1x2 => 2
    case Transpose1 => 3
  }

  function Turned(rotation: int, source: Size): Picture {
    Picture(TurnsOf(rotation), Scaling.EffectiveDimensions(source.0, source.1, rotation))
  }

  lemma RotationPicture(rotation: int, source: Size)
    ensures FiltersPicture(RotationFilters(Rotation.GetRotationFilterType(rotation)), Picture(0, source))
            == Turned(rotation, source)
    ensures Arity(RotationFilters(Rotation.GetRotationFilterType(rotation))) == 1
  {
    var p := Picture(0, source);
    OneFilter(Transpose(1), p);
    OneFilter(Transpose(2), p);
    OneFilter(Transpose(1), FilterPicture(Transpose(1), p));
    assert [Transpose(1), Transpose(1)][1..] == [Transpose(1)];
  }

  lemma OneFilter(f: Filter, p: Picture)
    ensures FiltersPicture([f], p) == FilterPicture(f, p)
  {
    assert [f][1..] == [];
  }

  /** The rotation step gives the frame that the pixel semantics of the filter gives. */
  lemma TurnsAgree<T>(rotation: int, f: Rotation.Frame<T>)
    requires f.Valid()
    ensures Rotation.ApplyFilter(Rotation.GetRotationFilterType(rotation), f)
            == Rotation.QuarterTurns(TurnsOf(rotation), f)
  {
    Rotation.FewTurns(f);
  }

  lemma RotateInput(rotation: int, source: Size) returns (used: set<string>)
    ensures used <= {INPUT, ROTATED}
    ensures EvalTo(RotationChains(rotation), map[INPUT := Picture(0, source)], {INPUT},
                   map[SplitInput(rotation) := Turned(rotation, source)], used)
  {
    RotationPicture(rotation, source);
    var chains := RotationChains(rotation);
    if chains == [] {
      used := {INPUT};
      assert Picture(0, source) == Turned(rotation, source);
    } else {
      var c := chains[0];
      assert chains[1..] == [];
      assert INPUT[0] == '0' && ROTATED[0] == 'r';
      var r := Step(c, map[INPUT := Picture(0, source)], {INPUT});
      assert c.outputs[0] == ROTATED;
      assert r.Some?;
      used := r.value.1;
      assert r.value.0 == map[ROTATED := Turned(rotation, source)];
      assert EvalTo([], r.value.0, used, map[ROTATED := Turned(rotation, source)], used);
    }
  }

  lemma SplitAndScale(pad: string, source: Picture, used: set<string>, sizes: seq<Size>)
    requires pad in {INPUT, ROTATED} && used <= {INPUT, ROTATED}
    ensures var r := Eval([Chain([pad], [SplitInto(|sizes|)], SplitLabels(|sizes|))] + ScaleChains(sizes),
            map[pad := source], used);
            r.Some? && OutputsOnly(r.value, source.turns, sizes, OutLabels(|sizes|))
  {
    var ins, outs := SplitLabels(|sizes|), OutLabels(|sizes|);
    var split := Chain([pad], [SplitInto(|ins|)], ins);
    LabelsApart(|sizes|);
    SplitAll(source, pad, used, sizes, ins, outs);
    var r := Step(split, map[pad := source], used).value;
    ScaleAll(r.0, r.1, source, sizes, ins, outs, 0);
    assert ([split] + ScaleChains(sizes))[1..] == ScaleChains(sizes)[0..];
  }

  /** For any rotation and any number of variants, the graph is well formed: starting from the input pad alone, every
      pad is produced once and consumed once, and what is left are exactly the outputs, each turned as the rotation
      asks and of its planned size. */
  lemma GraphIsCorrect(rotation: int, sizes: seq<Size>, source: Size)
    ensures var r := Eval(GraphOf(rotation, sizes), map[INPUT := Picture(0, source)], {INPUT});
            r.Some? && OutputsOnly(r.value, TurnsOf(rotation), sizes, OutLabels(|sizes|)) &&
              Distinct(OutLabels(|sizes|))
  {
    var pad := SplitInput(rotation);
    var used := RotateInput(rotation, source);
    var rest := [Chain([pad], [SplitInto(|sizes|)], SplitLabels(|sizes|))] + ScaleChains(sizes);
    EvalConcat(RotationChains(rotation), rest, map[INPUT := Picture(0, source)], {INPUT},
      map[pad := Turned(rotation, source)], used);
    assert GraphOf(rotation, sizes) == RotationChains(rotation) + rest;
    SplitAndScale(pad, Turned(rotation, source), used, sizes);
    LabelsApart(|sizes|);
  }
}
