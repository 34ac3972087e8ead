/** The HLS master playlist: its printer, and a reader of the EXT-X-STREAM-INF form of RFC 8216, section 4.3.4.2. */
module Playlist {
  import opened Text

  datatype Variant = Variant(name: string, width: int, height: int, bandwidth: int)

  // ----- printer -----

  const TAG := "#EXT-X-STREAM-INF:"
  const SUFFIX := "/index.m3u8"

  function BandwidthText(v: Variant): string {
    "BANDWIDTH=" + PrintInt(v.bandwidth)
  }

  function ResolutionText(v: Variant): string {
    "RESOLUTION=" + (PrintInt(v.width) + "x" + PrintInt(v.height))
  }

  function TagLine(v: Variant): string {
    TAG + (BandwidthText(v) + "," + ResolutionText(v))
  }

  function UriLine(v: Variant): string {
    v.name + SUFFIX
  }

  function Entry(v: Variant): string {
    TagLine(v) + "\n" + (UriLine(v) + "\n")
  }

  function Entries(variants: seq<Variant>): string {
    if variants == [] then "" else Entry(variants[0]) + Entries(variants[1..])
  }

  const HEADER := "#EXTM3U\n#EXT-X-VERSION:3\n"

  function Printed(variants: seq<Variant>): string {
    HEADER + Entries(variants)
  }

  lemma Assoc(a: string, b: string, c: string)
    ensures (a + b) + c == a + (b + c)
  {
  }

  lemma {:induction false} EntriesAppend(variants: seq<Variant>, v: Variant)
    ensures Entries(variants + [v]) == Entries(variants) + Entry(v)
  {
    if variants == [] {
      assert [v][1..] == [];
    } else {
      assert (variants + [v])[1..] == variants[1..] + [v];
      EntriesAppend(variants[1..], v);
      Assoc(Entry(variants[0]), Entries(variants[1..]), Entry(v));
    }
  }

  lemma PrintedAppend(variants: seq<Variant>, v: Variant)
    ensures Printed(variants + [v]) == (Printed(variants) + (TagLine(v) + "\n")) + (UriLine(v) + "\n")
  {
    EntriesAppend(variants, v);
    Assoc(HEADER, Entries(variants), Entry(v));
    Assoc(Printed(variants), TagLine(v) + "\n", UriLine(v) + "\n");
  }

  lemma PrintedNone(variants: seq<Variant>)
    ensures "#EXTM3U\n" + "#EXT-X-VERSION:3\n" == Printed(variants[..0])
  {
    assert variants[..0] == [];
  }

  lemma PrintedStep(variants: seq<Variant>, i: nat)
    requires i < |variants|
    ensures (Printed(variants[..i]) + (TagLine(variants[i]) + "\n")) + (UriLine(variants[i]) + "\n")
            == Printed(variants[..i + 1])
  {
    assert variants[..i + 1] == variants[..i] + [variants[i]];
    PrintedAppend(variants[..i], variants[i]);
  }

  method BuildMasterPlaylist(variants: seq<Variant>) returns (text: string)
    ensures text == Printed(variants)
  {
    text := "#EXTM3U\n";
    text := text + "#EXT-X-VERSION:3\n";
    PrintedNone(variants);
    for i := 0 to |variants|
      invariant text == Printed(variants[..i])
    {
      PrintedStep(variants, i);
      text := text + (TagLine(variants[i]) + "\n");
      text := text + (UriLine(variants[i]) + "\n");
    }
    assert variants[..|variants|] == variants;
  }

  // ----- reader -----

  /** The tag of RFC 8216, section 4.3.4.2, and the file of a variant below its name. */
  const STREAM_INF := "#EXT-X-STREAM-INF:"
  const MEDIA_PLAYLIST := "/index.m3u8"

  predicate HasPrefix(s: string, p: string) {
    |s| >= |p| && s[..|p|] == p
  }

  predicate HasSuffix(s: string, p: string) {
    |s| >= |p| && s[|s| - |p|..] == p
  }

  /** The value of the first attribute called `name` in a comma-separated list. */
  function Attribute(attributes: seq<string>, name: string): Option<string> {
    if attributes == [] then None
    else if HasPrefix(attributes[0], name + "=") then Some(attributes[0][|name| + 1..])
    else Attribute(attributes[1..], name)
  }

  /** `<width>x<height>`. */
  function Resolution(value: string): Option<(nat, nat)> {
    var sides := Split(value, 'x');
    if |sides| != 2 then None
    else
      match (ParseNat(sides[0]), ParseNat(sides[1]))
      case (Some(w), Some(h)) => Some((w, h))
      case _ => None
  }

  /** A tag line with the URI line that follows it. */
  function ReadVariant(tag: string, uri: string): Option<Variant>
    requires HasPrefix(tag, STREAM_INF)
  {
    if !HasSuffix(uri, MEDIA_PLAYLIST) || HasPrefix(uri, "#") then None
    else
      var attributes := Split(tag[|STREAM_INF|..], ',');
      match (Attribute(attributes, "BANDWIDTH"), Attribute(attributes, "RESOLUTION"))
      case (Some(b), Some(r)) => (
        match (ParseNat(b), Resolution(r))
        case (Some(bandwidth), Some((w, h))) => Some(Variant(uri[..|uri| - |MEDIA_PLAYLIST|], w, h, bandwidth))
        case _ => None)
      case _ => None
  }

  /** Blank lines, comments and other tags are skipped; a URI needs its tag. */
  function ReadLines(lines: seq<string>): Option<seq<Variant>>
    decreases |lines|
  {
    if lines == [] then Some([])
    else if HasPrefix(lines[0], STREAM_INF) then
      if |lines| == 1 then None
      else
        match (ReadVariant(lines[0], lines[1]), ReadLines(lines[2..]))
        case (Some(v), Some(rest)) => Some([v] + rest)
        case _ => None
    else if lines[0] == "" || HasPrefix(lines[0], "#") then ReadLines(lines[1..])
    else None
  }

  function Read(text: string): Option<seq<Variant>> {
    var lines := Split(text, '\n');
    if lines[0] == "#EXTM3U" then ReadLines(lines[1..]) else None
  }

  // ----- round trip -----

  predicate Plain(v: Variant) {
    Free(v.name, '\n') && !HasPrefix(v.name, "#") && v.width >= 0 && v.height >= 0 && v.bandwidth >= 0
  }

  lemma ReadResolution(w: nat, h: nat)
    ensures Resolution(PrintNat(w) + "x" + PrintNat(h)) == Some((w, h))
  {
    DigitsFree(PrintNat(w), 'x');
    DigitsFree(PrintNat(h), 'x');
    SplitAt(PrintNat(w), PrintNat(h), 'x');
    SplitFree(PrintNat(h), 'x');
    ParsePrinted(w);
    ParsePrinted(h);
  }

  lemma Strip(p: string, s: string)
    ensures HasPrefix(p + s, p) && (p + s)[|p|..] == s
  {
  }

  lemma HashPrefix(s: string)
    ensures HasPrefix(s, "#") <==> s != "" && s[0] == '#'
  {
    if s != "" {
      assert s[..1] == [s[0]];
    }
  }

  lemma ReadAttributes(v: Variant)
    requires Plain(v)
    ensures Split(BandwidthText(v) + "," + ResolutionText(v), ',') == [BandwidthText(v), ResolutionText(v)]
    ensures var attributes := [BandwidthText(v), ResolutionText(v)];
            Attribute(attributes, "BANDWIDTH") == Some(PrintNat(v.bandwidth)) &&
            Attribute(attributes, "RESOLUTION") == Some(PrintNat(v.width) + "x" + PrintNat(v.height))
  {
    var b, r := PrintNat(v.bandwidth), PrintNat(v.width) + "x" + PrintNat(v.height);
    DigitsFree(PrintNat(v.bandwidth), ',');
    DigitsFree(PrintNat(v.width), ',');
    DigitsFree(PrintNat(v.height), ',');
    SplitAt(BandwidthText(v), ResolutionText(v), ',');
    SplitFree(ResolutionText(v), ',');
    var attributes := [BandwidthText(v), ResolutionText(v)];
    Strip("BANDWIDTH=", b);
    assert "BANDWIDTH" + "=" == "BANDWIDTH=";
    Strip("RESOLUTION=", r);
    assert "RESOLUTION" + "=" == "RESOLUTION=";
    assert BandwidthText(v)[0] == 'B';
    assert attributes[1..] == [ResolutionText(v)];
  }

  lemma ReadPrintedVariant(v: Variant)
    requires Plain(v)
    ensures HasPrefix(TagLine(v), STREAM_INF) && ReadVariant(TagLine(v), UriLine(v)) == Some(v)
  {
    Strip(STREAM_INF, BandwidthText(v) + "," + ResolutionText(v));
    ReadAttributes(v);
    ParsePrinted(v.bandwidth);
    ReadResolution(v.width, v.height);
    var uri := UriLine(v);
    assert uri[|uri| - |MEDIA_PLAYLIST|..] == MEDIA_PLAYLIST && uri[..|uri| - |MEDIA_PLAYLIST|] == v.name;
    HashPrefix(uri);
    HashPrefix(v.name);
  }

  lemma TagLineFree(v: Variant)
    requires Plain(v)
    ensures Free(TagLine(v), '\n') && Free(UriLine(v), '\n')
  {
    DigitsFree(PrintNat(v.bandwidth), '\n');
    DigitsFree(PrintNat(v.width), '\n');
    DigitsFree(PrintNat(v.height), '\n');
  }

  function EntryLines(variants: seq<Variant>): seq<string> {
    if variants == [] then [""] else [TagLine(variants[0]), UriLine(variants[0])] + EntryLines(variants[1..])
  }

  lemma SplitTwo(tag: string, uri: string, rest: string)
    requires Free(tag, '\n') && Free(uri, '\n')
    ensures Split((tag + "\n" + (uri + "\n")) + rest, '\n') == [tag, uri] + Split(rest, '\n')
  {
    SplitAt(uri, rest, '\n');
    SplitAt(tag, uri + "\n" + rest, '\n');
    assert (tag + "\n" + (uri + "\n")) + rest == tag + "\n" + (uri + "\n" + rest);
  }

  lemma {:induction false} SplitEntries(variants: seq<Variant>)
    requires forall v :: v in variants ==> Plain(v)
    ensures Split(Entries(variants), '\n') == EntryLines(variants)
  {
    if variants != [] {
      TagLineFree(variants[0]);
      SplitEntries(variants[1..]);
      SplitTwo(TagLine(variants[0]), UriLine(variants[0]), Entries(variants[1..]));
    }
  }

  lemma ReadNextVariant(v: Variant, lines: seq<string>, rest: seq<Variant>)
    requires Plain(v) && ReadLines(lines) == Some(rest)
    ensures ReadLines([TagLine(v), UriLine(v)] + lines) == Some([v] + rest)
  {
    ReadPrintedVariant(v);
    assert ([TagLine(v), UriLine(v)] + lines)[2..] == lines;
  }

  lemma {:induction false} ReadEntryLines(variants: seq<Variant>)
    requires forall v :: v in variants ==> Plain(v)
    ensures ReadLines(EntryLines(variants)) == Some(variants)
  {
    if variants == [] {
      assert [""][1..] == [];
    } else {
      ReadEntryLines(variants[1..]);
      var lines := EntryLines(variants[1..]);
      assert EntryLines(variants) == [TagLine(variants[0]), UriLine(variants[0])] + lines;
      ReadNextVariant(variants[0], lines, variants[1..]);
      assert [variants[0]] + variants[1..] == variants;
    }
  }

  lemma HeaderLines()
    ensures HEADER == "#EXTM3U" + "\n" + ("#EXT-X-VERSION:3" + "\n")
  {
  }

  lemma SplitHeader(body: string)
    ensures Split(HEADER + body, '\n') == ["#EXTM3U", "#EXT-X-VERSION:3"] + Split(body, '\n')
  {
    HeaderLines();
    SplitTwo("#EXTM3U", "#EXT-X-VERSION:3", body);
  }

  lemma ReadPrinted(variants: seq<Variant>)
    requires forall v :: v in variants ==> Plain(v)
    ensures Read(Printed(variants)) == Some(variants)
  {
    SplitEntries(variants);
    SplitHeader(Entries(variants));
    ReadEntryLines(variants);
    SkipVersion(EntryLines(variants));
    assert Split(Printed(variants), '\n')[1..] == ["#EXT-X-VERSION:3"] + EntryLines(variants);
  }

  lemma SkipVersion(rest: seq<string>)
    ensures ReadLines(["#EXT-X-VERSION:3"] + rest) == ReadLines(rest)
  {
    var line := "#EXT-X-VERSION:3";
    assert line[7] == 'V' && STREAM_INF[7] == 'S';
    HashPrefix(line);
    assert ([line] + rest)[1..] == rest;
  }

  /** Whatever the reader returns could have been printed plainly. */
  lemma {:induction false} ReadLinesPlain(lines: seq<string>)
    requires forall i :: 0 <= i < |lines| ==> Free(lines[i], '\n')
    ensures ReadLines(lines).Some? ==> forall v :: v in ReadLines(lines).value ==> Plain(v)
    decreases |lines|
  {
    if lines != [] {
      if HasPrefix(lines[0], STREAM_INF) {
        if |lines| > 1 {
          ReadLinesPlain(lines[2..]);
          var r := ReadVariant(lines[0], lines[1]);
          if r.Some? {
            assert r.value.name == lines[1][..|lines[1]| - |MEDIA_PLAYLIST|];
            HashPrefix(r.value.name);
            HashPrefix(lines[1]);
          }
        }
      } else {
        ReadLinesPlain(lines[1..]);
      }
    }
  }

  /** The reader recovers exactly the printed variants if and only if every name is newline-free and does not
      start with '#', and no number is negative. */
  lemma RoundTrip(variants: seq<Variant>)
    ensures Read(Printed(variants)) == Some(variants) <==> forall v :: v in variants ==> Plain(v)
  {
    if forall v :: v in variants ==> Plain(v) {
      ReadPrinted(variants);
    } else {
      var lines := Split(Printed(variants), '\n');
      ReadLinesPlain(lines[1..]);
    }
  }

  /** So different plain variant lists print differently. */
  lemma PrintedInjective(a: seq<Variant>, b: seq<Variant>)
    requires Printed(a) == Printed(b)
    requires (forall v :: v in a ==> Plain(v)) && (forall v :: v in b ==> Plain(v))
    ensures a == b
  {
    RoundTrip(a);
    RoundTrip(b);
  }
}
