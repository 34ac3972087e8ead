/** What the probe's streams say about a video: its size, and the rotation that the transcoder undoes. */
module VideoInfo {
  import opened Text
  import Rotation

  /** A rotation field of the probe's output: a number, truncated to an integer; a string, if it parses; or nothing. */
  datatype Field = Number(degrees: int) | Word(parsed: Option<int>) | Absent

  datatype SideData = SideData(isDisplayMatrix: bool, rotation: Field)

  datatype Stream = Video(width: int, height: int, rotation: Field, sideData: seq<SideData>) | Audio(codec: string)
    | Other

  datatype Info = Info(width: int, height: int, rotation: int, audioCodec: string)

  method ParseRotationValue(f: Field) returns (r: int)
    ensures r == Angle(f) && 0 <= r < 360
    ensures f.Number? ==> r == f.degrees % 360
    ensures f.Word? && f.parsed.Some? ==> r == f.parsed.value % 360
    ensures f.Absent? || (f.Word? && f.parsed.None?) ==> r == 0
  {
    match f {
      case Number(degrees) => r := Rotation.NormalizeRotation(degrees);
      case Word(parsed) =>
        if parsed.Some? {
          r := Rotation.NormalizeRotation(parsed.value);
        } else {
          r := 0;
        }
      case Absent => r := 0;
    }
  }

  function Angle(f: Field): int {
    match f
    case Number(degrees) => Rotation.Normalized(degrees)
    case Word(Some(degrees)) => Rotation.Normalized(degrees)
    case _ => 0
  }

  /** A display matrix that turns the picture. */
  predicate Turns(s: SideData) {
    s.isDisplayMatrix && Angle(s.rotation) != 0
  }

  ghost predicate FirstMatrix(sideData: seq<SideData>, i: int) {
    0 <= i < |sideData| && Turns(sideData[i]) && forall j :: 0 <= j < i ==> !Turns(sideData[j])
  }

  /** The stream's own angle unless it is zero; otherwise that of the first display matrix that has one. */
  ghost predicate RotationOf(rotation: Field, sideData: seq<SideData>, r: int) {
    && (Angle(rotation) != 0 ==> r == Angle(rotation))
    && (Angle(rotation) == 0 && r == 0 ==> forall i :: 0 <= i < |sideData| ==> !Turns(sideData[i]))
    && (Angle(rotation) == 0 && r != 0 ==> exists i :: FirstMatrix(sideData, i) && r == Angle(sideData[i].rotation))
  }

  method ChooseRotation(rotation: Field, sideData: seq<SideData>) returns (r: int)
    ensures RotationOf(rotation, sideData, r) && 0 <= r < 360
  {
    r := ParseRotationValue(rotation);
    if r == 0 {
      for i := 0 to |sideData|
        invariant r == 0 && forall j :: 0 <= j < i ==> !Turns(sideData[j])
      {
        if sideData[i].isDisplayMatrix {
          r := ParseRotationValue(sideData[i].rotation);
          if r != 0 {
            assert FirstMatrix(sideData, i);
            return;
          }
        }
      }
    }
  }

  /** Size and rotation come from the last video stream. */
  ghost predicate VideoFrom(streams: seq<Stream>, info: Info) {
    && (forall v: nat :: LastVideo(streams, v) ==>
          info.width == streams[v].width && info.height == streams[v].height &&
          RotationOf(streams[v].rotation, streams[v].sideData, info.rotation))
    && ((forall i :: 0 <= i < |streams| ==> !streams[i].Video?) ==> info.width == info.height == info.rotation == 0)
    && 0 <= info.rotation < 360
  }

  ghost predicate LastVideo(streams: seq<Stream>, v: nat) {
    v < |streams| && streams[v].Video? && forall i :: v < i < |streams| ==> !streams[i].Video?
  }

  /** The audio codec is the first one named. */
  ghost predicate AudioFrom(streams: seq<Stream>, codec: string) {
    if codec == "" then forall i :: 0 <= i < |streams| && streams[i].Audio? ==> streams[i].codec == ""
    else exists i :: 0 <= i < |streams| && streams[i] == Audio(codec) && NoCodecBefore(streams, i)
  }

  ghost predicate NoCodecBefore(streams: seq<Stream>, n: nat)
    requires n <= |streams|
  {
    forall j :: 0 <= j < n && streams[j].Audio? ==> streams[j].codec == ""
  }

  lemma AudioAppend(streams: seq<Stream>, codec: string, s: Stream)
    requires AudioFrom(streams, codec)
    ensures AudioFrom(streams + [s], if codec == "" && s.Audio? then s.codec else codec)
  {
    var all := streams + [s];
    if codec != "" {
      var i :| 0 <= i < |streams| && streams[i] == Audio(codec) && NoCodecBefore(streams, i);
      assert all[i] == Audio(codec) && NoCodecBefore(all, i);
    } else if s.Audio? && s.codec != "" {
      assert all[|streams|] == Audio(s.codec) && NoCodecBefore(all, |streams|);
    }
  }

  method ParseStreams(streams: seq<Stream>) returns (info: Info)
    ensures VideoFrom(streams, info) && AudioFrom(streams, info.audioCodec)
  {
    info := Info(0, 0, 0, "");
    for i := 0 to |streams|
      invariant VideoFrom(streams[..i], info) && AudioFrom(streams[..i], info.audioCodec)
    {
      assert streams[..i + 1] == streams[..i] + [streams[i]];
      AudioAppend(streams[..i], info.audioCodec, streams[i]);
      ghost var before := info;
      match streams[i] {
        case Video(width, height, rotation, sideData) =>
          var r := ChooseRotation(rotation, sideData);
          info := info.(width := width, height := height, rotation := r);
        case Audio(codec) =>
          if info.audioCodec == "" {
            info := info.(audioCodec := codec);
          }
          VideoKept(streams[..i], streams[i], before);
        case Other =>
          VideoKept(streams[..i], streams[i], before);
      }
    }
    assert streams[..|streams|] == streams;
  }

  lemma VideoKept(streams: seq<Stream>, s: Stream, info: Info)
    requires VideoFrom(streams, info) && !s.Video?
    ensures VideoFrom(streams + [s], info)
  {
    var all := streams + [s];
    forall v: nat | LastVideo(all, v)
      ensures LastVideo(streams, v)
    {
      assert forall i :: v < i < |streams| ==> all[i] == streams[i];
    }
    if forall i :: 0 <= i < |all| ==> !all[i].Video? {
      assert forall i :: 0 <= i < |streams| ==> streams[i] == all[i];
    }
  }

  // ----- which stream the probe describes -----

  /** The video stream that FFmpeg takes as `0:v`. */
  ghost predicate FirstVideo(streams: seq<Stream>, v: nat) {
    v < |streams| && streams[v].Video? && forall i :: 0 <= i < v ==> !streams[i].Video?
  }

  /** The angle of the first display matrix that turns the picture. */
  function MatrixAngle(sideData: seq<SideData>): int {
    if sideData == [] then 0
    else if Turns(sideData[0]) then Angle(sideData[0].rotation)
    else MatrixAngle(sideData[1..])
  }

  /** The angle to undo for a video stream. */
  function StreamAngle(s: Stream): int
    requires s.Video?
  {
    if Angle(s.rotation) != 0 then Angle(s.rotation) else MatrixAngle(s.sideData)
  }

  lemma {:induction false} MatrixAngleIs(sideData: seq<SideData>)
    ensures RotationOf(Absent, sideData, MatrixAngle(sideData))
  {
    if sideData != [] && !Turns(sideData[0]) {
      var rest, r := sideData[1..], MatrixAngle(sideData);
      MatrixAngleIs(rest);
      assert forall i :: 1 <= i < |sideData| ==> sideData[i] == rest[i - 1];
      if r != 0 {
        var i :| FirstMatrix(rest, i) && r == Angle(rest[i].rotation);
        assert FirstMatrix(sideData, i + 1);
      }
    }
  }

  lemma RotationIsStreamAngle(s: Stream, r: int)
    requires s.Video?
    ensures RotationOf(s.rotation, s.sideData, r) <==> r == StreamAngle(s)
  {
    MatrixAngleIs(s.sideData);
    var q := MatrixAngle(s.sideData);
    if RotationOf(Absent, s.sideData, r) && r != 0 && q != 0 {
      var i :| FirstMatrix(s.sideData, i) && r == Angle(s.sideData[i].rotation);
      var k :| FirstMatrix(s.sideData, k) && q == Angle(s.sideData[k].rotation);
      assert i == k;
    }
  }

  /** Side data of other kinds, and matrices without an angle, never matter. */
  lemma {:induction false} OtherSideDataIgnored(before: seq<SideData>, s: SideData, after: seq<SideData>)
    requires !s.isDisplayMatrix || Angle(s.rotation) == 0
    ensures MatrixAngle(before + [s] + after) == MatrixAngle(before + after)
  {
    if before == [] {
      assert before + [s] + after == [s] + after && before + after == after;
      assert ([s] + after)[1..] == after;
    } else {
      assert (before + [s] + after)[1..] == before[1..] + [s] + after;
      assert (before + after)[1..] == before[1..] + after;
      OtherSideDataIgnored(before[1..], s, after);
    }
  }

  /** A phone's upright video, whose display matrix says -90 degrees, is turned by 270 degrees. */
  lemma PhoneVideo(info: Info)
    requires VideoFrom([Video(1920, 1080, Absent, [SideData(true, Number(-90))])], info)
    ensures info.rotation == 270
  {
    var streams := [Video(1920, 1080, Absent, [SideData(true, Number(-90))])];
    assert LastVideo(streams, 0) && Turns(streams[0].sideData[0]);
  }

  /** Size and rotation are those of the stream. */
  predicate Describes(info: Info, s: Stream) {
    s.Video? && info.width == s.width && info.height == s.height && info.rotation == StreamAngle(s)
  }

  /** The probe describes the stream that is encoded exactly when the file's first and last video streams have the same
      size and angle; a file with one video stream is always described. */
  lemma EncodedIsDescribedExactly(streams: seq<Stream>, info: Info, first: nat, last: nat)
    requires VideoFrom(streams, info) && FirstVideo(streams, first) && LastVideo(streams, last)
    ensures Describes(info, streams[last])
    ensures Describes(info, streams[first]) <==>
            && streams[first].width == streams[last].width && streams[first].height == streams[last].height
            && StreamAngle(streams[first]) == StreamAngle(streams[last])
    ensures (forall i :: 0 <= i < |streams| && streams[i].Video? ==> i == first) ==> first == last
  {
    RotationIsStreamAngle(streams[last], info.rotation);
  }

  predicate HasAudio(streams: seq<Stream>) {
    exists i :: 0 <= i < |streams| && streams[i].Audio?
  }

  /** The probe's audio codec tells whether there is an audio stream, as long as every audio stream names its codec. */
  lemma AudioCodecExactly(streams: seq<Stream>, codec: string)
    requires AudioFrom(streams, codec)
    ensures codec != "" <==> exists i :: 0 <= i < |streams| && streams[i].Audio? && streams[i].codec != ""
    ensures codec != "" ==> HasAudio(streams)
    ensures Audio("") !in streams ==> (codec != "" <==> HasAudio(streams))
  {
    if codec != "" {
      var i :| 0 <= i < |streams| && streams[i] == Audio(codec) && NoCodecBefore(streams, i);
      assert streams[i].Audio? && streams[i].codec != "";
    } else if HasAudio(streams) {
      var i :| 0 <= i < |streams| && streams[i].Audio?;
      assert streams[i] == Audio("");
    }
  }

  /** A probed rotation is below a full turn: for every quarter angle, whether a number or a string, the transcoder's
      filter makes just as many quarter turns counterclockwise. */
  lemma ProbedAngleIsUndone<T>(f: Field, degrees: int, frame: Rotation.Frame<T>)
    requires frame.Valid() && degrees % 90 == 0 && (f == Number(degrees) || f == Word(Some(degrees)))
    ensures 0 <= Angle(f) / 90 <= 3 && Angle(f) == degrees % 360
    ensures Rotation.ApplyFilter(Rotation.GetRotationFilterType(Angle(f)), frame)
            == Rotation.QuarterTurns(Angle(f) / 90, frame)
  {
    NormalizedQuarter(degrees);
    NormalAngleIsUndone(Angle(f), frame);
  }

  lemma NormalAngleIsUndone<T>(r: int, frame: Rotation.Frame<T>)
    requires frame.Valid() && 0 <= r < 360 && r % 90 == 0
    ensures 0 <= r / 90 <= 3
    ensures Rotation.ApplyFilter(Rotation.GetRotationFilterType(r), frame) == Rotation.QuarterTurns(r / 90, frame)
  {
    Rotation.FilterTurnsFrame(r, frame);
    assert Rotation.Normalized(r) == r;
  }

  lemma NormalizedQuarter(degrees: int)
    requires degrees % 90 == 0
    ensures Rotation.Normalized(degrees) == degrees % 360 && Rotation.Normalized(degrees) % 90 == 0
  {
  }
}
