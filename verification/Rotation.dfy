/** Rotation filters over arbitrary frames of pixels. */
module Rotation {
  import Scaling

  /** `transpose=1` turns a frame a quarter turn clockwise, `transpose=2` a quarter turn counterclockwise. */
  datatype FilterType = NoRotation | Transpose1 | Transpose2 | Transpose1x2

  function GetRotationFilterType(rotation: int): FilterType {
    if rotation == 90 || rotation == -270 then Transpose2
    else if rotation == 180 || rotation == -180 then Transpose1x2
    else if rotation == 270 || rotation == -90 then Transpose1
    else NoRotation
  }

  /** The remainder takes the sign of the dividend. */
  function Remainder(r: int, m: int): int
    requires m > 0
  {
    if r >= 0 then r % m else -(-r % m)
  }

  method NormalizeRotation(rotation: int) returns (r: int)
    ensures r == Normalized(rotation)
    ensures 0 <= r < 360 && exists k :: rotation == r + Turns(k)
  {
    r := Remainder(rotation, 360);
    if r < 0 {
      r := r + 360;
    }
    NormalizedRange(rotation);
  }

  function Turns(k: int): int {
    360 * k
  }

  function Normalized(rotation: int): int {
    var r := Remainder(rotation, 360);
    if r < 0 then r + 360 else r
  }

  lemma NormalizedRange(rotation: int)
    ensures 0 <= Normalized(rotation) < 360 && exists k :: rotation == Normalized(rotation) + Turns(k)
  {
    assert rotation == Normalized(rotation) + Turns((rotation - Normalized(rotation)) / 360);
  }

  predicate Quarter(rotation: int) {
    var r := Normalized(rotation); r == 90 || r == 180 || r == 270
  }

  /** Normalising first does not change the chosen filter exactly when the angle is less than a full turn or not a
      proper quarter turn. */
  lemma NormalizingKeepsFilter(rotation: int)
    ensures GetRotationFilterType(Normalized(rotation)) == GetRotationFilterType(rotation)
            <==> -360 < rotation < 360 || !Quarter(rotation)
  {
  }

  // ----- frames -----

  datatype Frame<T> = Frame(width: nat, height: nat, rows: seq<seq<T>>) {
    predicate Valid() {
      |rows| == height && forall y :: 0 <= y < height ==> |rows[y]| == width
    }
  }

  function At<T>(f: Frame<T>, x: nat, y: nat): T
    requires f.Valid() && x < f.width && y < f.height
  {
    f.rows[y][x]
  }

  /** A quarter turn clockwise: the left column becomes the top row, read upwards. */
  function Clockwise<T>(f: Frame<T>): (g: Frame<T>)
    requires f.Valid()
    ensures g.Valid() && g.width == f.height && g.height == f.width
  {
    Frame(f.height, f.width,
          seq(f.width, y requires 0 <= y < f.width => seq(f.height,
            x requires 0 <= x < f.height => At(f, y, f.height - 1 - x))))
  }

  /** A quarter turn counterclockwise: the right column becomes the top row, read downwards. */
  function Counterclockwise<T>(f: Frame<T>): (g: Frame<T>)
    requires f.Valid()
    ensures g.Valid() && g.width == f.height && g.height == f.width
  {
    Frame(f.height, f.width,
          seq(f.width, y requires 0 <= y < f.width => seq(f.height,
            x requires 0 <= x < f.height => At(f, f.width - 1 - y, x))))
  }

  function ApplyFilter<T>(filter: FilterType, f: Frame<T>): (g: Frame<T>)
    requires f.Valid()
    ensures g.Valid()
  {
    match filter
    case NoRotation => f
    case Transpose1 => Clockwise(f)
    case Transpose2 => Counterclockwise(f)
    case Transpose1x2 => Clockwise(Clockwise(f))
  }

  lemma SameFrame<T>(f: Frame<T>, g: Frame<T>)
    requires f.Valid() && g.Valid() && f.width == g.width && f.height == g.height
    requires forall x: nat, y: nat :: x < f.width && y < f.height ==> At(f, x, y) == At(g, x, y)
    ensures f == g
  {
    forall y | 0 <= y < f.height
      ensures f.rows[y] == g.rows[y]
    {
      assert forall x :: 0 <= x < f.width ==> f.rows[y][x] == At(f, x, y) && g.rows[y][x] == At(g, x, y);
    }
  }

  lemma PixelMoves<T>(f: Frame<T>, x: nat, y: nat)
    requires f.Valid() && x < f.height && y < f.width
    ensures At(Clockwise(f), x, y) == At(f, y, f.height - 1 - x)
    ensures At(Counterclockwise(f), x, y) == At(f, f.width - 1 - y, x)
  {
  }

  lemma TurnBack<T>(f: Frame<T>)
    requires f.Valid()
    ensures Counterclockwise(Clockwise(f)) == f && Clockwise(Counterclockwise(f)) == f
  {
    forall x: nat, y: nat | x < f.width && y < f.height
      ensures At(Counterclockwise(Clockwise(f)), x, y) == At(f, x, y) == At(Clockwise(Counterclockwise(f)), x, y)
    {
      PixelMoves(Clockwise(f), x, y);
      PixelMoves(Counterclockwise(f), x, y);
      PixelMoves(f, f.height - 1 - y, x);
      PixelMoves(f, y, f.width - 1 - x);
    }
    SameFrame(f, Counterclockwise(Clockwise(f)));
    SameFrame(f, Clockwise(Counterclockwise(f)));
  }

  lemma HalfTurns<T>(f: Frame<T>)
    requires f.Valid()
    ensures Clockwise(Clockwise(f)) == Counterclockwise(Counterclockwise(f))
  {
    var a, b := Clockwise(Clockwise(f)), Counterclockwise(Counterclockwise(f));
    forall x: nat, y: nat | x < f.width && y < f.height
      ensures At(a, x, y) == At(b, x, y) == At(f, f.width - 1 - x, f.height - 1 - y)
    {
      PixelMoves(Clockwise(f), x, y);
      PixelMoves(Counterclockwise(f), x, y);
      PixelMoves(f, y, f.width - 1 - x);
      PixelMoves(f, f.height - 1 - y, x);
    }
    SameFrame(a, b);
  }

  /** Reference: `k` quarter turns counterclockwise. */
  function QuarterTurns<T>(k: nat, f: Frame<T>): (g: Frame<T>)
    requires f.Valid()
    ensures g.Valid()
  {
    if k == 0 then f else Counterclockwise(QuarterTurns(k - 1, f))
  }

  lemma FewTurns<T>(f: Frame<T>)
    requires f.Valid()
    ensures QuarterTurns(0, f) == f && QuarterTurns(1, f) == Counterclockwise(f)
    ensures QuarterTurns(2, f) == Clockwise(Clockwise(f)) && QuarterTurns(3, f) == Clockwise(f)
  {
    assert QuarterTurns(1, f) == Counterclockwise(QuarterTurns(0, f));
    assert QuarterTurns(2, f) == Counterclockwise(QuarterTurns(1, f));
    assert QuarterTurns(3, f) == Counterclockwise(QuarterTurns(2, f));
    HalfTurns(f);
    TurnBack(Clockwise(f));
  }

  function FilterFor(turns: nat): FilterType {
    match turns case 0 => NoRotation case 1 => Transpose2 case 2 => Transpose1x2 case _ => Transpose1
  }

  lemma QuarterAngles(rotation: int)
    requires -360 < rotation < 360 && rotation % 90 == 0
    ensures 0 <= Normalized(rotation) / 90 <= 3
    ensures GetRotationFilterType(rotation) == FilterFor(Normalized(rotation) / 90)
  {
  }

  lemma FilterTurns<T>(turns: nat, f: Frame<T>)
    requires f.Valid() && turns <= 3
    ensures ApplyFilter(FilterFor(turns), f) == QuarterTurns(turns, f)
  {
    FewTurns(f);
  }

  /** The filter for a rotation of 90 * k degrees below a full turn makes k quarter turns counterclockwise; for any
      other angle it leaves the frame as it is. */
  lemma FilterTurnsFrame<T>(rotation: int, f: Frame<T>)
    requires f.Valid()
    ensures Normalized(rotation) >= 0
    ensures ApplyFilter(GetRotationFilterType(rotation), f)
            == if -360 < rotation < 360 && rotation % 90 == 0 then QuarterTurns(Normalized(rotation) / 90, f) else f
  {
    if -360 < rotation < 360 && rotation % 90 == 0 {
      QuarterAngles(rotation);
      FilterTurns(Normalized(rotation) / 90, f);
    }
  }

  /** The filtered frame has the effective dimensions. */
  lemma FilterGivesEffectiveDimensions<T>(rotation: int, f: Frame<T>)
    requires f.Valid()
    ensures var g := ApplyFilter(GetRotationFilterType(rotation), f);
            (g.width, g.height) == Scaling.EffectiveDimensions(f.width, f.height, rotation)
  {
  }

  function There<T>(rotation: int, f: Frame<T>): (g: Frame<T>)
    requires f.Valid()
    ensures g.Valid()
  {
    ApplyFilter(GetRotationFilterType(rotation), f)
  }

  function ThereAndBack<T>(rotation: int, f: Frame<T>): Frame<T>
    requires f.Valid()
  {
    There(Normalized(-rotation), There(rotation, f))
  }

  /** The filter for an angle, then the filter for the normalised opposite angle, gives every frame back exactly
      when normalising the angle would not change its filter. */
  lemma OppositeRestores(rotation: int)
    ensures (forall f: Frame<int> | f.Valid() :: ThereAndBack(rotation, f) == f)
            <==> -360 < rotation < 360 || !Quarter(rotation)
  {
    if -360 < rotation < 360 || !Quarter(rotation) {
      forall f: Frame<int> | f.Valid()
        ensures ThereAndBack(rotation, f) == f
      {
        Restores(rotation, f);
      }
    } else {
      LargeAngleLoses(rotation);
    }
  }

  lemma Restores<T>(rotation: int, f: Frame<T>)
    requires f.Valid() && (-360 < rotation < 360 || !Quarter(rotation))
    ensures ThereAndBack(rotation, f) == f
  {
    TurnBack(f);
    HalfTurns(f);
    TurnBack(Clockwise(f));
    TurnBack(Counterclockwise(f));
  }

  lemma LargeAngleLoses(rotation: int)
    requires !(-360 < rotation < 360) && Quarter(rotation)
    ensures exists f: Frame<int> | f.Valid() :: ThereAndBack(rotation, f) != f
  {
    var f := Frame(2, 1, [[0, 1]]);
    assert There(rotation, f) == f;
    if GetRotationFilterType(Normalized(-rotation)) == Transpose1x2 {
      PixelMoves(Clockwise(f), 0, 0);
      PixelMoves(f, 0, 1);
      assert At(f, 0, 0) == 0 && At(f, 1, 0) == 1;
    }
    assert ThereAndBack(rotation, f) != f;
  }
}
