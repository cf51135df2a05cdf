/** Line segments and the library's major-axis point iterator. */
module LibLine {
  import opened LibCommon

  /** Rust's `lo..=hi`. */
  datatype RangeInclusive = RangeInclusive(lo: int, hi: int) {
    predicate Contains(v: int) {
      lo <= v <= hi
    }
  }

  /** `between_u16_inclusive`: `i` lies between `a` and `b`, whichever is larger. */
  predicate BetweenInclusive(a: int, b: int, i: int) {
    Min(a, b) <= i <= Max(a, b)
  }

  /** The iterator steps along x when `|dx| >= |dy|` (ties go to x), along y otherwise. */
  predicate MajorIsX(lhs: Point, rhs: Point) {
    Abs(rhs.0 - lhs.0) >= Abs(rhs.1 - lhs.1)
  }

  function Major(p: Point, xMajor: bool): int {
    if xMajor then p.0 else p.1
  }

  /** The major coordinate of the first endpoint (where the iterator starts). */
  function MajorStart(lhs: Point, rhs: Point): int {
    Major(lhs, MajorIsX(lhs, rhs))
  }

  /** The major coordinate of the second endpoint (where the iterator heads). */
  function MajorEnd(lhs: Point, rhs: Point): int {
    Major(rhs, MajorIsX(lhs, rhs))
  }

  /** The direction of travel along the major axis. */
  function Step(lhs: Point, rhs: Point): int {
    if MajorStart(lhs, rhs) < MajorEnd(lhs, rhs) then 1 else -1
  }

  /** The major coordinates of the two endpoints agree exactly when the segment is a single point. */
  lemma DegenerateIffSamePoint(lhs: Point, rhs: Point)
    ensures MajorStart(lhs, rhs) == MajorEnd(lhs, rhs) <==> lhs == rhs
  {
  }

  /** The minor coordinate at `along` units past the start on the major axis: the slope
      equation `dMinor / dMajor * along + base`, rounded and cast to `u16`. */
  function MinorCoordinate(dMinor: int, dMajor: int, along: int, base: int): U16
    requires dMajor != 0
  {
    SatU16(Round((dMinor as real / dMajor as real) * along as real + base as real))
  }

  /** The point yielded for major coordinate `m`. */
  function PointAt(lhs: Point, rhs: Point, m: int): (p: Point)
    requires MajorStart(lhs, rhs) != MajorEnd(lhs, rhs)
    ensures Major(p, MajorIsX(lhs, rhs)) == m
  {
    var dx, dy := rhs.0 - lhs.0, rhs.1 - lhs.1;
    if MajorIsX(lhs, rhs) then
      (m, MinorCoordinate(dy, dx, m - lhs.0, lhs.1))
    else
      (MinorCoordinate(dx, dy, m - lhs.1, lhs.0), m)
  }

  /** What the iterator still yields when its counter is `i`: one point per call to `next`,
      moving one unit toward `rhs`; out of range, or when a downward step would leave 0, it stops. */
  function PointsFrom(lhs: Point, rhs: Point, i: int): seq<Point>
    decreases if MajorStart(lhs, rhs) < MajorEnd(lhs, rhs) then MajorEnd(lhs, rhs) - i else i - MajorEnd(lhs, rhs)
  {
    var a, b := MajorStart(lhs, rhs), MajorEnd(lhs, rhs);
    if a == b || !BetweenInclusive(a, b, i) then []
    else if a < b then [PointAt(lhs, rhs, i)] + PointsFrom(lhs, rhs, i + 1)
    else if i == 0 then []
    else [PointAt(lhs, rhs, i)] + PointsFrom(lhs, rhs, i - 1)
  }

  /** One step of `PointsFrom`, unfolded. */
  lemma PointsFromUnfold(lhs: Point, rhs: Point, i: int)
    ensures var a, b := MajorStart(lhs, rhs), MajorEnd(lhs, rhs);
      && (a == b || !BetweenInclusive(a, b, i) || (a > b && i == 0) ==> PointsFrom(lhs, rhs, i) == [])
      && (a != b && BetweenInclusive(a, b, i) && a < b ==>
            PointsFrom(lhs, rhs, i) == [PointAt(lhs, rhs, i)] + PointsFrom(lhs, rhs, i + 1))
      && (a != b && BetweenInclusive(a, b, i) && a > b && i != 0 ==>
            PointsFrom(lhs, rhs, i) == [PointAt(lhs, rhs, i)] + PointsFrom(lhs, rhs, i - 1))
  {
  }

  /** The whole sequence of `LinePointsIterator::new(lhs, rhs)`. */
  function LinePoints(lhs: Point, rhs: Point): seq<Point> {
    PointsFrom(lhs, rhs, MajorStart(lhs, rhs))
  }

  /** How many points remain from counter `i`, for a non-negative target coordinate. */
  function CountFrom(lhs: Point, rhs: Point, i: int): int {
    var a, b := MajorStart(lhs, rhs), MajorEnd(lhs, rhs);
    if a == b || !BetweenInclusive(a, b, i) then 0
    else if a < b then b - i + 1
    else i - Max(b, 1) + 1
  }

  /** The points remaining from `i` are `PointAt(i), PointAt(i + step), ...`, `CountFrom(i)` of them. */
  lemma {:induction false} PointsFromShape(lhs: Point, rhs: Point, i: int)
    requires 0 <= MajorEnd(lhs, rhs)
    ensures |PointsFrom(lhs, rhs, i)| == CountFrom(lhs, rhs, i)
    ensures MajorStart(lhs, rhs) != MajorEnd(lhs, rhs) ==>
      forall k :: 0 <= k < |PointsFrom(lhs, rhs, i)| ==>
        PointsFrom(lhs, rhs, i)[k] == PointAt(lhs, rhs, i + Step(lhs, rhs) * k)
    decreases if MajorStart(lhs, rhs) < MajorEnd(lhs, rhs) then MajorEnd(lhs, rhs) - i else i - MajorEnd(lhs, rhs)
  {
    var a, b := MajorStart(lhs, rhs), MajorEnd(lhs, rhs);
    if a == b || !BetweenInclusive(a, b, i) {
    } else if a < b || i != 0 {
      var next := if a < b then i + 1 else i - 1;
      PointsFromShape(lhs, rhs, next);
      var ps, rest := PointsFrom(lhs, rhs, i), PointsFrom(lhs, rhs, next);
      assert ps == [PointAt(lhs, rhs, i)] + rest;
      forall k | 0 <= k < |ps|
        ensures ps[k] == PointAt(lhs, rhs, i + Step(lhs, rhs) * k)
      {
        if k > 0 {
          assert ps[k] == rest[k - 1];
          assert next + Step(lhs, rhs) * (k - 1) == i + Step(lhs, rhs) * k;
        }
      }
    }
  }

  /** The shape of a whole line's point sequence for `u16` endpoints. */
  lemma LinePointsShape(lhs: Point, rhs: Point)
    requires InU16(lhs) && InU16(rhs)
    ensures var ps, a, b := LinePoints(lhs, rhs), MajorStart(lhs, rhs), MajorEnd(lhs, rhs);
      && (a == b ==> ps == [])
      && (a < b ==> |ps| == b - a + 1)
      && (a > b ==> |ps| == a - Max(b, 1) + 1)
      && (a != b ==> forall k :: 0 <= k < |ps| ==> ps[k] == PointAt(lhs, rhs, a + Step(lhs, rhs) * k))
  {
    PointsFromShape(lhs, rhs, MajorStart(lhs, rhs));
  }

  /** Every point of a `u16` segment is the point at some major coordinate `m` between
      the endpoints' major coordinates. */
  lemma MajorOfPoint(lhs: Point, rhs: Point, p: Point) returns (m: int)
    requires InU16(lhs) && InU16(rhs) && p in LinePoints(lhs, rhs)
    ensures MajorStart(lhs, rhs) != MajorEnd(lhs, rhs)
    ensures BetweenInclusive(MajorStart(lhs, rhs), MajorEnd(lhs, rhs), m) && p == PointAt(lhs, rhs, m)
  {
    LinePointsShape(lhs, rhs);
    var ps := LinePoints(lhs, rhs);
    var k :| 0 <= k < |ps| && ps[k] == p;
    m := MajorStart(lhs, rhs) + Step(lhs, rhs) * k;
  }

  /** A single-point segment yields nothing. */
  lemma DegenerateLineHasNoPoints(p: Point)
    ensures LinePoints(p, p) == []
    ensures p !in Line(p, p).Points()
  {
  }

  /** Any other `u16` segment yields at least one point, and the first has `lhs`'s major coordinate. */
  lemma FirstPointStartsAtLhs(lhs: Point, rhs: Point)
    requires InU16(lhs) && InU16(rhs) && lhs != rhs
    ensures |LinePoints(lhs, rhs)| > 0
    ensures Major(LinePoints(lhs, rhs)[0], MajorIsX(lhs, rhs)) == Major(lhs, MajorIsX(lhs, rhs))
  {
    LinePointsShape(lhs, rhs);
  }

  /** Consecutive points differ by exactly one unit on the major axis, toward `rhs`. */
  lemma ConsecutivePointsStepByOne(lhs: Point, rhs: Point)
    requires InU16(lhs) && InU16(rhs)
    ensures var ps, x := LinePoints(lhs, rhs), MajorIsX(lhs, rhs);
      forall k :: 0 <= k < |ps| - 1 ==>
        Major(ps[k + 1], x) == Major(ps[k], x) + (if Major(lhs, x) < Major(rhs, x) then 1 else -1)
  {
    LinePointsShape(lhs, rhs);
  }

  /** Every major coordinate yielded lies between the endpoints' major coordinates, and a
      downward walk never yields major coordinate 0. */
  lemma MajorCoordinatesInRange(lhs: Point, rhs: Point)
    requires InU16(lhs) && InU16(rhs)
    ensures var ps, x := LinePoints(lhs, rhs), MajorIsX(lhs, rhs);
      forall k :: 0 <= k < |ps| ==>
        && BetweenInclusive(Major(lhs, x), Major(rhs, x), Major(ps[k], x))
        && (Major(lhs, x) > Major(rhs, x) ==> Major(ps[k], x) >= 1)
  {
    LinePointsShape(lhs, rhs);
  }

  /** Unless a downward walk is cut short at coordinate 1, the sequence has `|major diff| + 1`
      points and ends at `rhs`'s major coordinate; when it is cut short it ends at 1. */
  lemma LastPointReachesRhs(lhs: Point, rhs: Point)
    requires InU16(lhs) && InU16(rhs) && lhs != rhs
    ensures var ps, a, b := LinePoints(lhs, rhs), MajorStart(lhs, rhs), MajorEnd(lhs, rhs);
      && |ps| > 0
      && (a < b || b >= 1 ==> |ps| == Abs(b - a) + 1 && Major(ps[|ps| - 1], MajorIsX(lhs, rhs)) == b)
      && (a > b && b == 0 ==> |ps| == a && Major(ps[|ps| - 1], MajorIsX(lhs, rhs)) == 1)
  {
    LinePointsShape(lhs, rhs);
  }

  /** One call of `next` on the major axis with the counter as the source declares it, a
      `u16`: an upward step past 65535 wraps to 0 (a release build; a debug build panics). */
  function NextWithU16Counter(lhs: Point, rhs: Point, i: int): (r: Option<(Point, int)>)
    requires MajorStart(lhs, rhs) != MajorEnd(lhs, rhs)
    ensures r.Some? ==> Major(r.value.0, MajorIsX(lhs, rhs)) == i
  {
    var a, b := MajorStart(lhs, rhs), MajorEnd(lhs, rhs);
    if !BetweenInclusive(a, b, i) then None
    else if a < b then Some((PointAt(lhs, rhs, i), (i + 1) % 0x1_0000))
    else if i == 0 then None
    else Some((PointAt(lhs, rhs, i), i - 1))
  }

  /** On the full-width segment from (0, 0) to (65535, 0) the wrapping counter never runs
      out: every `u16` counter yields a point and moves to another `u16` counter, and the
      step after 65535 is back at the start. */
  lemma FullWidthWalkNeverEnds()
    ensures forall i :: 0 <= i < 0x1_0000 ==>
      && NextWithU16Counter((0, 0), (0xFFFF, 0), i).Some?
      && 0 <= NextWithU16Counter((0, 0), (0xFFFF, 0), i).value.1 < 0x1_0000
    ensures NextWithU16Counter((0, 0), (0xFFFF, 0), 0xFFFF).value.1 == MajorStart((0, 0), (0xFFFF, 0))
  {
    var lhs, rhs := (0, 0), (0xFFFF, 0);
    assert MajorIsX(lhs, rhs) && MajorStart(lhs, rhs) == 0 && MajorEnd(lhs, rhs) == 0xFFFF;
  }

  /** A horizontal `u16` segment yields only points on its own row, so `is_point_on` for
      a point off that row, such as (5, 3) on the full-width segment above, walks until the
      iterator ends, which with the wrapping counter is never. */
  lemma HorizontalLineStaysOnItsRow(lhs: Point, rhs: Point, p: Point)
    requires InU16(lhs) && InU16(rhs) && lhs.1 == rhs.1
    requires p.1 != lhs.1
    ensures p !in LinePoints(lhs, rhs)
  {
    if p in LinePoints(lhs, rhs) {
      var m := MajorOfPoint(lhs, rhs, p);
      FlatMinorCoordinate(rhs.0 - lhs.0, m - lhs.0, lhs.1);
    }
  }

  /** With no change on the minor axis the minor coordinate stays at its base. */
  lemma FlatMinorCoordinate(dMajor: int, along: int, base: int)
    requires dMajor != 0 && 0 <= base < 0x1_0000
    ensures MinorCoordinate(0, dMajor, along, base) == base
  {
    assert 0 as real / dMajor as real == 0.0;
  }

  /** A segment between two points; `start` need not come before `end`. */
  datatype Line = Line(start: Point, end: Point) {

    /** `x_range`: `min..=max` of the endpoints' x coordinates. */
    function XRange(): (r: RangeInclusive)
      ensures r.lo <= r.hi
      ensures (r.lo, r.hi) == (start.0, end.0) || (r.lo, r.hi) == (end.0, start.0)
    {
      RangeInclusive(Min(start.0, end.0), Max(start.0, end.0))
    }

    /** `y_range`: `min..=max` of the endpoints' y coordinates. */
    function YRange(): (r: RangeInclusive)
      ensures r.lo <= r.hi
      ensures (r.lo, r.hi) == (start.1, end.1) || (r.lo, r.hi) == (end.1, start.1)
    {
      RangeInclusive(Min(start.1, end.1), Max(start.1, end.1))
    }

    /** The points that `iter()` yields. */
    function Points(): seq<Point> {
      LinePoints(start, end)
    }

    /** `iter`: a fresh iterator over the segment's points. */
    method Iter() returns (it: LinePointsIterator)
      ensures fresh(it) && it.Valid() && it.Rest() == Points()
    {
      it := new LinePointsIterator(start, end);
    }

    /** `is_point_on`: runs the iterator until it yields `p` or runs out. */
    method IsPointOn(p: Point) returns (found: bool)
      ensures found <==> p in Points()
    {
      var it := Iter();
      while true
        invariant it.Valid()
        invariant p in Points() <==> p in it.Rest()
        decreases |it.Rest()|
      {
        var q := it.Next();
        match q {
          case None => return false;
          case Some(v) =>
            if v == p {
              return true;
            }
        }
      }
    }
  }

  /** The ranges of a segment do not depend on its direction. */
  lemma RangesIgnoreDirection(a: Point, b: Point)
    ensures Line(a, b).XRange() == Line(b, a).XRange()
    ensures Line(a, b).YRange() == Line(b, a).YRange()
  {
  }

  /** A point on a `u16` segment lies in the segment's range along the major axis. */
  lemma PointsWithinMajorRange(line: Line, p: Point)
    requires InU16(line.start) && InU16(line.end)
    requires p in line.Points()
    ensures MajorIsX(line.start, line.end) ==> line.XRange().Contains(p.0)
    ensures !MajorIsX(line.start, line.end) ==> line.YRange().Contains(p.1)
  {
    MajorCoordinatesInRange(line.start, line.end);
    var k :| 0 <= k < |line.Points()| && line.Points()[k] == p;
  }

  /** `LinePointsIterator`: a lazy walk along the major axis with the counter `i`. */
  class LinePointsIterator {
    const diffX: int
    const diffY: int
    var i: int
    const lhs: Point
    const rhs: Point

    ghost predicate Valid()
      reads this
    {
      diffX == rhs.0 - lhs.0 && diffY == rhs.1 - lhs.1
    }

    /** The points still to be yielded. */
    ghost function Rest(): seq<Point>
      reads this
    {
      PointsFrom(lhs, rhs, i)
    }

    /** `LinePointsIterator::new`: the counter starts at `lhs`'s major coordinate. */
    constructor (lhs: Point, rhs: Point)
      ensures Valid() && this.lhs == lhs && this.rhs == rhs
      ensures Rest() == LinePoints(lhs, rhs)
    {
      diffX := rhs.0 - lhs.0;
      diffY := rhs.1 - lhs.1;
      i := if Abs(rhs.0 - lhs.0) >= Abs(rhs.1 - lhs.1) then lhs.0 else lhs.1;
      this.lhs := lhs;
      this.rhs := rhs;
    }

    /** `Iterator::next`: yields the next point and advances the counter, or yields nothing. */
    method Next() returns (p: Option<Point>)
      requires Valid()
      modifies this`i
      ensures Valid()
      ensures old(Rest()) == [] ==> p.None? && Rest() == []
      ensures old(Rest()) != [] ==> p == Some(old(Rest())[0]) && Rest() == old(Rest())[1..]
    {
      PointsFromUnfold(lhs, rhs, i);
      if Abs(diffX) >= Abs(diffY) {
        assert MajorIsX(lhs, rhs);
        if diffX != 0 {
          if !BetweenInclusive(lhs.0, rhs.0, i) {
            return None;
          }
          var x := i;
          if lhs.0 < rhs.0 {
            i := i + 1;
          } else {
            if i == 0 {
              return None;
            }
            i := i - 1;
          }
          var y := MinorCoordinate(diffY, diffX, x - lhs.0, lhs.1);
          assert (x, y) == PointAt(lhs, rhs, x);
          return Some((x, y));
        }
      } else {
        assert !MajorIsX(lhs, rhs);
        if diffY != 0 {
          if !BetweenInclusive(lhs.1, rhs.1, i) {
            return None;
          }
          var y := i;
          if lhs.1 < rhs.1 {
            i := i + 1;
          } else {
            if i == 0 {
              return None;
            }
            i := i - 1;
          }
          var x := MinorCoordinate(diffX, diffY, y - lhs.1, lhs.0);
          assert (x, y) == PointAt(lhs, rhs, y);
          return Some((x, y));
        }
      }
      return None;
    }
  }
}
