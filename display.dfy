/** The two display helpers of the version-2 engine (calculations.ts:398-416): thinning the
    monthly chart before it is drawn, and rounding a value to a precision that depends on its
    size. */
module Display {
  import opened Numerics
  import opened Types

  /** The test `sampleChartData` keeps a point by: a year boundary, every third index, or the
      last point. */
  predicate Kept(points: seq<ChartDataPoint>, index: int)
    requires 0 <= index < |points|
  {
    points[index].month % 12 == 0 || index % 3 == 0 || index == |points| - 1
  }

  /** The filter from `index` on, one point at a time. */
  function SampleFrom(points: seq<ChartDataPoint>, index: nat): seq<ChartDataPoint>
    requires index <= |points|
    decreases |points| - index
  {
    if index == |points| then []
    else (if Kept(points, index) then [points[index]] else []) + SampleFrom(points, index + 1)
  }

  /** The indices from `index` on that the filter keeps, in increasing order. */
  function KeptIndices(points: seq<ChartDataPoint>, index: nat): (r: seq<nat>)
    requires index <= |points|
    ensures |r| <= |points| - index
    ensures forall j :: 0 <= j < |r| ==> index <= r[j] < |points|
    decreases |points| - index
  {
    if index == |points| then []
    else if Kept(points, index) then [index] + KeptIndices(points, index + 1)
    else KeptIndices(points, index + 1)
  }

  /** The kept indices are kept, lie in range and increase strictly; there are no more of
      them than indices left. */
  lemma {:induction false} KeptIndicesSound(points: seq<ChartDataPoint>, index: nat)
    requires index <= |points|
    ensures forall j :: 0 <= j < |KeptIndices(points, index)| ==> Kept(points, KeptIndices(points, index)[j])
    ensures forall a, b :: 0 <= a < b < |KeptIndices(points, index)| ==>
              KeptIndices(points, index)[a] < KeptIndices(points, index)[b]
    decreases |points| - index
  {
    if index < |points| {
      KeptIndicesSound(points, index + 1);
      var r, r' := KeptIndices(points, index), KeptIndices(points, index + 1);
      if Kept(points, index) {
        assert r == [index] + r';
        forall j | 0 < j < |r| ensures Kept(points, r[j]) && r[j] > index {
          assert r[j] == r'[j - 1];
        }
        forall a, b | 0 < a < b < |r| ensures r[a] < r[b] {
          assert r[a] == r'[a - 1] && r[b] == r'[b - 1];
        }
      }
    }
  }

  /** Every kept index from `index` on is listed, and the list ends with the last index. */
  lemma {:induction false} KeptIndicesComplete(points: seq<ChartDataPoint>, index: nat)
    requires index <= |points|
    ensures forall i :: index <= i < |points| && Kept(points, i) ==> i in KeptIndices(points, index)
    ensures index < |points| ==>
              |KeptIndices(points, index)| > 0 && KeptIndices(points, index)[|KeptIndices(points, index)| - 1] == |points| - 1
    decreases |points| - index
  {
    if index < |points| {
      KeptIndicesComplete(points, index + 1);
      if index == |points| - 1 {
        assert Kept(points, index);
      }
    }
  }

  /** The filter from `index` on keeps the points at `KeptIndices(points, index)`. */
  lemma {:induction false} SampleFromIsKeptPoints(points: seq<ChartDataPoint>, index: nat)
    requires index <= |points|
    ensures |SampleFrom(points, index)| == |KeptIndices(points, index)|
    ensures forall j :: 0 <= j < |SampleFrom(points, index)| ==>
              SampleFrom(points, index)[j] == points[KeptIndices(points, index)[j]]
    decreases |points| - index
  {
    if index < |points| {
      SampleFromIsKeptPoints(points, index + 1);
      var s, s' := SampleFrom(points, index), SampleFrom(points, index + 1);
      var r, r' := KeptIndices(points, index), KeptIndices(points, index + 1);
      if Kept(points, index) {
        assert s == [points[index]] + s' && r == [index] + r';
        forall j | 0 < j < |s| ensures s[j] == points[r[j]] {
          assert s[j] == s'[j - 1] && r[j] == r'[j - 1];
        }
      } else {
        assert s == s' && r == r';
      }
    }
  }

  /** `sampleChartData`: the order-preserving subsequence of the points at exactly the kept
      indices, which include the first point, the last point and every year boundary. */
  function SampleChartData(points: seq<ChartDataPoint>): (r: seq<ChartDataPoint>)
    ensures |r| == |KeptIndices(points, 0)|
    ensures forall j :: 0 <= j < |r| ==> r[j] == points[KeptIndices(points, 0)[j]]
    ensures forall i :: 0 <= i < |points| ==> (i in KeptIndices(points, 0) <==> Kept(points, i))
  {
    SampleFromIsKeptPoints(points, 0);
    KeptIndicesSound(points, 0);
    KeptIndicesComplete(points, 0);
    SampleFrom(points, 0)
  }

  /** A non-empty chart keeps its first and last points, in those places, and no more points
      than it had. */
  lemma SampleKeepsEnds(points: seq<ChartDataPoint>)
    requires |points| > 0
    ensures |SampleChartData(points)| <= |points|
    ensures |SampleChartData(points)| > 0
    ensures SampleChartData(points)[0] == points[0]
    ensures SampleChartData(points)[|SampleChartData(points)| - 1] == points[|points| - 1]
  {
    var r := KeptIndices(points, 0);
    assert Kept(points, 0);
    assert r[0] == 0;
    KeptIndicesSound(points, 0);
    KeptIndicesComplete(points, 0);
  }

  /** Every year boundary of the chart survives sampling. */
  lemma SampleKeepsYearBoundaries(points: seq<ChartDataPoint>, i: nat)
    requires i < |points| && points[i].month % 12 == 0
    ensures exists j :: 0 <= j < |SampleChartData(points)| && SampleChartData(points)[j] == points[i]
  {
    var r := KeptIndices(points, 0);
    assert Kept(points, i);
    assert |SampleChartData(points)| == |r|;
    assert i in r;
    var j :| 0 <= j < |r| && r[j] == i;
    assert SampleChartData(points)[j] == points[i];
  }

  /** `roundForDisplay`: to the nearest 1000 from a magnitude of a million, to the nearest 100
      from ten thousand, to the nearest 10 from a thousand, and to the nearest whole number
      below that. */
  function RoundForDisplay(value: real): real
  {
    if Abs(value) >= 1000000.0 then RoundToUnit(value, 1000.0)
    else if Abs(value) >= 10000.0 then RoundToUnit(value, 100.0)
    else if Abs(value) >= 1000.0 then RoundToUnit(value, 10.0)
    else Round(value) as real
  }

  /** The unit `roundForDisplay` rounds a value to. */
  function DisplayUnit(value: real): (unit: real)
    ensures unit > 0.0
  {
    if Abs(value) >= 1000000.0 then 1000.0
    else if Abs(value) >= 10000.0 then 100.0
    else if Abs(value) >= 1000.0 then 10.0
    else 1.0
  }

  /** Every tier of `roundForDisplay` is rounding to the tier's unit. */
  lemma RoundForDisplayIsRoundToUnit(value: real)
    ensures RoundForDisplay(value) == RoundToUnit(value, DisplayUnit(value))
  {
    if Abs(value) < 1000.0 {
      assert value / 1.0 == value;
    }
  }

  /** The displayed value is a whole multiple of its tier's unit, and no multiple of that unit
      is nearer to the value. */
  lemma RoundForDisplayIsNearest(value: real, m: int)
    ensures IsMultipleOf(RoundForDisplay(value), DisplayUnit(value))
    ensures Abs(RoundForDisplay(value) - value) <= DisplayUnit(value) / 2.0
    ensures Abs(RoundForDisplay(value) - value) <= Abs(m as real * DisplayUnit(value) - value)
  {
    RoundForDisplayIsRoundToUnit(value);
    RoundToUnitIsNearest(value, DisplayUnit(value), m);
  }
}
