/** A triangle of three two-coordinate points. The coordinates are `f32`
    values that are only copied, so their type is a parameter. */
module Triangles {
  datatype Triangle<F> = Triangle(points: seq<seq<F>>)

  /** The `[[f32; 2]; 3]` shape. */
  predicate Shaped<F>(t: Triangle<F>)
  {
    |t.points| == 3 && forall i :: 0 <= i < 3 ==> |t.points[i]| == 2
  }

  /** `points_flat`: the six coordinates, point by point. */
  function PointsFlat<F>(t: Triangle<F>): (r: seq<F>)
    requires Shaped(t)
    ensures |r| == 6
    ensures forall i :: 0 <= i < 3 ==> r[2 * i] == t.points[i][0] && r[2 * i + 1] == t.points[i][1]
  {
    [t.points[0][0], t.points[0][1], t.points[1][0], t.points[1][1], t.points[2][0], t.points[2][1]]
  }

  /** Regrouping six coordinates into three points. */
  function FromFlat<F>(r: seq<F>): (t: Triangle<F>)
    requires |r| == 6
    ensures Shaped(t)
  {
    Triangle([r[0..2], r[2..4], r[4..6]])
  }

  /** Flattening loses nothing: regrouping gives back the same triangle. */
  lemma FlatRoundTrip<F>(t: Triangle<F>)
    requires Shaped(t)
    ensures FromFlat(PointsFlat(t)) == t
  {
    var r := PointsFlat(t);
    forall i | 0 <= i < 3
      ensures r[2 * i..2 * i + 2] == t.points[i]
    {
      assert r[2 * i..2 * i + 2] == [r[2 * i], r[2 * i + 1]];
    }
    assert FromFlat(r).points == [r[0..2], r[2..4], r[4..6]];
  }
}
