/**
 * The point helpers of the contour tracers: the four lattice neighbours of
 * `_get_adjacent_coords`, and the map from coordinates measured in units of
 * the parameter errors (relative to the minimum) to parameter values, for a
 * single point (`_transform_coordinates`) and for a whole contour
 * (`_transform_contour`).
 */
module ContourPoints {
  import opened PyBase

  type Coords = (int, int)

  // ---------------------------------------------------------------------------
  // `_get_adjacent_coords` (lines 472-476)

  /** The four lattice neighbours of `c`, clockwise from the one above:
      north, east, south, west. */
  function AdjacentCoords(c: Coords): (r: seq<Coords>)
    ensures |r| == 4
  {
    [(c.0, c.1 + 1), (c.0 + 1, c.1), (c.0, c.1 - 1), (c.0 - 1, c.1)]
  }

  function Abs(x: int): nat {
    if x < 0 then -x else x
  }

  /** The lattice points at distance one from `c`, the reference the
      neighbour list is checked against. */
  predicate Touches(c: Coords, d: Coords) {
    Abs(d.0 - c.0) + Abs(d.1 - c.1) == 1
  }

  /** The neighbours are exactly the points touching `c`, each listed once. */
  lemma AdjacentAreTouching(c: Coords)
    ensures forall d :: d in AdjacentCoords(c) <==> Touches(c, d)
    ensures forall i, j :: 0 <= i < j < 4 ==> AdjacentCoords(c)[i] != AdjacentCoords(c)[j]
  {
    forall d | Touches(c, d)
      ensures d in AdjacentCoords(c)
    {
      var dx, dy := d.0 - c.0, d.1 - c.1;
      if dx == 0 {
        assert d == (c.0, c.1 + 1) || d == (c.0, c.1 - 1);
      } else {
        assert dy == 0;
        assert d == (c.0 + 1, c.1) || d == (c.0 - 1, c.1);
      }
    }
  }

  /** Direction `(i + 2) % 4` leads back: the neighbour reached in direction
      `i` has `c` as its neighbour in the opposite direction. This is what
      `_contour_old` relies on when it bars the way back (line 274). */
  lemma AdjacentReversal(c: Coords, i: int)
    requires 0 <= i < 4
    ensures AdjacentCoords(AdjacentCoords(c)[i])[(i + 2) % 4] == c
  {
  }

  /** Each direction is the previous one turned a quarter clockwise:
      an offset `(dx, dy)` becomes `(dy, -dx)`. */
  lemma AdjacentClockwise(c: Coords, i: int)
    requires 0 <= i < 3
    ensures var r := AdjacentCoords(c);
      r[i + 1].0 - c.0 == r[i].1 - c.1 && r[i + 1].1 - c.1 == -(r[i].0 - c.0)
  {
  }

  // ---------------------------------------------------------------------------
  // `_transform_coordinates` (lines 559-561)

  /** `minimum + sigma_coordinates * errors`, component by component. */
  function TransformCoordinates(minimum: Vec2, p: Vec2, errors: Vec2): Vec2 {
    (minimum.0 + Times(p.0, errors.0), minimum.1 + Times(p.1, errors.1))
  }

  /** A product of reals, named so that the solver does not reason about
      products where it does not need to. */
  function Times(a: real, b: real): real {
    a * b
  }

  /** The inverse map, for non-zero errors: a parameter point in units of the
      errors, relative to the minimum. */
  function SigmaCoordinates(minimum: Vec2, q: Vec2, errors: Vec2): Vec2
    requires errors.0 != 0.0 && errors.1 != 0.0
  {
    ((q.0 - minimum.0) / errors.0, (q.1 - minimum.1) / errors.1)
  }

  lemma TimesDivides(a: real, b: real)
    requires b != 0.0
    ensures Times(a, b) / b == a && Times(a / b, b) == a
  {
  }

  /** With non-zero errors the transform has an inverse on both sides. */
  lemma TransformRoundTrip(minimum: Vec2, p: Vec2, q: Vec2, errors: Vec2)
    requires errors.0 != 0.0 && errors.1 != 0.0
    ensures SigmaCoordinates(minimum, TransformCoordinates(minimum, p, errors), errors) == p
    ensures TransformCoordinates(minimum, SigmaCoordinates(minimum, q, errors), errors) == q
  {
    TimesDivides(p.0, errors.0);
    TimesDivides(p.1, errors.1);
    TimesDivides(q.0 - minimum.0, errors.0);
    TimesDivides(q.1 - minimum.1, errors.1);
  }

  /** The sigma origin is the minimum itself. */
  lemma TransformOrigin(minimum: Vec2, errors: Vec2)
    ensures TransformCoordinates(minimum, (0.0, 0.0), errors) == minimum
  {
  }

  ghost predicate Injective(minimum: Vec2, errors: Vec2) {
    forall p, q :: TransformCoordinates(minimum, p, errors) == TransformCoordinates(minimum, q, errors) ==> p == q
  }

  /** The transform tells points apart exactly when neither error is zero;
      a zero error collapses its whole axis onto the minimum. */
  lemma InjectiveIff(minimum: Vec2, errors: Vec2)
    ensures Injective(minimum, errors) <==> errors.0 != 0.0 && errors.1 != 0.0
  {
    if errors.0 != 0.0 && errors.1 != 0.0 {
      forall p, q | TransformCoordinates(minimum, p, errors) == TransformCoordinates(minimum, q, errors)
        ensures p == q
      {
        TransformRoundTrip(minimum, p, q, errors);
        TransformRoundTrip(minimum, q, p, errors);
      }
    } else {
      var p, q := (0.0, 0.0), if errors.0 == 0.0 then (1.0, 0.0) else (0.0, 1.0);
      assert TransformCoordinates(minimum, p, errors) == TransformCoordinates(minimum, q, errors);
    }
  }

  // ---------------------------------------------------------------------------
  // `_transform_contour` (lines 563-568)

  /** Every point of a contour in sigma coordinates, transformed, in order. */
  function TransformedContour(minimum: Vec2, contour: seq<Vec2>, errors: Vec2): (r: seq<Vec2>) {
    seq(|contour|, i requires 0 <= i < |contour| => TransformCoordinates(minimum, contour[i], errors))
  }

  /** `_transform_contour`: the loop appending each transformed point. */
  method TransformContour(minimum: Vec2, contour: seq<Vec2>, errors: Vec2) returns (r: seq<Vec2>)
    ensures r == TransformedContour(minimum, contour, errors)
  {
    r := [];
    for k := 0 to |contour|
      invariant r == TransformedContour(minimum, contour[..k], errors)
    {
      assert contour[..k + 1] == contour[..k] + [contour[k]];
      r := r + [TransformCoordinates(minimum, contour[k], errors)];
    }
    assert contour[..|contour|] == contour;
  }

  /** The transform keeps the length and the order: point `i` of the result
      is point `i` of the contour, transformed. */
  lemma TransformedPointwise(minimum: Vec2, contour: seq<Vec2>, errors: Vec2, i: int)
    requires 0 <= i < |contour|
    ensures |TransformedContour(minimum, contour, errors)| == |contour|
    ensures TransformedContour(minimum, contour, errors)[i] == TransformCoordinates(minimum, contour[i], errors)
  {
  }

  /** Transforming commutes with the tracer's two edits of its contour:
      appending a point and dropping the last one. */
  lemma TransformedEdits(minimum: Vec2, contour: seq<Vec2>, p: Vec2, errors: Vec2)
    ensures TransformedContour(minimum, contour + [p], errors)
      == TransformedContour(minimum, contour, errors) + [TransformCoordinates(minimum, p, errors)]
    ensures |contour| > 0 ==>
      TransformedContour(minimum, contour[..|contour| - 1], errors) == TransformedContour(minimum, contour, errors)[..|contour| - 1]
  {
  }

  /** With non-zero errors the sigma contour can be read back from the result. */
  lemma TransformedContourInverse(minimum: Vec2, contour: seq<Vec2>, errors: Vec2)
    requires errors.0 != 0.0 && errors.1 != 0.0
    ensures var t := TransformedContour(minimum, contour, errors);
      seq(|t|, i requires 0 <= i < |t| => SigmaCoordinates(minimum, t[i], errors)) == contour
  {
    var t := TransformedContour(minimum, contour, errors);
    forall i | 0 <= i < |t|
      ensures SigmaCoordinates(minimum, t[i], errors) == contour[i]
    {
      TransformRoundTrip(minimum, contour[i], contour[i], errors);
    }
  }
}
