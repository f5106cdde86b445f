/**
 * One spherical cap of a Kusudama swing constraint, with the tangent circles that join it to
 * the next cap of the sequence, and the dot/cross tests that classify and rectify a direction.
 * Directions are exact real vectors; a NaN "no result" vector is `None`.
 */
module LimitCones {
  import opened Wrappers
  import opened GodotMath

  /** The two modes of the tangent-circle accessors: the hard boundary and the cushion boundary. */
  const BOUNDARY: int := 0
  const CUSHION: int := 1

  /** Stands for the Ref<IKKusudama> a cone is attached to; the Kusudama itself is not modelled. */
  type KusudamaRef = nat

  /** MAX(DBL_TRUE_MIN, rad): the radius a new cone keeps, which is always strictly positive. */
  function ClampedRadius(rad: real): (r: real)
    ensures r > 0.0
    ensures r >= DBL_TRUE_MIN && r >= rad
    ensures r == rad || r == DBL_TRUE_MIN
  {
    if DBL_TRUE_MIN > rad then DBL_TRUE_MIN else rad
  }

  class LimitCone {
    var controlPoint: Vec3
    var radius: real
    var radiusCosine: real
    var cushionRadius: real
    var cushionCosine: real
    var parentKusudama: KusudamaRef

    var tangentCircleCenterNext1: Vec3
    var tangentCircleCenterNext2: Vec3
    var tangentCircleRadiusNext: real
    var tangentCircleRadiusNextCos: real

    var cushionTangentCircleCenterNext1: Vec3
    var cushionTangentCircleCenterNext2: Vec3
    var cushionTangentCircleRadiusNext: real
    var cushionTangentCircleRadiusNextCos: real

    /**
     * LimitCone(direction, rad, attachedTo): the axis is the normalized direction, the radius is
     * kept strictly positive, the cushion copies the hard boundary, and the two tangent centres
     * start at the axis and its antipode.
     */
    constructor (direction: Vec3, rad: real, attachedTo: KusudamaRef, e: Engine)
      ensures controlPoint == e.normalized(direction)
      ensures tangentCircleCenterNext1 == controlPoint
      ensures tangentCircleCenterNext2 == Scale(controlPoint, -1.0)
      ensures radius == ClampedRadius(rad) && radius > 0.0
      ensures radiusCosine == e.cos(radius)
      ensures cushionRadius == radius && cushionCosine == radiusCosine
      ensures parentKusudama == attachedTo
      ensures tangentCircleRadiusNext == 0.0 && tangentCircleRadiusNextCos == 0.0
      ensures cushionTangentCircleCenterNext1 == Zero && cushionTangentCircleCenterNext2 == Zero
      ensures cushionTangentCircleRadiusNext == 0.0 && cushionTangentCircleRadiusNextCos == 0.0
    {
      var axis := e.normalized(direction);
      var r := ClampedRadius(rad);
      controlPoint := Zero;
      tangentCircleRadiusNext, tangentCircleRadiusNextCos := 0.0, 0.0;
      cushionTangentCircleCenterNext1, cushionTangentCircleCenterNext2 := Zero, Zero;
      cushionTangentCircleRadiusNext, cushionTangentCircleRadiusNextCos := 0.0, 0.0;
      tangentCircleCenterNext1 := axis;
      tangentCircleCenterNext2 := Scale(axis, -1.0);
      radius, radiusCosine := r, e.cos(r);
      cushionRadius, cushionCosine := r, e.cos(r);
      parentKusudama := attachedTo;
      new;
      SetControlPoint(direction, e);
    }

    /** setControlPoint: stores the normalized point, of unit length unless the point is zero. */
    method SetControlPoint(point: Vec3, e: Engine)
      modifies this`controlPoint
      ensures controlPoint == e.normalized(point)
      ensures Sound(e) && LengthSquared(point) > 0.0 ==> LengthSquared(controlPoint) == 1.0
      ensures Sound(e) && LengthSquared(point) == 0.0 ==> controlPoint == Zero
    {
      controlPoint := e.normalized(point);
    }

    /** The test closestToCone makes: the input lies strictly inside this cap. */
    predicate Contains(input: Vec3)
      reads this
    {
      Dot(input, controlPoint) > radiusCosine
    }

    /**
     * closestCone: the axis, of this cone or the next, that has the larger dot product with the
     * input, that is, the angularly nearer one; on a tie the next cone's axis.
     */
    function ClosestCone(next: LimitCone, input: Vec3): (r: Vec3)
      reads this, next
      ensures r == controlPoint || r == next.controlPoint
      ensures Dot(input, r) >= Dot(input, controlPoint)
      ensures Dot(input, r) >= Dot(input, next.controlPoint)
      ensures Dot(input, controlPoint) <= Dot(input, next.controlPoint) ==> r == next.controlPoint
    {
      if Dot(input, controlPoint) > Dot(input, next.controlPoint) then controlPoint
      else next.controlPoint
    }

    /**
     * What closestToCone returns: no result for an input inside the cap, otherwise the axis
     * rotated by exactly the radius about the axis of the plane through the axis and the input.
     */
    function RectifiedToCone(input: Vec3, e: Engine): (r: Option<Vec3>)
      reads this
      ensures r.None? <==> Contains(input)
    {
      if Contains(input) then None
      else Some(e.rotate(Cross(controlPoint, input), radius, controlPoint))
    }

    /** closestToCone: reports through inBounds[0] whether the cap holds the input. */
    method ClosestToCone(input: Vec3, inBounds: array<bool>, e: Engine) returns (r: Option<Vec3>)
      requires inBounds.Length > 0
      modifies inBounds
      ensures inBounds[0] == Contains(input)
      ensures forall k :: 1 <= k < inBounds.Length ==> inBounds[k] == old(inBounds[k])
      ensures r == RectifiedToCone(input, e)
    {
      if Dot(input, controlPoint) > radiusCosine {
        inBounds[0] := true;
        return None;
      }
      var axis := Cross(controlPoint, input);
      r := Some(e.rotate(axis, radius, controlPoint));
      inBounds[0] := false;
    }

    /**
     * What closestPointOnClosestCone returns: no result when either cap holds the input,
     * otherwise whichever of the two rectified points is nearer the input, the second on a tie.
     */
    function ClosestPointOnClosestConeResult(next: LimitCone, input: Vec3, e: Engine): (r: Option<Vec3>)
      reads this, next
      ensures r.None? <==> Contains(input) || next.Contains(input)
      ensures r.Some? ==>
        && (r == RectifiedToCone(input, e) || r == next.RectifiedToCone(input, e))
        && Dot(input, r.value) >= Dot(input, RectifiedToCone(input, e).value)
        && Dot(input, r.value) >= Dot(input, next.RectifiedToCone(input, e).value)
      ensures r.Some? && Dot(input, RectifiedToCone(input, e).value)
                         <= Dot(input, next.RectifiedToCone(input, e).value) ==>
        r == next.RectifiedToCone(input, e)
    {
      if Contains(input) || next.Contains(input) then None
      else
        var toFirst := RectifiedToCone(input, e).value;
        var toSecond := next.RectifiedToCone(input, e).value;
        if Dot(input, toFirst) > Dot(input, toSecond) then Some(toFirst) else Some(toSecond)
    }

    /**
     * closestPointOnClosestCone: asks this cone, then the next, through the same inBounds flag;
     * the flag ends up true exactly when one of the two caps holds the input.
     */
    method ClosestPointOnClosestCone(next: LimitCone, input: Vec3, inBounds: array<bool>, e: Engine)
      returns (r: Option<Vec3>)
      requires inBounds.Length > 0
      modifies inBounds
      ensures inBounds[0] == (Contains(input) || next.Contains(input))
      ensures forall k :: 1 <= k < inBounds.Length ==> inBounds[k] == old(inBounds[k])
      ensures r == ClosestPointOnClosestConeResult(next, input, e)
    {
      var closestToFirst := ClosestToCone(input, inBounds, e);
      if inBounds[0] {
        return closestToFirst;
      }
      var closestToSecond := next.ClosestToCone(input, inBounds, e);
      if inBounds[0] {
        return closestToSecond;
      }
      var cosToFirst := Dot(input, closestToFirst.value);
      var cosToSecond := Dot(input, closestToSecond.value);
      if cosToFirst > cosToSecond {
        r := closestToFirst;
      } else {
        r := closestToSecond;
      }
    }

    /** The side test of getOnGreatTangentTriangle: the negative side of c1 x c2 picks tangent circle 1. */
    predicate OnFirstTangentSide(next: LimitCone, input: Vec3)
      reads this, next
    {
      Dot(input, Cross(controlPoint, next.controlPoint)) < 0.0
    }

    /** The tangent centre on the input's side of the great circle through the two axes. */
    function SelectedTangentCenter(next: LimitCone, input: Vec3): Vec3
      reads this, next
    {
      if OnFirstTangentSide(next, input) then tangentCircleCenterNext1 else tangentCircleCenterNext2
    }

    /**
     * The input lies in the great tangent triangle of its side: strictly inside the two
     * half-spaces bounded by the great circles from each axis to the selected tangent centre.
     */
    predicate InGreatTangentTriangle(next: LimitCone, input: Vec3)
      reads this, next
    {
      if OnFirstTangentSide(next, input) then
        Dot(input, Cross(controlPoint, tangentCircleCenterNext1)) > 0.0
        && Dot(input, Cross(tangentCircleCenterNext1, next.controlPoint)) > 0.0
      else
        Dot(input, Cross(tangentCircleCenterNext2, controlPoint)) > 0.0
        && Dot(input, Cross(next.controlPoint, tangentCircleCenterNext2)) > 0.0
    }

    /**
     * getOnGreatTangentTriangle: no result outside the great tangent triangle; inside it, an
     * input within the selected tangent circle is pushed onto that circle, any other input is
     * returned as it is.
     */
    function GetOnGreatTangentTriangle(next: LimitCone, input: Vec3, e: Engine): (r: Option<Vec3>)
      reads this, next
      ensures r.Some? <==> InGreatTangentTriangle(next, input)
      ensures r.Some? && Dot(input, SelectedTangentCenter(next, input)) <= tangentCircleRadiusNextCos ==>
        r.value == input
      ensures r.Some? && Dot(input, SelectedTangentCenter(next, input)) > tangentCircleRadiusNextCos ==>
        var center := SelectedTangentCenter(next, input);
        r.value == e.rotate(Cross(center, input), tangentCircleRadiusNext, center)
    {
      var c1xc2 := Cross(controlPoint, next.controlPoint);
      var c1c2dir := Dot(input, c1xc2);
      if c1c2dir < 0.0 then
        var c1xt1 := Cross(controlPoint, tangentCircleCenterNext1);
        var t1xc2 := Cross(tangentCircleCenterNext1, next.controlPoint);
        if Dot(input, c1xt1) > 0.0 && Dot(input, t1xc2) > 0.0 then
          var toNextCos := Dot(input, tangentCircleCenterNext1);
          if toNextCos > tangentCircleRadiusNextCos then
            var planeNormal := Cross(tangentCircleCenterNext1, input);
            Some(e.rotate(planeNormal, tangentCircleRadiusNext, tangentCircleCenterNext1))
          else
            Some(input)
        else
          None
      else
        var t2xc1 := Cross(tangentCircleCenterNext2, controlPoint);
        var c2xt2 := Cross(next.controlPoint, tangentCircleCenterNext2);
        if Dot(input, t2xc1) > 0.0 && Dot(input, c2xt2) > 0.0 then
          if Dot(input, tangentCircleCenterNext2) > tangentCircleRadiusNextCos then
            var planeNormal := Cross(tangentCircleCenterNext2, input);
            Some(e.rotate(planeNormal, tangentCircleRadiusNext, tangentCircleCenterNext2))
          else
            Some(input)
        else
          None
    }

    /** setTangentCircleCenterNext1: the cushion mode writes the cushion centre, any other mode the hard one. */
    method SetTangentCircleCenterNext1(point: Vec3, mode: int)
      modifies this`tangentCircleCenterNext1, this`cushionTangentCircleCenterNext1
      ensures mode == CUSHION ==>
        cushionTangentCircleCenterNext1 == point && tangentCircleCenterNext1 == old(tangentCircleCenterNext1)
      ensures mode != CUSHION ==>
        tangentCircleCenterNext1 == point && cushionTangentCircleCenterNext1 == old(cushionTangentCircleCenterNext1)
    {
      if mode == CUSHION {
        cushionTangentCircleCenterNext1 := point;
      } else {
        tangentCircleCenterNext1 := point;
      }
    }

    /** setTangentCircleCenterNext2: the same dispatch for the second tangent centre. */
    method SetTangentCircleCenterNext2(point: Vec3, mode: int)
      modifies this`tangentCircleCenterNext2, this`cushionTangentCircleCenterNext2
      ensures mode == CUSHION ==>
        cushionTangentCircleCenterNext2 == point && tangentCircleCenterNext2 == old(tangentCircleCenterNext2)
      ensures mode != CUSHION ==>
        tangentCircleCenterNext2 == point && cushionTangentCircleCenterNext2 == old(cushionTangentCircleCenterNext2)
    {
      if mode == CUSHION {
        cushionTangentCircleCenterNext2 := point;
      } else {
        tangentCircleCenterNext2 := point;
      }
    }
  }

  /** A rotation about the cross product of a unit vector u and p turns u by the angle: its image
      stays a unit vector whose cosine with u is cos(angle). */
  lemma RotateAwayFromUnit(u: Vec3, p: Vec3, angle: real, e: Engine)
    requires Sound(e)
    requires LengthSquared(u) == 1.0
    requires LengthSquared(Cross(u, p)) > 0.0
    ensures LengthSquared(e.rotate(Cross(u, p), angle, u)) == 1.0
    ensures Dot(e.rotate(Cross(u, p), angle, u), u) == e.cos(angle)
  {
    CrossOrthogonal(u, p);
    assert Dot(Cross(u, p), u) == 0.0;
  }

  /**
   * closestToCone puts an out-of-bounds input exactly on the cap's boundary circle: the result
   * is a unit vector whose cosine with the axis is the cap's radius cosine.
   */
  lemma RectifiedToConeOnBoundary(c: LimitCone, input: Vec3, e: Engine)
    requires Sound(e)
    requires LengthSquared(c.controlPoint) == 1.0 && c.radiusCosine == e.cos(c.radius)
    requires !c.Contains(input)
    requires LengthSquared(Cross(c.controlPoint, input)) > 0.0
    ensures c.RectifiedToCone(input, e).Some?
    ensures LengthSquared(c.RectifiedToCone(input, e).value) == 1.0
    ensures Dot(c.RectifiedToCone(input, e).value, c.controlPoint) == c.radiusCosine
  {
    RotateAwayFromUnit(c.controlPoint, input, c.radius, e);
  }

  /**
   * When neither cap holds the input, closestPointOnClosestCone answers a point on the boundary
   * of one of the two caps, and a unit vector.
   */
  lemma ClosestPointOnABoundary(c: LimitCone, next: LimitCone, input: Vec3, e: Engine)
    requires Sound(e)
    requires LengthSquared(c.controlPoint) == 1.0 && c.radiusCosine == e.cos(c.radius)
    requires LengthSquared(next.controlPoint) == 1.0 && next.radiusCosine == e.cos(next.radius)
    requires LengthSquared(Cross(c.controlPoint, input)) > 0.0
    requires LengthSquared(Cross(next.controlPoint, input)) > 0.0
    ensures var r := c.ClosestPointOnClosestConeResult(next, input, e);
      r.Some? ==>
        && LengthSquared(r.value) == 1.0
        && (Dot(r.value, c.controlPoint) == c.radiusCosine || Dot(r.value, next.controlPoint) == next.radiusCosine)
  {
    var r := c.ClosestPointOnClosestConeResult(next, input, e);
    if r.Some? {
      RectifiedToConeOnBoundary(c, input, e);
      RectifiedToConeOnBoundary(next, input, e);
    }
  }

  /**
   * Every point getOnGreatTangentTriangle answers lies on or outside the selected tangent circle;
   * a point it moves lands exactly on that circle.
   */
  lemma GreatTangentTriangleResultOutsideCircle(c: LimitCone, next: LimitCone, input: Vec3, e: Engine)
    requires Sound(e)
    requires c.tangentCircleRadiusNextCos == e.cos(c.tangentCircleRadiusNext)
    requires LengthSquared(c.SelectedTangentCenter(next, input)) == 1.0
    requires LengthSquared(Cross(c.SelectedTangentCenter(next, input), input)) > 0.0
    ensures var r := c.GetOnGreatTangentTriangle(next, input, e);
      r.Some? ==> Dot(r.value, c.SelectedTangentCenter(next, input)) <= c.tangentCircleRadiusNextCos
    ensures var r := c.GetOnGreatTangentTriangle(next, input, e);
      r.Some? && r.value != input ==>
        && LengthSquared(r.value) == 1.0
        && Dot(r.value, c.SelectedTangentCenter(next, input)) == c.tangentCircleRadiusNextCos
  {
    var center := c.SelectedTangentCenter(next, input);
    var r := c.GetOnGreatTangentTriangle(next, input, e);
    if r.Some? && Dot(input, center) > c.tangentCircleRadiusNextCos {
      RotateAwayFromUnit(center, input, c.tangentCircleRadiusNext, e);
    }
  }

  /**
   * Rectification is idempotent: a point getOnGreatTangentTriangle answers, if it is still in the
   * same great tangent triangle on the same side, is answered unchanged.
   */
  lemma GreatTangentTriangleIdempotent(c: LimitCone, next: LimitCone, input: Vec3, e: Engine)
    requires Sound(e)
    requires c.tangentCircleRadiusNextCos == e.cos(c.tangentCircleRadiusNext)
    requires LengthSquared(c.SelectedTangentCenter(next, input)) == 1.0
    requires LengthSquared(Cross(c.SelectedTangentCenter(next, input), input)) > 0.0
    requires c.GetOnGreatTangentTriangle(next, input, e).Some?
    requires var p := c.GetOnGreatTangentTriangle(next, input, e).value;
      c.OnFirstTangentSide(next, p) == c.OnFirstTangentSide(next, input) && c.InGreatTangentTriangle(next, p)
    ensures var p := c.GetOnGreatTangentTriangle(next, input, e).value;
      c.GetOnGreatTangentTriangle(next, p, e) == Some(p)
  {
    GreatTangentTriangleResultOutsideCircle(c, next, input, e);
  }
}
