// The camera arithmetic of haven_zoom.cc, over the reals.
module HavenZoom {
  import opened Options

  function Clamp(x: real, low: real, high: real): real {
    if x < low then low else if high < x then high else x
  }

  function Min(a: real, b: real): real {
    if b < a then b else a
  }

  function Abs(x: real): real {
    if x < 0.0 then -x else x
  }

  // ---- The distance of the camera ----

  // The native orbit reaches from an inner radius over a gap, of which two weights mark the part
  // that is blended; the maximum lies beyond it.
  datatype Zoom = Zoom(inner: real, gap: real, innerWeight: real, outerWeight: real, maximum: real) {
    predicate Valid() {
      gap > 0.0 && 0.0 <= innerWeight < outerWeight <= 1.0 && inner + gap < maximum
    }

    function Native(weight: real): real {
      inner + gap * weight
    }

    function Progress(weight: real): real
      requires Valid()
    {
      Clamp((weight - innerWeight) / (outerWeight - innerWeight), 0.0, 1.0)
    }

    function Extra(weight: real): real
      requires Valid()
    {
      Min(maximum - Native(weight), (maximum - Native(outerWeight)) * Progress(weight))
    }

    // Where the camera ends up: an extra that is not positive is not applied.
    function Distance(weight: real): real
      requires Valid()
    {
      Native(weight) + if Extra(weight) > 0.0 then Extra(weight) else 0.0
    }
  }

  lemma Scaled(a: real, x: real, y: real)
    requires a >= 0.0 && x <= y
    ensures a * x <= a * y && (a > 0.0 && x < y ==> a * x < a * y)
  {
  }

  lemma Quotient(x: real, y: real, d: real)
    requires d > 0.0 && x <= y
    ensures x / d <= y / d && (x < y ==> x / d < y / d)
  {
    var p, q := x / d, y / d;
    assert d * p == x && d * q == y;
    if q < p {
      Scaled(d, q, p);
    }
  }

  lemma Quotients(d: real)
    requires d > 0.0
    ensures d / d == 1.0 && 0.0 / d == 0.0
  {
  }

  lemma ProgressAt(zoom: Zoom, weight: real)
    requires zoom.Valid()
    ensures 0.0 <= zoom.Progress(weight) <= 1.0
    ensures zoom.Progress(weight) == 0.0 <==> weight <= zoom.innerWeight
    ensures zoom.Progress(weight) == 1.0 <==> weight >= zoom.outerWeight
  {
    var d := zoom.outerWeight - zoom.innerWeight;
    var x := weight - zoom.innerWeight;
    Quotients(d);
    if x < 0.0 {
      Quotient(x, 0.0, d);
    } else {
      Quotient(0.0, x, d);
    }
    if x < d {
      Quotient(x, d, d);
    } else {
      Quotient(d, x, d);
    }
  }

  lemma ProgressMonotone(zoom: Zoom, w1: real, w2: real)
    requires zoom.Valid() && w1 <= w2
    ensures zoom.Progress(w1) <= zoom.Progress(w2)
  {
    Quotient(w1 - zoom.innerWeight, w2 - zoom.innerWeight, zoom.outerWeight - zoom.innerWeight);
  }

  lemma NativeBelow(zoom: Zoom, w1: real, w2: real)
    requires zoom.Valid() && w1 <= w2 <= 1.0
    ensures zoom.Native(w1) <= zoom.Native(w2) < zoom.maximum && (w1 < w2 ==> zoom.Native(w1) < zoom.Native(w2))
  {
    Scaled(zoom.gap, w1, w2);
    Scaled(zoom.gap, w2, 1.0);
    assert zoom.gap * 1.0 == zoom.gap;
  }

  // The room left beyond the outer limit, of which the progress takes a share.
  function Share(zoom: Zoom, weight: real): real
    requires zoom.Valid()
  {
    (zoom.maximum - zoom.Native(zoom.outerWeight)) * zoom.Progress(weight)
  }

  lemma ShareBounds(zoom: Zoom, weight: real)
    requires zoom.Valid()
    ensures 0.0 <= Share(zoom, weight) <= zoom.maximum - zoom.Native(zoom.outerWeight)
    ensures Share(zoom, weight) == 0.0 <==> weight <= zoom.innerWeight
    ensures Share(zoom, weight) == zoom.maximum - zoom.Native(zoom.outerWeight) <==> weight >= zoom.outerWeight
  {
    NativeBelow(zoom, zoom.outerWeight, zoom.outerWeight);
    ProgressAt(zoom, weight);
    Product(zoom.maximum - zoom.Native(zoom.outerWeight), zoom.Progress(weight), Share(zoom, weight));
  }

  lemma Product(room: real, progress: real, share: real)
    requires room > 0.0 && 0.0 <= progress <= 1.0 && share == room * progress
    ensures 0.0 <= share <= room && (share == 0.0 <==> progress == 0.0) && (share == room <==> progress == 1.0)
  {
    Scaled(room, 0.0, progress);
    Scaled(room, progress, 1.0);
  }

  lemma ShareMonotone(zoom: Zoom, w1: real, w2: real)
    requires zoom.Valid() && w1 <= w2
    ensures Share(zoom, w1) <= Share(zoom, w2)
  {
    NativeBelow(zoom, zoom.outerWeight, zoom.outerWeight);
    ProgressMonotone(zoom, w1, w2);
    Products(zoom.maximum - zoom.Native(zoom.outerWeight), zoom.Progress(w1), zoom.Progress(w2),
             Share(zoom, w1), Share(zoom, w2));
  }

  lemma Products(room: real, p1: real, p2: real, share1: real, share2: real)
    requires room > 0.0 && p1 <= p2 && share1 == room * p1 && share2 == room * p2
    ensures share1 <= share2
  {
    Scaled(room, p1, p2);
  }

  // The distance is the native one stretched linearly towards the maximum, cut off there.
  lemma DistanceIs(zoom: Zoom, weight: real)
    requires zoom.Valid() && weight <= 1.0
    ensures zoom.Extra(weight) >= 0.0
    ensures zoom.Distance(weight) == Min(zoom.maximum, zoom.Native(weight) + Share(zoom, weight))
  {
    NativeBelow(zoom, weight, weight);
    ShareBounds(zoom, weight);
  }

  // The camera is never nearer than natively and never beyond the maximum; it is native exactly
  // up to the inner limit, and at the maximum exactly from the outer limit on.
  lemma DistanceBounds(zoom: Zoom, weight: real)
    requires zoom.Valid() && weight <= 1.0
    ensures zoom.Native(weight) <= zoom.Distance(weight) <= zoom.maximum
    ensures zoom.Distance(weight) == zoom.Native(weight) <==> weight <= zoom.innerWeight
    ensures zoom.Distance(weight) == zoom.maximum <==> weight >= zoom.outerWeight
  {
    DistanceIs(zoom, weight);
    ShareBounds(zoom, weight);
    if weight < zoom.outerWeight {
      NativeBelow(zoom, weight, zoom.outerWeight);
    } else {
      NativeBelow(zoom, zoom.outerWeight, weight);
    }
  }

  // Zooming out never brings the camera nearer, and below the maximum it always moves it away.
  lemma DistanceMonotone(zoom: Zoom, w1: real, w2: real)
    requires zoom.Valid() && w1 < w2 <= 1.0
    ensures zoom.Distance(w1) <= zoom.Distance(w2)
    ensures zoom.Distance(w1) < zoom.maximum ==> zoom.Distance(w1) < zoom.Distance(w2)
  {
    DistanceIs(zoom, w1);
    DistanceIs(zoom, w2);
    NativeBelow(zoom, w1, w2);
    ShareMonotone(zoom, w1, w2);
  }

  // ---- The direction of the displacement ----

  datatype Vector = Vector(x: real, y: real, z: real) {
    function Plus(other: Vector): Vector {
      Vector(x + other.x, y + other.y, z + other.z)
    }

    function Stretched(k: real): Vector {
      Vector(x * k, y * k, z * k)
    }

    function SquaredLength(): real {
      x * x + y * y + z * z
    }
  }

  datatype Rotation = Rotation(x: real, y: real, z: real, w: real) {
    function SquaredLength(): real {
      x * x + y * y + z * z + w * w
    }

    function Dot(other: Rotation): real {
      x * other.x + y * other.y + z * other.z + w * other.w
    }

    function Conjugate(): Rotation {
      Rotation(-x, -y, -z, w)
    }

    // The product of quaternions.
    function Times(q: Rotation): Rotation {
      Rotation(w * q.x + x * q.w + y * q.z - z * q.y,
               w * q.y - x * q.z + y * q.w + z * q.x,
               w * q.z + x * q.y - y * q.x + z * q.w,
               w * q.w - x * q.x - y * q.y - z * q.z)
    }
  }

  // The camera's back axis as the hook computes it, with a length of one for a unit rotation.
  function BackAxis(r: Rotation): Vector {
    Vector(-2.0 * (r.x * r.z + r.w * r.y), -2.0 * (r.y * r.z - r.w * r.x), 2.0 * (r.x * r.x + r.y * r.y) - 1.0)
  }

  function Displacement(r: Rotation, extra: real): Vector {
    BackAxis(r).Stretched(extra)
  }

  // For a unit rotation it is the axis (0, 0, -1) rotated.
  lemma BackAxisIsRotated(r: Rotation)
    requires r.SquaredLength() == 1.0
    ensures var v := r.Times(Rotation(0.0, 0.0, -1.0, 0.0)).Times(r.Conjugate());
            v.w == 0.0 && BackAxis(r) == Vector(v.x, v.y, v.z)
  {
    var t := r.Times(Rotation(0.0, 0.0, -1.0, 0.0));
    assert t == Rotation(-r.y, r.x, -r.w, r.z);
    var v := t.Times(r.Conjugate());
    assert v.w == 0.0;
    assert v.x == -2.0 * (r.x * r.z + r.w * r.y);
    assert v.y == -2.0 * (r.y * r.z - r.w * r.x);
    assert v.z == r.x * r.x + r.y * r.y - r.z * r.z - r.w * r.w;
  }

  // The squared length of the axis in terms of the rotation's own.
  lemma BackAxisLength(r: Rotation)
    ensures BackAxis(r).SquaredLength() == 1.0 + 4.0 * (r.x * r.x + r.y * r.y) * (r.SquaredLength() - 1.0)
  {
    var a, b := r.x * r.x + r.y * r.y, r.z * r.z + r.w * r.w;
    var p, q := r.x * r.z + r.w * r.y, r.y * r.z - r.w * r.x;
    TwoSquares(r.x, r.y, r.z, r.w);
    assert BackAxis(r).x * BackAxis(r).x == 4.0 * (p * p) && BackAxis(r).y * BackAxis(r).y == 4.0 * (q * q);
    assert (2.0 * a - 1.0) * (2.0 * a - 1.0) == 4.0 * a * a - 4.0 * a + 1.0;
    assert 4.0 * (a * b) + 4.0 * a * a - 4.0 * a + 1.0 == 1.0 + 4.0 * a * (a + b - 1.0);
  }

  lemma TwoSquares(x: real, y: real, z: real, w: real)
    ensures (x * z + w * y) * (x * z + w * y) + (y * z - w * x) * (y * z - w * x) == (x * x + y * y) * (z * z + w * w)
  {
  }

  // The tolerance that the hook allows the rotation.
  const TOLERANCE := 0.0001

  // A unit rotation moves the camera by exactly the extra distance.
  lemma UnitDisplacement(r: Rotation, extra: real)
    requires r.SquaredLength() == 1.0
    ensures Displacement(r, extra).SquaredLength() == extra * extra
  {
    BackAxisLength(r);
    StretchedLength(BackAxis(r), extra, 1.0);
  }

  // A rotation within the tolerance moves it by a distance whose square, relative to the extra
  // one's, is off by at most four times the rotation's own squared length times the tolerance.
  lemma BackAxisTolerance(r: Rotation)
    requires Abs(r.SquaredLength() - 1.0) <= TOLERANCE
    ensures Abs(BackAxis(r).SquaredLength() - 1.0) <= 4.0 * r.SquaredLength() * TOLERANCE
  {
    BackAxisLength(r);
    SumOfSquares(r.x, r.y);
    SumOfSquares(r.z, r.w);
    Deviation(r.x * r.x + r.y * r.y, r.z * r.z + r.w * r.w, r.SquaredLength() - 1.0, TOLERANCE,
              BackAxis(r).SquaredLength(), r.SquaredLength());
  }

  lemma SumOfSquares(x: real, y: real)
    ensures x * x + y * y >= 0.0
  {
  }

  lemma StretchedLength(v: Vector, k: real, squared: real)
    requires squared == v.SquaredLength()
    ensures v.Stretched(k).SquaredLength() == k * k * squared
  {
    ScaledSquare(v.x, k);
    ScaledSquare(v.y, k);
    ScaledSquare(v.z, k);
  }

  lemma ScaledSquare(x: real, k: real)
    ensures (x * k) * (x * k) == k * k * (x * x)
  {
  }

  lemma Deviation(a: real, b: real, d: real, bound: real, squared: real, length: real)
    requires a >= 0.0 && b >= 0.0 && -bound <= d <= bound && squared == 1.0 + 4.0 * a * d && length == a + b
    ensures Abs(squared - 1.0) <= 4.0 * length * bound
  {
    var e, t := a * d, a * bound;
    Scaled(a, d, bound);
    Scaled(a, -bound, d);
    Scaled(bound, 0.0, b);
    assert a * -bound == -t && 4.0 * a * d == 4.0 * e;
    assert 4.0 * length * bound == 4.0 * t + 4.0 * (bound * b);
  }

  // ---- The hook ----

  // An orbit's radius with the constraint on it.
  datatype Radius = Radius(enabled: bool, minimum: real, maximum: real, radius: real)

  predicate Fixed(radius: Option<Radius>) {
    radius.Some? &&
    var r := radius.value;
    r.enabled && r.maximum > 0.0 && r.minimum == r.maximum && Abs(r.radius - r.maximum) < 0.01
  }

  // What the hook reads of a blend between two orbits: their radii, whether all four targets are
  // one pivot, whether the three frames are there and distinct, the blended part of the curve, and
  // the cameras of both ends.
  datatype Blend = Blend(source: Option<Radius>, target: Option<Radius>, commonPivot: bool, distinctFrames: bool,
                         minimum: real, maximum: real, ratio: real, rotation: Rotation, targetRotation: Rotation,
                         fov: real, targetFov: real, orthographic: bool)

  predicate Qualifies(blend: Blend, maxZoom: real) {
    && maxZoom > 0.0 && Fixed(blend.source) && Fixed(blend.target)
    && blend.source.value.radius != blend.target.value.radius
    && blend.source.value.radius < maxZoom && blend.target.value.radius < maxZoom
    && blend.commonPivot && blend.distinctFrames
    && 0.0 <= blend.minimum < blend.maximum <= 1.0
    && Abs(blend.rotation.SquaredLength() - 1.0) <= TOLERANCE
    && Abs(Abs(blend.rotation.Dot(blend.targetRotation)) - 1.0) <= TOLERANCE
    && blend.fov > 0.0 && Abs(blend.fov - blend.targetFov) <= 0.001 && !blend.orthographic
  }

  predicate SourceIsFar(blend: Blend)
    requires blend.source.Some? && blend.target.Some?
  {
    blend.source.value.radius > blend.target.value.radius
  }

  function Weight(blend: Blend, value: real): real
    requires blend.source.Some? && blend.target.Some?
  {
    if SourceIsFar(blend) then 1.0 - Clamp(value, 0.0, 1.0) else Clamp(value, 0.0, 1.0)
  }

  // Which end of the curve is the outer one depends on the direction of the blend.
  function ZoomOf(blend: Blend, curve: real -> real, maxZoom: real): Zoom
    requires blend.source.Some? && blend.target.Some?
  {
    var far := SourceIsFar(blend);
    var source, target := blend.source.value.radius, blend.target.value.radius;
    Zoom(Min(source, target), Abs(source - target),
         Weight(blend, curve(if far then blend.maximum else blend.minimum)),
         Weight(blend, curve(if far then blend.minimum else blend.maximum)), maxZoom)
  }

  lemma QualifiedZoom(blend: Blend, curve: real -> real, maxZoom: real)
    requires Qualifies(blend, maxZoom)
    ensures var zoom := ZoomOf(blend, curve, maxZoom);
            && (zoom.innerWeight < zoom.outerWeight ==> zoom.Valid())
            && 0.0 <= Weight(blend, curve(blend.ratio)) <= 1.0
            && zoom.Native(0.0) == Min(blend.source.value.radius, blend.target.value.radius)
            && zoom.Native(1.0) == -Min(-blend.source.value.radius, -blend.target.value.radius)
  {
  }

  // Where the native camera is at a value of the curve: at the source's radius up to 0, at the
  // target's from 1 on, and in proportion between.
  predicate NativeAt(blend: Blend, value: real, distance: real)
    requires blend.source.Some? && blend.target.Some?
  {
    var source, target := blend.source.value.radius, blend.target.value.radius;
    && (value <= 0.0 ==> distance == source)
    && (value >= 1.0 ==> distance == target)
    && (0.0 <= value <= 1.0 ==> distance == source + (target - source) * value)
  }

  // Whichever end of the blend is the far one, a weight stands for the native distance at its value
  // of the curve; the far limit is the one on the side of the far radius.
  lemma WeightIsDistance(blend: Blend, curve: real -> real, maxZoom: real, value: real)
    requires Qualifies(blend, maxZoom)
    ensures var zoom := ZoomOf(blend, curve, maxZoom);
      && NativeAt(blend, value, zoom.Native(Weight(blend, value)))
      && (blend.source.value.radius < blend.target.value.radius ==>
            && NativeAt(blend, curve(blend.minimum), zoom.Native(zoom.innerWeight))
            && NativeAt(blend, curve(blend.maximum), zoom.Native(zoom.outerWeight)))
      && (blend.target.value.radius < blend.source.value.radius ==>
            && NativeAt(blend, curve(blend.maximum), zoom.Native(zoom.innerWeight))
            && NativeAt(blend, curve(blend.minimum), zoom.Native(zoom.outerWeight)))
  {
    OneWeight(blend, curve, maxZoom, value);
    OneWeight(blend, curve, maxZoom, curve(blend.minimum));
    OneWeight(blend, curve, maxZoom, curve(blend.maximum));
  }

  lemma OneWeight(blend: Blend, curve: real -> real, maxZoom: real, value: real)
    requires Qualifies(blend, maxZoom)
    ensures NativeAt(blend, value, ZoomOf(blend, curve, maxZoom).Native(Weight(blend, value)))
  {
    var source, target := blend.source.value.radius, blend.target.value.radius;
    Proportion(source, target, Clamp(value, 0.0, 1.0));
    Proportion(source, target, value);
  }

  lemma Proportion(source: real, target: real, c: real)
    ensures source + (target - source) * c == target + (source - target) * (1.0 - c)
  {
  }

  predicate Extends(blend: Blend, curve: real -> real, maxZoom: real) {
    Qualifies(blend, maxZoom) &&
    var zoom := ZoomOf(blend, curve, maxZoom);
    zoom.innerWeight < zoom.outerWeight && zoom.innerWeight < Weight(blend, curve(blend.ratio))
  }

  class ResultFrame {
    var position: Vector
    var farClip: real

    constructor (position: Vector, farClip: real)
      ensures this.position == position && this.farClip == farClip
    {
      this.position, this.farClip := position, farClip;
    }
  }

  // The native frame is extended, position and far clip together, exactly when the blend
  // qualifies and lies beyond the inner limit and the native clip is positive; then the clip moves
  // as far as the camera.
  method UpdateCameraFrame(blend: Blend, curve: real -> real, maxZoom: real, result: ResultFrame)
    modifies result
    ensures Extends(blend, curve, maxZoom) && old(result.farClip) > 0.0 ==>
              var zoom, weight := ZoomOf(blend, curve, maxZoom), Weight(blend, curve(blend.ratio));
              zoom.Valid() &&
              var moved := zoom.Extra(weight);
              && moved == zoom.Distance(weight) - zoom.Native(weight) > 0.0
              && result.position == old(result.position).Plus(Displacement(blend.rotation, moved))
              && result.farClip == old(result.farClip) + moved
    ensures !(Extends(blend, curve, maxZoom) && old(result.farClip) > 0.0) ==>
              result.position == old(result.position) && result.farClip == old(result.farClip)
  {
    if !Qualifies(blend, maxZoom) {
      return;
    }
    QualifiedZoom(blend, curve, maxZoom);
    var zoom := ZoomOf(blend, curve, maxZoom);
    if zoom.outerWeight <= zoom.innerWeight {
      return;
    }
    var weight := Weight(blend, curve(blend.ratio));
    var extra := zoom.Extra(weight);
    ExtraMoves(zoom, weight);
    if extra <= 0.0 {
      return;
    }
    MoveBack(result, blend.rotation, extra);
  }

  lemma ExtraMoves(zoom: Zoom, weight: real)
    requires zoom.Valid() && weight <= 1.0
    ensures zoom.Extra(weight) > 0.0 <==> zoom.innerWeight < weight
    ensures zoom.Extra(weight) == zoom.Distance(weight) - zoom.Native(weight) <= zoom.maximum - zoom.Native(weight)
  {
    DistanceBounds(zoom, weight);
    DistanceIs(zoom, weight);
  }

  method MoveBack(result: ResultFrame, r: Rotation, extra: real)
    requires extra > 0.0
    modifies result
    ensures old(result.farClip) > 0.0 ==>
              result.position == old(result.position).Plus(Displacement(r, extra))
              && result.farClip == old(result.farClip) + extra
    ensures old(result.farClip) <= 0.0 ==>
              result.position == old(result.position) && result.farClip == old(result.farClip)
  {
    var position := result.position.Plus(Displacement(r, extra));
    var clip := result.farClip;
    if clip <= 0.0 {
      return;
    }
    clip := clip + extra;
    result.position, result.farClip := position, clip;
  }
}
