/** The 3D tilt of the project cards (`initProjectTilt`, src/main.js).  On
    a mouse move over a card, the pointer's offset from the card's centre,
    as a fraction of half the card's width or height, is scaled to at most 8
    degrees of rotation; on mouse leave the card returns to a fixed neutral
    transform. */
module ProjectTilt {

  /** Largest rotation, in degrees, at the card's edges. */
  const MaxTilt: real := 8.0
  /** The perspective distance, in pixels, of both transforms. */
  const Perspective: real := 800.0
  /** The uniform scale while hovered. */
  const HoverScale: real := 1.02

  /** The card's bounding client rectangle. */
  datatype Rect = Rect(left: real, top: real, width: real, height: real)

  /** `perspective(p) rotateX(x deg) rotateY(y deg) scale3d(s, s, s)`. */
  datatype Transform = Transform(perspective: real, rotateX: real, rotateY: real, scale: real)

  /** The pointer lies on or inside the rectangle. */
  predicate Inside(rect: Rect, clientX: real, clientY: real) {
    rect.left <= clientX <= rect.left + rect.width &&
    rect.top <= clientY <= rect.top + rect.height
  }

  /** `(offset - half) / half * k`, the shape of both angle formulas. */
  function Scaled(offset: real, half: real, k: real): real
    requires half > 0.0
  {
    (offset - half) / half * k
  }

  /** On the span [0, 2 * half] the offset from the midpoint, as a fraction
      of `half`, lies in [-1, 1]. */
  lemma FractionBounded(offset: real, half: real)
    requires half > 0.0 && 0.0 <= offset <= 2.0 * half
    ensures -1.0 <= (offset - half) / half <= 1.0
  {
    var q := (offset - half) / half;
    assert q * half == offset - half;
  }

  /** On the span [0, 2 * half] the angle lies in [-k, k]; at the midpoint
      it is 0. */
  lemma ScaledBounded(offset: real, half: real, k: real)
    requires half > 0.0 && k >= 0.0
    ensures 0.0 <= offset <= 2.0 * half ==>
              -k <= Scaled(offset, half, k) <= k && -k <= Scaled(offset, half, -k) <= k
    ensures offset == half ==> Scaled(offset, half, k) == 0.0
  {
    if 0.0 <= offset <= 2.0 * half {
      FractionBounded(offset, half);
      var q := (offset - half) / half;
      assert Scaled(offset, half, k) == q * k;
      assert Scaled(offset, half, -k) == -(q * k);
      if q >= 0.0 {
        assert q * k <= 1.0 * k;
      } else {
        assert q * k >= -1.0 * k;
      }
    }
  }

  /** At the two ends of the span the angle is exactly -k and k. */
  lemma ScaledAtEnds(offset: real, half: real, k: real)
    requires half > 0.0
    ensures offset == 0.0 ==> Scaled(offset, half, k) == -k
    ensures offset == 2.0 * half ==> Scaled(offset, half, k) == k
  {
    assert (0.0 - half) / half == -1.0;
    assert (2.0 * half - half) / half == 1.0;
  }

  /** The `mousemove` handler's transform for a pointer at (clientX, clientY). */
  function OnMouseMove(rect: Rect, clientX: real, clientY: real): (t: Transform)
    requires rect.width > 0.0 && rect.height > 0.0
    ensures t.perspective == Perspective && t.scale == HoverScale
    ensures Inside(rect, clientX, clientY) ==>
              -MaxTilt <= t.rotateX <= MaxTilt && -MaxTilt <= t.rotateY <= MaxTilt
    ensures clientX == rect.left + rect.width / 2.0 ==> t.rotateY == 0.0
    ensures clientY == rect.top + rect.height / 2.0 ==> t.rotateX == 0.0
    ensures clientX == rect.left ==> t.rotateY == -MaxTilt
    ensures clientX == rect.left + rect.width ==> t.rotateY == MaxTilt
    ensures clientY == rect.top ==> t.rotateX == MaxTilt
    ensures clientY == rect.top + rect.height ==> t.rotateX == -MaxTilt
  {
    var x := clientX - rect.left;
    var y := clientY - rect.top;
    var centerX := rect.width / 2.0;
    var centerY := rect.height / 2.0;
    ScaledBounded(y, centerY, MaxTilt);
    ScaledBounded(x, centerX, MaxTilt);
    ScaledAtEnds(y, centerY, -MaxTilt);
    ScaledAtEnds(x, centerX, MaxTilt);
    Transform(Perspective, Scaled(y, centerY, -MaxTilt), Scaled(x, centerX, MaxTilt), HoverScale)
  }

  /** The `mouseleave` handler's transform. */
  function OnMouseLeave(): (t: Transform)
    ensures t.perspective == Perspective && t.scale == 1.0
    ensures t.rotateX == 0.0 && t.rotateY == 0.0
  {
    Transform(Perspective, 0.0, 0.0, 1.0)
  }

  /** Leaving the card undoes the tilt: the neutral transform has the same
      perspective and the rotation of a pointer at the centre, at scale 1. */
  lemma LeaveMatchesCentre(rect: Rect)
    requires rect.width > 0.0 && rect.height > 0.0
    ensures var centre := OnMouseMove(rect, rect.left + rect.width / 2.0, rect.top + rect.height / 2.0);
            OnMouseLeave() == centre.(scale := 1.0)
  {
  }

  /** Moving the pointer down tilts the card's top toward the viewer
      (rotateX decreases), moving it right tilts it the other way (rotateY
      increases), strictly; each angle depends on one coordinate only. */
  lemma TiltMonotone(rect: Rect, x1: real, y1: real, x2: real, y2: real)
    requires rect.width > 0.0 && rect.height > 0.0
    requires x1 <= x2 && y1 <= y2
    ensures OnMouseMove(rect, x1, y1).rotateY <= OnMouseMove(rect, x2, y2).rotateY
    ensures OnMouseMove(rect, x1, y1).rotateX >= OnMouseMove(rect, x2, y2).rotateX
    ensures OnMouseMove(rect, x1, y1).rotateX == OnMouseMove(rect, x2, y1).rotateX
    ensures OnMouseMove(rect, x1, y1).rotateY == OnMouseMove(rect, x1, y2).rotateY
    ensures x1 < x2 ==> OnMouseMove(rect, x1, y1).rotateY < OnMouseMove(rect, x2, y2).rotateY
    ensures y1 < y2 ==> OnMouseMove(rect, x1, y1).rotateX > OnMouseMove(rect, x2, y2).rotateX
  {
    var cx, cy := rect.width / 2.0, rect.height / 2.0;
    var a1, a2 := (x1 - rect.left - cx) / cx, (x2 - rect.left - cx) / cx;
    assert a2 - a1 == (x2 - x1) / cx;
    assert x1 < x2 ==> (x2 - x1) / cx > 0.0;
    var b1, b2 := (y1 - rect.top - cy) / cy, (y2 - rect.top - cy) / cy;
    assert b2 - b1 == (y2 - y1) / cy;
    assert y1 < y2 ==> (y2 - y1) / cy > 0.0;
  }

  /** Each angle is proportional to the pointer's offset from the centre:
      scaling the offset by `s` scales the angle by `s`. */
  lemma TiltProportional(rect: Rect, s: real, dx: real, dy: real)
    requires rect.width > 0.0 && rect.height > 0.0
    ensures var cx, cy := rect.left + rect.width / 2.0, rect.top + rect.height / 2.0;
            OnMouseMove(rect, cx + s * dx, cy + s * dy).rotateY == s * OnMouseMove(rect, cx + dx, cy + dy).rotateY &&
            OnMouseMove(rect, cx + s * dx, cy + s * dy).rotateX == s * OnMouseMove(rect, cx + dx, cy + dy).rotateX
  {
    var hx, hy := rect.width / 2.0, rect.height / 2.0;
    assert (s * dx) / hx == s * (dx / hx);
    assert (s * dy) / hy == s * (dy / hy);
  }

  /** Mirroring the pointer through the card's centre mirrors the tilt. */
  lemma TiltAntisymmetric(rect: Rect, dx: real, dy: real)
    requires rect.width > 0.0 && rect.height > 0.0
    ensures var cx, cy := rect.left + rect.width / 2.0, rect.top + rect.height / 2.0;
            var a, b := OnMouseMove(rect, cx + dx, cy + dy), OnMouseMove(rect, cx - dx, cy - dy);
            a.rotateX == -b.rotateX && a.rotateY == -b.rotateY
  {
    var hx, hy := rect.width / 2.0, rect.height / 2.0;
    assert (-dx) / hx == -(dx / hx);
    assert (-dy) / hy == -(dy / hy);
  }
}
