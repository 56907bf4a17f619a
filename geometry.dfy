/**
 * Axis-aligned rectangles and the collision step of the breakout kernel.
 *
 * Coordinates are exact reals (the game uses f32). Screen coordinates grow
 * rightwards in x and downwards in y. The rectangle helpers `Intersect`,
 * `Center` and `Point` are those of the macroquad `Rect` type the game uses.
 */
module Geometry {

  datatype Option<T> = None | Some(value: T)

  datatype Vec2 = Vec2(x: real, y: real)

  /** A rectangle with its top-left corner at (x, y). */
  datatype Rect = Rect(x: real, y: real, w: real, h: real)

  function Max(a: real, b: real): real { if a >= b then a else b }

  function Min(a: real, b: real): real { if a <= b then a else b }

  function Abs(v: real): real { if v < 0.0 then -v else v }

  /** `f32::signum` on a non-NaN value: +0.0 has sign 1.0. */
  function Signum(v: real): real { if v < 0.0 then -1.0 else 1.0 }

  function Center(r: Rect): Vec2 { Vec2(r.x + r.w * 0.5, r.y + r.h * 0.5) }

  function Point(r: Rect): Vec2 { Vec2(r.x, r.y) }

  /**
   * The overlap of two rectangles: the max-left / min-right region,
   * present when its extent is non-negative on both axes, so rectangles
   * that only touch along an edge do intersect (with zero extent).
   */
  function Intersect(a: Rect, b: Rect): (o: Option<Rect>)
    ensures o.Some? <==>
              Max(a.x, b.x) <= Min(a.x + a.w, b.x + b.w) &&
              Max(a.y, b.y) <= Min(a.y + a.h, b.y + b.h)
    ensures o.Some? ==> o.value.w >= 0.0 && o.value.h >= 0.0
    ensures o.Some? ==>
              a.x <= o.value.x && b.x <= o.value.x &&
              o.value.x + o.value.w <= a.x + a.w && o.value.x + o.value.w <= b.x + b.w &&
              a.y <= o.value.y && b.y <= o.value.y &&
              o.value.y + o.value.h <= a.y + a.h && o.value.y + o.value.h <= b.y + b.h
  {
    var left := Max(a.x, b.x);
    var top := Max(a.y, b.y);
    var right := Min(a.x + a.w, b.x + b.w);
    var bottom := Min(a.y + a.h, b.y + b.h);
    if right < left || bottom < top then None
    else Some(Rect(left, top, right - left, bottom - top))
  }

  /** Whether point `p` lies in the closed rectangle `r`. */
  predicate Covers(r: Rect, p: Vec2)
  {
    r.x <= p.x <= r.x + r.w && r.y <= p.y <= r.y + r.h
  }

  /**
   * The overlap is exactly the common part: there is one precisely when the
   * two closed rectangles share a point, and it covers precisely the points
   * that lie in both.
   */
  lemma IntersectIsCommonPart(a: Rect, b: Rect)
    ensures Intersect(a, b).Some? <==> exists p :: Covers(a, p) && Covers(b, p)
    ensures Intersect(a, b).Some? ==>
              forall p :: Covers(Intersect(a, b).value, p) <==> Covers(a, p) && Covers(b, p)
  {
    match Intersect(a, b)
    case Some(o) =>
      assert Covers(a, Point(o)) && Covers(b, Point(o));
    case None =>
  }

  /** The outcome of one collision step: whether it hit, and the moving rectangle and velocity after it. */
  datatype Contact = Contact(hit: bool, rect: Rect, vel: Vec2)

  /**
   * The collision step as a value: detection, positional correction and
   * velocity reflection of the moving rectangle `a` against `b`. Both
   * branches shift by the overlap's HEIGHT; equal centres count as `b`
   * lying ahead (below, or to the right), because the sign of +0.0 is 1.0.
   */
  function Collide(a: Rect, vel: Vec2, b: Rect): Contact
  {
    match Intersect(a, b)
    case None => Contact(false, a, vel)
    case Some(i) =>
      var to := Vec2(Center(b).x - Center(a).x, Center(b).y - Center(a).y);
      var s := Vec2(Signum(to.x), Signum(to.y));
      if i.w > i.h then
        Contact(true, a.(y := a.y - s.y * i.h), vel.(y := if s.y > 0.0 then -Abs(vel.y) else Abs(vel.y)))
      else
        Contact(true, a.(x := a.x - s.x * i.h), vel.(x := if s.x < 0.0 then Abs(vel.x) else -Abs(vel.x)))
  }

  /**
   * What a collision step does: it hits exactly when the rectangles overlap
   * (and then changes nothing else); a wide overlap bounces on y, any other
   * on x, and both shift by the overlap's height; the size is kept, and the
   * changed velocity component keeps its magnitude and points away from
   * `b`'s centre (ties count as `b` lying ahead).
   */
  lemma CollideFacts(a: Rect, vel: Vec2, b: Rect)
    ensures var c := Collide(a, vel, b); c.hit <==> Intersect(a, b).Some?
    ensures var c := Collide(a, vel, b); !c.hit ==> c.rect == a && c.vel == vel
    ensures var c := Collide(a, vel, b); c.hit ==> c.rect.w == a.w && c.rect.h == a.h
    ensures var c := Collide(a, vel, b); c.hit && Intersect(a, b).value.w > Intersect(a, b).value.h ==>
              var i := Intersect(a, b).value;
              && c.rect.x == a.x && c.vel.x == vel.x
              && Abs(c.vel.y) == Abs(vel.y)
              && (Center(a).y <= Center(b).y ==> c.rect.y == a.y - i.h && c.vel.y <= 0.0)
              && (Center(b).y < Center(a).y ==> c.rect.y == a.y + i.h && c.vel.y >= 0.0)
    ensures var c := Collide(a, vel, b); c.hit && Intersect(a, b).value.w <= Intersect(a, b).value.h ==>
              var i := Intersect(a, b).value;
              && c.rect.y == a.y && c.vel.y == vel.y
              && Abs(c.vel.x) == Abs(vel.x)
              && (Center(a).x <= Center(b).x ==> c.rect.x == a.x - i.h && c.vel.x <= 0.0)
              && (Center(b).x < Center(a).x ==> c.rect.x == a.x + i.h && c.vel.x >= 0.0)
  {
  }

  /**
   * The collision step on mutable state: `a` and `vel` are updated in place
   * (here: returned as `a'` and `vel'`), `b` is only read.
   */
  method ResolveCollision(a: Rect, vel: Vec2, b: Rect) returns (hit: bool, a': Rect, vel': Vec2)
    ensures Contact(hit, a', vel') == Collide(a, vel, b)
  {
    a', vel' := a, vel;
    var overlap := Intersect(a', b);
    if overlap.None? {
      return false, a', vel';
    }
    var intersection := overlap.value;
    var aCenter := Center(a');
    var bCenter := Center(b);
    var to := Vec2(bCenter.x - aCenter.x, bCenter.y - aCenter.y);
    var toSignum := Vec2(Signum(to.x), Signum(to.y));
    if intersection.w > intersection.h {
      a' := a'.(y := a'.y - toSignum.y * intersection.h);
      if toSignum.y > 0.0 {
        vel' := vel'.(y := -Abs(vel'.y));
      } else {
        vel' := vel'.(y := Abs(vel'.y));
      }
    } else {
      a' := a'.(x := a'.x - toSignum.x * intersection.h);
      if toSignum.x < 0.0 {
        vel' := vel'.(x := Abs(vel'.x));
      } else {
        vel' := vel'.(x := -Abs(vel'.x));
      }
    }
    hit := true;
  }

  /**
   * After a bounce, moving the corrected rectangle along its new velocity for
   * any non-negative time never brings its centre closer to `b`'s centre on
   * the axis the bounce acted on: the rectangle heads away from `b`.
   */
  lemma BounceHeadsAway(a: Rect, vel: Vec2, b: Rect, t: real)
    requires Intersect(a, b).Some? && t >= 0.0
    ensures var c := Collide(a, vel, b);
            var i := Intersect(a, b).value;
            if i.w > i.h then
              Abs(Center(b).y - (Center(c.rect).y + t * c.vel.y)) >= Abs(Center(b).y - Center(c.rect).y)
            else
              Abs(Center(b).x - (Center(c.rect).x + t * c.vel.x)) >= Abs(Center(b).x - Center(c.rect).x)
  {
    CollideFacts(a, vel, b);
    var c := Collide(a, vel, b);
    var i := Intersect(a, b).value;
    if i.w > i.h {
      var v := c.vel.y;
      if Center(a).y <= Center(b).y {
        assert v <= 0.0;
        assert t * v <= 0.0;
        assert Center(c.rect).y <= Center(b).y;
      } else {
        assert v >= 0.0;
        assert t * v >= 0.0;
        assert Center(c.rect).y > Center(b).y;
      }
    } else {
      var v := c.vel.x;
      if Center(a).x <= Center(b).x {
        assert v <= 0.0;
        assert t * v <= 0.0;
        assert Center(c.rect).x <= Center(b).x;
      } else {
        assert v >= 0.0;
        assert t * v >= 0.0;
        assert Center(c.rect).x > Center(b).x;
      }
    }
  }

  /**
   * The sideways correction moves the rectangle by the overlap's height,
   * which on that branch is never less than the overlap's width: the
   * correction always covers (and may overshoot) the horizontal overlap.
   */
  lemma SideCorrectionCoversOverlap(a: Rect, vel: Vec2, b: Rect)
    requires Intersect(a, b).Some? && Intersect(a, b).value.w <= Intersect(a, b).value.h
    ensures Abs(Collide(a, vel, b).rect.x - a.x) == Intersect(a, b).value.h >= Intersect(a, b).value.w
  {
    CollideFacts(a, vel, b);
  }

  /** Rectangles that share only an edge still collide (inclusive overlap). */
  lemma TouchingEdgesCollide(a: Rect, vel: Vec2, b: Rect)
    requires a.w >= 0.0 && a.h >= 0.0 && b.w >= 0.0 && b.h >= 0.0
    requires a.x + a.w == b.x && a.y == b.y
    ensures Collide(a, vel, b).hit
    ensures Intersect(a, b).value.w == 0.0
  {
    CollideFacts(a, vel, b);
  }
}
