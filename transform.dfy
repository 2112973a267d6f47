/** The per-tick input-to-scroll transform (the body of scroll_loop):
    displacement from the origin, dead zone, power-law magnitude, the
    five-way direction used for feedback, and the scroll vector. */
module Transform {
  import opened Config

  datatype Direction = Neutral | Up | Down | Left | Right

  /** A scroll request: positive x scrolls right, positive y scrolls up. */
  datatype Vector = Vector(x: real, y: real)

  function Abs(r: real): real
  {
    if r < 0.0 then -r else r
  }

  function Sign(r: real): int
  {
    if r > 0.0 then 1 else if r < 0.0 then -1 else 0
  }

  /** `dist` is what math.hypot(dx, dy) returns: the Euclidean norm. */
  ghost predicate IsNorm(dist: real, dx: real, dy: real)
  {
    dist >= 0.0 && dist * dist == dx * dx + dy * dy
  }

  /** math.pow is positive on a positive base. */
  ghost predicate PowPositive(pow: (real, real) -> real)
  {
    forall b, e :: b > 0.0 ==> pow(b, e) > 0.0
  }

  /** math.pow at exponent `e` is strictly increasing in a positive base (true
      of the real power for every e > 0, such as the sensitivities 1 to 5 the
      settings allow). */
  ghost predicate PowIncreasing(pow: (real, real) -> real, e: real)
  {
    forall b1, b2 :: 0.0 < b1 < b2 ==> pow(b1, e) < pow(b2, e)
  }

  /** A pow that is the identity at exponent 1 is increasing there. */
  lemma PowIncreasingAtOne(pow: (real, real) -> real)
    requires forall b :: b > 0.0 ==> pow(b, 1.0) == b
    ensures PowIncreasing(pow, 1.0)
  {
  }

  /** A pow that squares at exponent 2 (the default sensitivity) is
      increasing there. */
  lemma {:induction false} PowIncreasingAtTwo(pow: (real, real) -> real)
    requires forall b :: b > 0.0 ==> pow(b, 2.0) == b * b
    ensures PowIncreasing(pow, 2.0)
  {
    forall b1, b2 | 0.0 < b1 < b2
      ensures pow(b1, 2.0) < pow(b2, 2.0)
    {
      SquareIncreasing(b1, b2);
    }
  }

  /** The displacement of the pointer from the origin; the horizontal part is
      forced to zero when horizontal scrolling is off. */
  function Displacement(enableHorizontal: bool, origin: Point, pos: Point): (d: Point)
    ensures origin.y + d.y == pos.y
    ensures enableHorizontal ==> origin.x + d.x == pos.x
    ensures !enableHorizontal ==> d.x == 0.0
  {
    Point(if enableHorizontal then pos.x - origin.x else 0.0, pos.y - origin.y)
  }

  /** The direction shown by the overlay. */
  function Classify(dx: real, dy: real, dist: real, deadZone: real): (r: Direction)
    ensures r == Neutral <==> dist <= deadZone
    ensures (r == Left || r == Right) <==> dist > deadZone && Abs(dx) > Abs(dy)
    ensures (r == Up || r == Down) <==> dist > deadZone && Abs(dx) <= Abs(dy)
    ensures r == Right ==> dx > 0.0
    ensures r == Left ==> dx < 0.0
    ensures r == Down ==> dy > 0.0
    ensures r == Up ==> dy <= 0.0
    // with a real norm and a non-negative dead zone, Up means the pointer is above the origin
    ensures IsNorm(dist, dx, dy) && deadZone >= 0.0 && r == Up ==> dy < 0.0
  {
    if dist > deadZone then
      if Abs(dx) > Abs(dy) then (if dx > 0.0 then Right else Left)
      else (
        NormOfZero(dist, dx, dy);
        if dy > 0.0 then Down else Up)
    else Neutral
  }

  /** A zero displacement has norm zero. */
  lemma NormOfZero(dist: real, dx: real, dy: real)
    ensures IsNorm(dist, dx, dy) && dx == 0.0 && dy == 0.0 ==> dist == 0.0
  {
    if IsNorm(dist, dx, dy) && dx == 0.0 && dy == 0.0 && dist > 0.0 {
      calc {
        0.0;
        == dx * dx + dy * dy;
        == dist * dist;
        > { MulPos(dist, dist); } 0.0;
      }
    }
  }

  /** The speed scalar: eff^sensitivity * K * speed_factor with eff the
      distance beyond the dead zone. */
  function Magnitude(k: real, t: Tunables, dist: real, pow: (real, real) -> real): (m: real)
    ensures PowPositive(pow) && k > 0.0 && t.speedFactor > 0.0 && dist > t.deadZone ==> m > 0.0
  {
    var eff := dist - t.deadZone;
    assert PowPositive(pow) && dist > t.deadZone ==> pow(eff, t.sensitivity) > 0.0;
    pow(eff, t.sensitivity) * k * t.speedFactor
  }

  /** The magnitude grows strictly with the distance when pow grows with its base. */
  lemma MagnitudeIncreasing(k: real, t: Tunables, d1: real, d2: real, pow: (real, real) -> real)
    requires PowIncreasing(pow, t.sensitivity) && k > 0.0 && t.speedFactor > 0.0
    requires t.deadZone < d1 < d2
    ensures Magnitude(k, t, d1, pow) < Magnitude(k, t, d2, pow)
  {
  }

  /** The unit vector (dx, dy) / dist scaled by m, with y negated, has length
      m when dist is the norm. */
  lemma UnitScaled(dx: real, dy: real, dist: real, m: real)
    requires dist != 0.0
    ensures IsNorm(dist, dx, dy) ==>
              (dx / dist * m) * (dx / dist * m) + (dy / dist * m * -1.0) * (dy / dist * m * -1.0) == m * m
  {
    if IsNorm(dist, dx, dy) {
      DivMul(dx, dist);
      DivMul(dy, dist);
      UnitLength(dx / dist, dy / dist, dist, dx, dy);
      ScaledLength(dx / dist, dy / dist, m);
    }
  }

  /** The scroll request of the two-axis copies, or None when none is made:
      inside the dead zone, and when the distance is zero (reachable only with
      a negative dead zone) because dx / dist then raises ZeroDivisionError,
      which the loop swallows. */
  function Emission(k: real, t: Tunables, dx: real, dy: real, dist: real, pow: (real, real) -> real)
    : (r: Option<Vector>)
    ensures r.Some? <==> dist > t.deadZone && dist != 0.0
    ensures r.Some? && dx == 0.0 ==> r.value.x == 0.0
    // x follows dx, y opposes dy
    ensures r.Some? && dist >= 0.0 && Magnitude(k, t, dist, pow) > 0.0 ==>
              Sign(r.value.x) == Sign(dx) && Sign(r.value.y) == -Sign(dy)
  {
    if dist > t.deadZone && dist != 0.0 then
      var speedScalar := Magnitude(k, t, dist, pow);
      Some(Vector(dx / dist * speedScalar, dy / dist * speedScalar * -1.0))
    else None
  }

  /** (x, -y) of an emitted scroll is (dx, dy) scaled by magnitude / dist. */
  lemma EmissionScaled(k: real, t: Tunables, dx: real, dy: real, dist: real, pow: (real, real) -> real)
    requires Emission(k, t, dx, dy, dist, pow).Some?
    ensures Emission(k, t, dx, dy, dist, pow).value.x * dist == dx * Magnitude(k, t, dist, pow)
    ensures Emission(k, t, dx, dy, dist, pow).value.y * dist == -(dy * Magnitude(k, t, dist, pow))
  {
  }

  /** The length of an emitted scroll is the magnitude. */
  lemma {:induction false} EmissionLength(k: real, t: Tunables, dx: real, dy: real, dist: real, pow: (real, real) -> real)
    requires IsNorm(dist, dx, dy) && Emission(k, t, dx, dy, dist, pow).Some?
    ensures var v := Emission(k, t, dx, dy, dist, pow).value;
            v.x * v.x + v.y * v.y == Magnitude(k, t, dist, pow) * Magnitude(k, t, dist, pow)
  {
    UnitScaled(dx, dy, dist, Magnitude(k, t, dist, pow));
  }

  /** The scroll request of autoscroll_qt_v2.py: only the vertical
      displacement is read; its distance is |dy|. */
  function VerticalEmission(k: real, t: Tunables, dy: real, pow: (real, real) -> real)
    : (r: Option<Vector>)
    ensures r.Some? <==> Abs(dy) > t.deadZone
    ensures r.Some? ==> r.value.x == 0.0
    ensures r.Some? ==> Abs(r.value.y) == Abs(Magnitude(k, t, Abs(dy), pow))
    ensures r.Some? && Magnitude(k, t, Abs(dy), pow) > 0.0 ==>
              (dy > 0.0 ==> r.value.y < 0.0) && (dy <= 0.0 ==> r.value.y > 0.0)
  {
    var dist := Abs(dy);
    if dist > t.deadZone then
      var direction := if dy > 0.0 then -1.0 else 1.0;
      var speed := Magnitude(k, t, dist, pow);
      Some(Vector(0.0, direction * speed))
    else None
  }

  /** Away from the origin, the vertical-only copy scrolls exactly as the
      two-axis copies do with horizontal scrolling off. */
  lemma {:induction false} VerticalMatchesTwoAxis(k: real, t: Tunables, dy: real, pow: (real, real) -> real)
    requires dy != 0.0
    ensures VerticalEmission(k, t, dy, pow) == Emission(k, t, 0.0, dy, Abs(dy), pow)
  {
    var dist := Abs(dy);
    if dist > t.deadZone {
      var m := Magnitude(k, t, dist, pow);
      assert 0.0 / dist * m == 0.0;
      if dy > 0.0 {
        assert dy / dist == 1.0;
      } else {
        assert dy / dist == -1.0;
      }
    }
  }

  /** At the origin with a negative dead zone the two differ: the vertical
      copy scrolls up, the two-axis copies divide by zero and scroll nothing. */
  lemma VerticalDiffersAtOrigin(k: real, t: Tunables, pow: (real, real) -> real)
    requires t.deadZone < 0.0
    ensures VerticalEmission(k, t, 0.0, pow).Some?
    ensures Emission(k, t, 0.0, 0.0, 0.0, pow) == None
  {
  }

  /** With horizontal scrolling off the norm is |dy|. */
  lemma NormWithoutHorizontal(dist: real, dy: real)
    requires IsNorm(dist, 0.0, dy)
    ensures dist == Abs(dy)
  {
    var a := Abs(dy);
    assert a * a == dy * dy;
    calc {
      (dist - a) * (dist + a);
      == dist * dist - a * a;
      == (0.0 * 0.0 + dy * dy) - dy * dy;
      == 0.0;
    }
    if dist + a != 0.0 {
      ZeroFactor(dist - a, dist + a);
    }
  }

  /** `hypot` is math.hypot: it returns the Euclidean norm of its arguments. */
  ghost predicate IsHypot(hypot: (real, real) -> real)
  {
    forall dx, dy :: IsNorm(hypot(dx, dy), dx, dy)
  }

  /** With hypot the Euclidean norm, the request a two-axis tick computes for
      the pointer at `pos` has length the speed scalar, x follows the
      displacement and y opposes it; with a non-negative dead zone a request is
      made exactly beyond the dead zone. */
  lemma {:induction false} HypotEmission(k: real, t: Tunables, origin: Point, pos: Point,
                                         hypot: (real, real) -> real, pow: (real, real) -> real)
    requires IsHypot(hypot)
    ensures var d := Displacement(t.enableHorizontal, origin, pos);
            var m := Magnitude(k, t, hypot(d.x, d.y), pow);
            var r := Emission(k, t, d.x, d.y, hypot(d.x, d.y), pow);
            && (t.deadZone >= 0.0 ==> (r.Some? <==> hypot(d.x, d.y) > t.deadZone))
            && (r.Some? ==> r.value.x * r.value.x + r.value.y * r.value.y == m * m)
            && (r.Some? && m > 0.0 ==> Sign(r.value.x) == Sign(d.x) && Sign(r.value.y) == -Sign(d.y))
  {
    var d := Displacement(t.enableHorizontal, origin, pos);
    var dist := hypot(d.x, d.y);
    assert IsNorm(dist, d.x, d.y);
    if Emission(k, t, d.x, d.y, dist, pow).Some? {
      EmissionLength(k, t, d.x, d.y, dist, pow);
    }
  }

  /** One iteration of scroll_loop in the two-axis copies, while the pointer
      is at `pos`. `lastDir` is the loop variable last_dir and `nextDir` its
      value afterwards; `notify` is the direction notification; `scroll` the
      request sent to the host. */
  method Tick(cfg: GlobalConfig, k: real, lastDir: Direction, pos: Point,
              hypot: (real, real) -> real, pow: (real, real) -> real)
    returns (nextDir: Direction, notify: Option<Direction>, scroll: Option<Vector>)
    // the inactive branch only resets last_dir
    ensures !cfg.active ==> nextDir == Neutral && notify == None && scroll == None
    ensures cfg.active ==>
              var d := Displacement(cfg.enableHorizontal, cfg.origin, pos);
              && nextDir == Classify(d.x, d.y, hypot(d.x, d.y), cfg.deadZone)
              && scroll == Emission(k, cfg.Snapshot(), d.x, d.y, hypot(d.x, d.y), pow)
    // the direction is notified exactly when it changes, and then it is the new one
    ensures notify.Some? <==> cfg.active && nextDir != lastDir
    ensures notify.Some? ==> notify.value == nextDir
    // nothing scrolls within the dead zone
    ensures var d := Displacement(cfg.enableHorizontal, cfg.origin, pos);
            hypot(d.x, d.y) <= cfg.deadZone ==> scroll == None && nextDir == Neutral
    // horizontal scrolling off: no horizontal direction and no horizontal scroll
    ensures !cfg.enableHorizontal ==>
              nextDir != Left && nextDir != Right && (scroll.Some? ==> scroll.value.x == 0.0)
  {
    if !cfg.active {
      return Neutral, None, None;
    }
    var dx := pos.x - cfg.origin.x;
    var dy := pos.y - cfg.origin.y;
    if !cfg.enableHorizontal {
      dx := 0.0;
    }
    var dist := hypot(dx, dy);
    var currentDir := Neutral;
    if dist > cfg.deadZone {
      if Abs(dx) > Abs(dy) {
        currentDir := if dx > 0.0 then Right else Left;
      } else {
        currentDir := if dy > 0.0 then Down else Up;
      }
    }
    nextDir, notify := lastDir, None;
    if currentDir != lastDir {
      notify := Some(currentDir);
      nextDir := currentDir;
    }
    scroll := None;
    // dist == 0 here would raise ZeroDivisionError, swallowed by the loop's bare except
    if dist > cfg.deadZone && dist != 0.0 {
      var speedScalar := Magnitude(k, cfg.Snapshot(), dist, pow);
      scroll := Some(Vector(dx / dist * speedScalar, dy / dist * speedScalar * -1.0));
      assert scroll.value.x == Emission(k, cfg.Snapshot(), dx, dy, dist, pow).value.x;
      assert scroll.value.y == Emission(k, cfg.Snapshot(), dx, dy, dist, pow).value.y;
    }
  }

  /** One iteration of scroll_loop in autoscroll_qt_v2.py. */
  method VerticalTick(cfg: GlobalConfig, k: real, pos: Point, pow: (real, real) -> real)
    returns (scroll: Option<Vector>)
    ensures scroll == if cfg.active then VerticalEmission(k, cfg.Snapshot(), pos.y - cfg.origin.y, pow) else None
  {
    scroll := None;
    if cfg.active {
      var dy := pos.y - cfg.origin.y;
      var dist := Abs(dy);
      if dist > cfg.deadZone {
        var direction := if dy > 0.0 then -1.0 else 1.0;
        var speed := Magnitude(k, cfg.Snapshot(), dist, pow);
        scroll := Some(Vector(0.0, direction * speed));
        assert scroll.value.y == VerticalEmission(k, cfg.Snapshot(), dy, pow).value.y;
      }
    }
  }

  // Real-arithmetic facts, each stated over plain variables so that the
  // solver meets one product at a time.

  lemma MulPos(a: real, b: real)
    requires a > 0.0 && b > 0.0
    ensures a * b > 0.0
  {
  }

  lemma MulNonZero(a: real, b: real)
    requires a != 0.0 && b != 0.0
    ensures a * b != 0.0
  {
    if a > 0.0 && b > 0.0 {
      MulPos(a, b);
    } else if a > 0.0 {
      MulPos(a, -b);
      assert a * (-b) == -(a * b);
    } else if b > 0.0 {
      MulPos(-a, b);
      assert (-a) * b == -(a * b);
    } else {
      MulPos(-a, -b);
      assert (-a) * (-b) == a * b;
    }
  }

  lemma ZeroFactor(a: real, b: real)
    requires a * b == 0.0 && b != 0.0
    ensures a == 0.0
  {
    if a != 0.0 {
      MulNonZero(a, b);
    }
  }

  lemma DivMul(a: real, d: real)
    requires d != 0.0
    ensures (a / d) * d == a
  {
  }

  lemma SquareIncreasing(a: real, b: real)
    requires 0.0 < a < b
    ensures a * a < b * b
  {
    MulPos(a, b - a);
    MulPos(b, b - a);
    assert a * b - a * a > 0.0;
    assert b * b - a * b > 0.0;
  }

  /** If (u, w) * dist is a vector of length dist != 0, then (u, w) has length one. */
  lemma UnitLength(u: real, w: real, dist: real, dx: real, dy: real)
    requires u * dist == dx && w * dist == dy
    requires dist * dist == dx * dx + dy * dy && dist != 0.0
    ensures u * u + w * w == 1.0
  {
    calc {
      (dist * (u * u + w * w - 1.0)) * dist;
      == (u * dist) * (u * dist) + (w * dist) * (w * dist) - dist * dist;
      == dx * dx + dy * dy - dist * dist;
      == 0.0;
    }
    ZeroFactor(dist * (u * u + w * w - 1.0), dist);
    ZeroFactor(u * u + w * w - 1.0, dist);
  }

  lemma ScaledLength(u: real, w: real, m: real)
    requires u * u + w * w == 1.0
    ensures (u * m) * (u * m) + (w * m * -1.0) * (w * m * -1.0) == m * m
  {
    calc {
      (u * m) * (u * m) + (w * m * -1.0) * (w * m * -1.0);
      == (u * u + w * w) * (m * m);
      == 1.0 * (m * m);
    }
  }
}
