/** The per-step formulas of the two-body Coulomb interaction that
    `Euler.calc_velocities` evaluates: the coupling A = k * q_0 * q_1 * ...,
    the separation of particles 0 and 1, the inverse-square force A / L**2,
    its direction for each particle, and the velocity increment
    (F cos / m) dt. */
module Coulomb {

  /** An (x, y) pair: a position or a velocity. */
  datatype Vec = Vec(x: real, y: real)

  function Minus(a: Vec, b: Vec): Vec
  {
    Vec(a.x - b.x, a.y - b.y)
  }

  /** The vector `v` stretched by the factor `c`. */
  function Scale(c: real, v: Vec): Vec
  {
    Vec(c * v.x, c * v.y)
  }

  function Dot(a: Vec, b: Vec): real
  {
    a.x * b.x + a.y * b.y
  }

  /** Python's `v**2`, the square of `v`. (It is spelled as the product of
      `v` and `Id(v)` only so that the solver treats it as an ordinary
      product of two terms.) */
  function Sq(v: real): real
  {
    v * Id(v)
  }

  function Id(v: real): real
  {
    v
  }

  /** math.sqrt, which the model receives from its caller: any function that
      maps every non-negative real to its non-negative square root. */
  ghost predicate IsSqrt(sqrt: real -> real)
  {
    forall v :: 0.0 <= v ==> 0.0 <= sqrt(v) && Sq(sqrt(v)) == v
  }

  /** The coupling A: k multiplied by every charge, in index order. */
  function Coupling(k: real, charges: seq<real>): (r: real)
    ensures k == 0.0 ==> r == 0.0
  {
    if |charges| == 0 then k
    else Coupling(k, charges[..|charges| - 1]) * charges[|charges| - 1]
  }

  /** (x2 - x1)**2 + (y2 - y1)**2, the squared distance from p0 to p1. */
  function Dist2(p0: Vec, p1: Vec): (r: real)
    ensures 0.0 <= r
  {
    SqPositive(p1.x - p0.x);
    SqPositive(p1.y - p0.y);
    Sq(p1.x - p0.x) + Sq(p1.y - p0.y)
  }

  /** F = A / L**2. */
  function Force(a: real, len: real): (r: real)
    requires len != 0.0
    ensures r == 0.0 <==> a == 0.0
    ensures 0.0 < r <==> 0.0 < a
  {
    SqPositive(len);
    a / Sq(len)
  }

  /** (cos, sin) of the force on particle `n`: particle 0 uses the unit
      vector from particle 0 to particle 1, every other particle exactly the
      opposite one. */
  function Direction(n: int, p0: Vec, p1: Vec, len: real): (r: Vec)
    requires len != 0.0
    ensures n != 0 ==> r == Vec(-Direction(0, p0, p1, len).x, -Direction(0, p0, p1, len).y)
    decreases if n == 0 then 0 else 1
  {
    if n == 0 then Vec((p1.x - p0.x) / len, (p1.y - p0.y) / len)
    else Vec((p0.x - p1.x) / len, (p0.y - p1.y) / len)
  }

  /** The velocity increment ((F cos) / m) dt, ((F sin) / m) dt. */
  function Increment(f: real, dir: Vec, m: real, dt: real): (r: Vec)
    requires m != 0.0
    ensures f == 0.0 || dt == 0.0 ==> r == Vec(0.0, 0.0)
  {
    Vec((f * dir.x / m) * dt, (f * dir.y / m) * dt)
  }

  /** The increment that the step appends for particle `n` of mass `m`, when
      particles 0 and 1 are at p0 and p1, `len` apart, with coupling `a`. */
  function Kick(a: real, p0: Vec, p1: Vec, len: real, n: int, m: real, dt: real): (r: Vec)
    requires len != 0.0 && m != 0.0
    ensures a == 0.0 ==> r == Vec(0.0, 0.0)
  {
    Increment(Force(a, len), Direction(n, p0, p1, len), m, dt)
  }

  /** The coupling vanishes exactly when k or one of the charges is zero. */
  lemma {:induction false} CouplingVanishes(k: real, charges: seq<real>)
    ensures Coupling(k, charges) == 0.0 <==>
            (k == 0.0 || exists i :: 0 <= i < |charges| && charges[i] == 0.0)
  {
    if |charges| > 0 {
      var front, q := charges[..|charges| - 1], charges[|charges| - 1];
      CouplingVanishes(k, front);
      assert Coupling(k, charges) == Coupling(k, front) * q;
      if exists i :: 0 <= i < |charges| && charges[i] == 0.0 {
        var i :| 0 <= i < |charges| && charges[i] == 0.0;
        if i < |front| {
          assert front[i] == 0.0;
        }
      }
      if exists i :: 0 <= i < |front| && front[i] == 0.0 {
        var i :| 0 <= i < |front| && front[i] == 0.0;
        assert charges[i] == 0.0;
      }
    }
  }

  /** Python's v**2 is never negative, and zero only when v is. */
  lemma SqPositive(v: real)
    ensures 0.0 <= Sq(v)
    ensures v != 0.0 ==> 0.0 < Sq(v)
  {
    if v > 0.0 {
      ProductOfPositives(v, v);
    } else if v < 0.0 {
      ProductOfNegatives(v, v);
    }
  }

  lemma ProductOfPositives(a: real, b: real)
    requires 0.0 < a && 0.0 < b
    ensures 0.0 < a * b
  {
  }

  lemma ProductOfNegatives(a: real, b: real)
    requires a < 0.0 && b < 0.0
    ensures 0.0 < a * b
  {
  }

  /** A product of reals is zero exactly when a factor is. */
  lemma ZeroProduct(a: real, b: real)
    ensures a * b == 0.0 <==> a == 0.0 || b == 0.0
  {
    if 0.0 < a && 0.0 < b {
      ProductOfPositives(a, b);
    } else if a < 0.0 && b < 0.0 {
      ProductOfNegatives(a, b);
    } else if 0.0 < a && b < 0.0 {
      ProductOfPositives(a, -b);
      assert a * b == -(a * -b);
    } else if a < 0.0 && 0.0 < b {
      ProductOfPositives(-a, b);
      assert a * b == -(-a * b);
    }
  }

  /** Particles 0 and 1 are a zero squared distance apart exactly when they
      are at the same position. */
  lemma CoincidentIff(p0: Vec, p1: Vec)
    ensures Dist2(p0, p1) == 0.0 <==> p0 == p1
  {
    SqPositive(p1.x - p0.x);
    SqPositive(p1.y - p0.y);
    if p0 == p1 {
      assert Sq(p1.x - p0.x) == Sq(0.0) == 0.0;
      assert Sq(p1.y - p0.y) == Sq(0.0);
    }
  }

  /** The L that the step computes, math.sqrt of the squared distance, is
      positive for distinct positions and squares back to that distance. */
  lemma SeparationPositive(sqrt: real -> real, p0: Vec, p1: Vec)
    requires IsSqrt(sqrt) && p0 != p1
    ensures 0.0 < sqrt(Dist2(p0, p1)) && Sq(sqrt(Dist2(p0, p1))) == Dist2(p0, p1)
  {
    CoincidentIff(p0, p1);
    SqPositive(p1.x - p0.x);
    SqPositive(p1.y - p0.y);
  }

  /** A zero charge anywhere makes every increment (0, 0), whatever the
      positions and masses. */
  lemma NoChargeNoKick(k: real, charges: seq<real>, j: nat,
                       p0: Vec, p1: Vec, len: real, n: int, m: real, dt: real)
    requires j < |charges| && charges[j] == 0.0
    requires len != 0.0 && m != 0.0
    ensures Kick(Coupling(k, charges), p0, p1, len, n, m, dt) == Vec(0.0, 0.0)
  {
    CouplingVanishes(k, charges);
    SqPositive(len);
    ZeroOver(Sq(len));
  }

  lemma ZeroOver(d: real)
    requires d != 0.0
    ensures 0.0 / d == 0.0
  {
  }

  /** Newton's third law between particle 0 and any other particle n:
      m0 dv0 == -(mn dvn) on each axis. */
  lemma ThirdLaw(a: real, p0: Vec, p1: Vec, len: real, n: int, m0: real, mn: real, dt: real)
    requires len != 0.0 && m0 != 0.0 && mn != 0.0 && n != 0
    ensures m0 * Kick(a, p0, p1, len, 0, m0, dt).x == -(mn * Kick(a, p0, p1, len, n, mn, dt).x)
    ensures m0 * Kick(a, p0, p1, len, 0, m0, dt).y == -(mn * Kick(a, p0, p1, len, n, mn, dt).y)
  {
    var f := Force(a, len);
    var d0, dn := Direction(0, p0, p1, len), Direction(n, p0, p1, len);
    assert dn.x == -d0.x && dn.y == -d0.y;
    MassTimesIncrement(f, d0, m0, dt);
    MassTimesIncrement(f, dn, mn, dt);
  }

  /** Mass times increment is F times the direction times dt: the momentum
      the force transfers in one step. */
  lemma MassTimesIncrement(f: real, dir: Vec, m: real, dt: real)
    requires m != 0.0
    ensures m * Increment(f, dir, m, dt).x == f * dir.x * dt
    ensures m * Increment(f, dir, m, dt).y == f * dir.y * dt
  {
    assert m * (f * dir.x / m) == f * dir.x;
    assert m * (f * dir.y / m) == f * dir.y;
  }

  /** The component of particle 0's increment along the line towards
      particle 1, and of any other particle's increment along the line
      towards particle 0, is A dt / (m L). */
  lemma AlongTheLine(a: real, p0: Vec, p1: Vec, len: real, n: int, m: real, dt: real)
    requires 0.0 < len && Sq(len) == Dist2(p0, p1) && m != 0.0
    ensures n == 0 ==> Dot(Kick(a, p0, p1, len, n, m, dt), Minus(p1, p0)) == a * dt / (m * len)
    ensures n != 0 ==> Dot(Kick(a, p0, p1, len, n, m, dt), Minus(p0, p1)) == a * dt / (m * len)
  {
    var toward := if n == 0 then Minus(p1, p0) else Minus(p0, p1);
    var c := Stretch(Force(a, len), len, m, dt);
    assert Sq(toward.x) + Sq(toward.y) == Sq(len) by {
      OppositeSq(p1.x - p0.x);
      OppositeSq(p1.y - p0.y);
    }
    SqPositive(len);
    calc {
      Dot(Kick(a, p0, p1, len, n, m, dt), toward);
      { KickAlong(a, p0, p1, len, n, m, dt); }
      Dot(Scale(c, toward), toward);
      { DotScaled(c, toward); }
      c * (Sq(toward.x) + Sq(toward.y));
      c * Sq(len);
      { CancelForce(a, len, m, dt); }
      a * dt / (m * len);
    }
  }

  /** Each increment is the unit vector of its direction scaled by
      F dt / (m L). */
  lemma KickAlong(a: real, p0: Vec, p1: Vec, len: real, n: int, m: real, dt: real)
    requires len != 0.0 && m != 0.0
    ensures var toward := if n == 0 then Minus(p1, p0) else Minus(p0, p1);
            var c := Stretch(Force(a, len), len, m, dt);
            Kick(a, p0, p1, len, n, m, dt) == Scale(c, toward)
  {
    var t := if n == 0 then Minus(p1, p0) else Minus(p0, p1);
    var f := Force(a, len);
    assert Direction(n, p0, p1, len) == Vec(t.x / len, t.y / len);
    assert Kick(a, p0, p1, len, n, m, dt) == Increment(f, Vec(t.x / len, t.y / len), m, dt);
    ScaledIncrement(f, t, len, m, dt);
  }

  /** The factor F dt / (m L) by which an increment stretches the vector
      between the two particles. */
  function Stretch(f: real, len: real, m: real, dt: real): real
    requires len != 0.0 && m != 0.0
  {
    f * dt / (m * len)
  }

  lemma ScaledIncrement(f: real, t: Vec, len: real, m: real, dt: real)
    requires len != 0.0 && m != 0.0
    ensures var c := Stretch(f, len, m, dt);
            Increment(f, Vec(t.x / len, t.y / len), m, dt) == Scale(c, t)
  {
    ScaledComponent(f, t.x, len, m, dt);
    ScaledComponent(f, t.y, len, m, dt);
  }

  lemma DotScaled(c: real, t: Vec)
    ensures Dot(Scale(c, t), t) == c * (Sq(t.x) + Sq(t.y))
  {
  }

  lemma ScaledComponent(f: real, t: real, len: real, m: real, dt: real)
    requires len != 0.0 && m != 0.0
    ensures (f * (t / len) / m) * dt == Stretch(f, len, m, dt) * t
  {
  }

  lemma OppositeSq(v: real)
    ensures Sq(-v) == Sq(v)
  {
  }

  lemma CancelForce(a: real, len: real, m: real, dt: real)
    requires len != 0.0 && m != 0.0
    ensures Stretch(Force(a, len), len, m, dt) * Sq(len) == a * dt / (m * len)
  {
    SqPositive(len);
    CancelSquare(a, Sq(len), dt, m * len);
  }

  lemma CancelSquare(a: real, s: real, dt: real, d: real)
    requires s != 0.0 && d != 0.0
    ensures a / s * dt / d * s == a * dt / d
  {
  }

  /** With the orientation the step uses, a positive coupling (charges of
      the same sign, k > 0) moves particle 0 towards particle 1 and every
      other particle towards particle 0, for positive masses and dt, and a
      negative one moves them apart: like charges attract and unlike ones
      repel. */
  lemma LikeChargesAttract(a: real, p0: Vec, p1: Vec, len: real, n: int, m: real, dt: real)
    requires 0.0 < len && Sq(len) == Dist2(p0, p1) && 0.0 < m && 0.0 < dt
    ensures n == 0 ==> (0.0 < Dot(Kick(a, p0, p1, len, n, m, dt), Minus(p1, p0)) <==> 0.0 < a)
    ensures n != 0 ==> (0.0 < Dot(Kick(a, p0, p1, len, n, m, dt), Minus(p0, p1)) <==> 0.0 < a)
  {
    AlongTheLine(a, p0, p1, len, n, m, dt);
    ProductOfPositives(m, len);
    SignOfQuotient(a, dt, m * len);
  }

  lemma SignOfQuotient(a: real, dt: real, d: real)
    requires 0.0 < dt && 0.0 < d
    ensures 0.0 < a * dt / d <==> 0.0 < a
  {
    if 0.0 < a {
      ProductOfPositives(a, dt);
    } else {
      assert a * dt <= 0.0;
    }
  }
}
