/** The explicit Euler stepper of euler.py. `Calc` advances every particle
    by one time step in two phases: `CalcCoords` appends x + vx dt and
    y + vy dt to each coordinate history, then `CalcVelocities` appends to
    each velocity history the increment produced by the Coulomb force
    between particles 0 and 1, evaluated at the coordinates just appended. */
module EulerStepper {
  import opened Common
  import opened Coulomb
  import opened ParticleStore

  /** The exceptions `calc_velocities` raises: IndexError when particle 0 or
      1 does not exist, ZeroDivisionError when L**2 is zero, and
      ZeroDivisionError when the mass of particle `index` is zero. */
  datatype StepError = TooFewParticles | CoincidentParticles | ZeroMass(index: nat)

  /** How many particles, from index 0 on, received a velocity increment
      before the step ended with `err`. */
  function Reached(err: Option<StepError>, amount: nat): nat
  {
    match err
    case None => amount
    case Some(ZeroMass(j)) => j
    case Some(_) => 0
  }

  /** One explicit Euler update of a coordinate from its rate of change. */
  function Advance(p: real, v: real, dt: real): (r: real)
    ensures r == p <==> v == 0.0 || dt == 0.0
  {
    ZeroProduct(v, dt);
    p + v * dt
  }

  class Euler {
    const dt: real
    const particles: Particles

    /** A stepper with time step `dt` over a fresh, empty store. */
    constructor (dt: real)
      ensures this.dt == dt && fresh(particles)
      ensures particles.Valid() && particles.amount == 0
      ensures particles.masses == [] && particles.charges == []
      ensures particles.xs == [] && particles.ys == []
      ensures particles.vxs == [] && particles.vys == []
    {
      this.dt := dt;
      particles := new Particles();
    }

    /** Particle `j` is the first one with zero mass. */
    ghost predicate FirstZeroMass(j: nat)
      reads particles
      requires particles.Valid()
    {
      j < particles.amount && particles.masses[j] == 0.0 &&
      forall i :: 0 <= i < j ==> particles.masses[i] != 0.0
    }

    /** The velocity increment that the current state gives particle `n`:
        the coupling of all charges, with particles 0 and 1 at their current
        positions and L = sqrt of their squared distance. */
    ghost function StepKick(k: real, sqrt: real -> real, n: nat): (r: Vec)
      reads this, particles
      requires particles.Valid() && IsSqrt(sqrt)
      requires 2 <= particles.amount && n < particles.amount
      requires particles.Position(0) != particles.Position(1)
      requires particles.masses[n] != 0.0
      ensures Coupling(k, particles.charges) == 0.0 ==> r == Vec(0.0, 0.0)
    {
      var p0, p1 := particles.Position(0), particles.Position(1);
      SeparationPositive(sqrt, p0, p1);
      Kick(Coupling(k, particles.charges), p0, p1, sqrt(Dist2(p0, p1)), n, particles.masses[n], dt)
    }

    /** One Euler step: the coordinate phase, then the velocity phase. When
        the velocity phase fails, the coordinates have already advanced. */
    method Calc(k: real, sqrt: real -> real) returns (err: Option<StepError>)
      requires particles.Valid() && IsSqrt(sqrt)
      modifies particles
      ensures particles.Valid()
      ensures particles.amount == old(particles.amount)
      ensures particles.masses == old(particles.masses)
      ensures particles.charges == old(particles.charges)
      ensures forall i :: 0 <= i < particles.amount ==>
        particles.xs[i] == old(particles.xs[i]) + [old(Advance(particles.Position(i).x, particles.Velocity(i).x, dt))] &&
        particles.ys[i] == old(particles.ys[i]) + [old(Advance(particles.Position(i).y, particles.Velocity(i).y, dt))]
      ensures err == Some(TooFewParticles) <==> particles.amount < 2
      ensures err == Some(CoincidentParticles) <==>
        2 <= particles.amount && particles.Position(0) == particles.Position(1)
      ensures err.Some? && err.value.ZeroMass? ==>
        2 <= particles.amount && particles.Position(0) != particles.Position(1) &&
        FirstZeroMass(err.value.index)
      ensures err.None? <==>
        2 <= particles.amount && particles.Position(0) != particles.Position(1) &&
        forall i :: 0 <= i < particles.amount ==> particles.masses[i] != 0.0
      ensures forall i :: 0 <= i < Reached(err, particles.amount) ==>
        particles.vxs[i] == old(particles.vxs[i]) + [StepKick(k, sqrt, i).x] &&
        particles.vys[i] == old(particles.vys[i]) + [StepKick(k, sqrt, i).y]
      ensures forall i :: Reached(err, particles.amount) <= i < particles.amount ==>
        particles.vxs[i] == old(particles.vxs[i]) && particles.vys[i] == old(particles.vys[i])
      ensures err.None? && old(particles.Synced()) ==> particles.Synced()
    {
      CalcCoords();
      err := CalcVelocities(k, sqrt);
    }

    /** Appends x + vx dt and y + vy dt, from the last entries, to every
        particle's coordinate histories; nothing else changes. */
    method CalcCoords()
      requires particles.Valid()
      modifies particles
      ensures particles.Valid()
      ensures particles.amount == old(particles.amount)
      ensures particles.masses == old(particles.masses)
      ensures particles.charges == old(particles.charges)
      ensures particles.vxs == old(particles.vxs) && particles.vys == old(particles.vys)
      ensures forall i :: 0 <= i < particles.amount ==>
        particles.xs[i] == old(particles.xs[i]) + [old(Advance(particles.Position(i).x, particles.Velocity(i).x, dt))] &&
        particles.ys[i] == old(particles.ys[i]) + [old(Advance(particles.Position(i).y, particles.Velocity(i).y, dt))]
    {
      var n := 0;
      while n < particles.amount
        invariant 0 <= n <= particles.amount == old(particles.amount)
        invariant particles.Valid()
        invariant particles.masses == old(particles.masses)
        invariant particles.charges == old(particles.charges)
        invariant particles.vxs == old(particles.vxs) && particles.vys == old(particles.vys)
        invariant forall i :: 0 <= i < n ==>
          particles.xs[i] == old(particles.xs[i]) + [old(Advance(particles.Position(i).x, particles.Velocity(i).x, dt))] &&
          particles.ys[i] == old(particles.ys[i]) + [old(Advance(particles.Position(i).y, particles.Velocity(i).y, dt))]
        invariant forall i :: n <= i < particles.amount ==>
          particles.xs[i] == old(particles.xs[i]) && particles.ys[i] == old(particles.ys[i])
      {
        var c := particles.GetCoords(n).value;
        var v := particles.GetV(n).value;
        var x := c.x + v.x * dt;
        var y := c.y + v.y * dt;
        assert x == old(Advance(particles.Position(n).x, particles.Velocity(n).x, dt));
        assert y == old(Advance(particles.Position(n).y, particles.Velocity(n).y, dt));
        particles.xs := particles.xs[n := particles.xs[n] + [x]];
        particles.ys := particles.ys[n := particles.ys[n] + [y]];
        n := n + 1;
      }
    }

    /** The constant k multiplied by the charge of every particle, in index
        order. */
    method ChargeProduct(k: real) returns (a: real)
      requires particles.Valid()
      ensures a == Coupling(k, particles.charges)
    {
      a := k;
      var n := 0;
      while n < particles.amount
        invariant 0 <= n <= particles.amount
        invariant a == Coupling(k, particles.charges[..n])
      {
        a := a * particles.GetQ(n).value;
        assert particles.charges[..n + 1][..n] == particles.charges[..n];
        n := n + 1;
      }
      assert particles.charges[..n] == particles.charges;
    }

    /** Multiplies k by every charge, finds L between particles 0 and 1 and
        F = A / L**2, then appends each particle's velocity increment (not
        its new velocity) in index order. Fails, before appending anything,
        when particle 1 does not exist or L**2 is zero, and at the first
        particle with zero mass, after the earlier ones were appended. */
    method CalcVelocities(k: real, sqrt: real -> real) returns (err: Option<StepError>)
      requires particles.Valid() && IsSqrt(sqrt)
      modifies particles
      ensures particles.Valid()
      ensures particles.amount == old(particles.amount)
      ensures particles.masses == old(particles.masses)
      ensures particles.charges == old(particles.charges)
      ensures particles.xs == old(particles.xs) && particles.ys == old(particles.ys)
      ensures err == Some(TooFewParticles) <==> particles.amount < 2
      ensures err == Some(CoincidentParticles) <==>
        2 <= particles.amount && particles.Position(0) == particles.Position(1)
      ensures err.Some? && err.value.ZeroMass? ==>
        2 <= particles.amount && particles.Position(0) != particles.Position(1) &&
        FirstZeroMass(err.value.index)
      ensures err.None? <==>
        2 <= particles.amount && particles.Position(0) != particles.Position(1) &&
        forall i :: 0 <= i < particles.amount ==> particles.masses[i] != 0.0
      ensures forall i :: 0 <= i < Reached(err, particles.amount) ==>
        particles.vxs[i] == old(particles.vxs[i]) + [StepKick(k, sqrt, i).x] &&
        particles.vys[i] == old(particles.vys[i]) + [StepKick(k, sqrt, i).y]
      ensures forall i :: Reached(err, particles.amount) <= i < particles.amount ==>
        particles.vxs[i] == old(particles.vxs[i]) && particles.vys[i] == old(particles.vys[i])
    {
      var a := ChargeProduct(k);
      var c0 := particles.GetCoords(0);
      var c1 := particles.GetCoords(1);
      if c0.None? || c1.None? {
        return Some(TooFewParticles);
      }
      var p0, p1 := c0.value, c1.value;
      var len := sqrt(Sq(p1.x - p0.x) + Sq(p1.y - p0.y));
      SqPositive(p1.x - p0.x);
      SqPositive(p1.y - p0.y);
      CoincidentIff(p0, p1);
      if Sq(len) == 0.0 {
        return Some(CoincidentParticles);
      }
      SeparationPositive(sqrt, p0, p1);
      err := AppendKicks(a, p0, p1, len);
      assert forall i :: 0 <= i < Reached(err, particles.amount) ==>
        StepKick(k, sqrt, i) == Kick(a, p0, p1, len, i, particles.masses[i], dt);
    }

    /** The loop of `calc_velocities`: appends to each particle, in index
        order, the increment that coupling `a` gives it with particles 0 and
        1 at p0 and p1, `len` apart, and stops at the first zero mass. */
    method AppendKicks(a: real, p0: Vec, p1: Vec, len: real) returns (err: Option<StepError>)
      requires particles.Valid() && len != 0.0
      modifies particles
      ensures particles.Valid()
      ensures particles.amount == old(particles.amount)
      ensures particles.masses == old(particles.masses)
      ensures particles.charges == old(particles.charges)
      ensures particles.xs == old(particles.xs) && particles.ys == old(particles.ys)
      ensures err.Some? ==> err.value.ZeroMass? && FirstZeroMass(err.value.index)
      ensures err.None? <==> forall i :: 0 <= i < particles.amount ==> particles.masses[i] != 0.0
      ensures forall i :: 0 <= i < Reached(err, particles.amount) ==>
        particles.masses[i] != 0.0 &&
        particles.vxs[i] == old(particles.vxs[i]) + [Kick(a, p0, p1, len, i, particles.masses[i], dt).x] &&
        particles.vys[i] == old(particles.vys[i]) + [Kick(a, p0, p1, len, i, particles.masses[i], dt).y]
      ensures forall i :: Reached(err, particles.amount) <= i < particles.amount ==>
        particles.vxs[i] == old(particles.vxs[i]) && particles.vys[i] == old(particles.vys[i])
    {
      var f := Force(a, len);
      var n := 0;
      while n < particles.amount
        invariant 0 <= n <= particles.amount == old(particles.amount)
        invariant particles.Valid()
        invariant particles.masses == old(particles.masses)
        invariant particles.charges == old(particles.charges)
        invariant particles.xs == old(particles.xs) && particles.ys == old(particles.ys)
        invariant forall i :: 0 <= i < n ==>
          particles.masses[i] != 0.0 &&
          particles.vxs[i] == old(particles.vxs[i]) + [Kick(a, p0, p1, len, i, particles.masses[i], dt).x] &&
          particles.vys[i] == old(particles.vys[i]) + [Kick(a, p0, p1, len, i, particles.masses[i], dt).y]
        invariant forall i :: n <= i < particles.amount ==>
          particles.vxs[i] == old(particles.vxs[i]) && particles.vys[i] == old(particles.vys[i])
      {
        var m := particles.GetM(n).value;
        var dir := Direction(n, p0, p1, len);
        if m == 0.0 {
          return Some(ZeroMass(n));
        }
        var dv := Increment(f, dir, m, dt);
        particles.vxs := particles.vxs[n := particles.vxs[n] + [dv.x]];
        particles.vys := particles.vys[n := particles.vys[n] + [dv.y]];
        n := n + 1;
      }
      return None;
    }
  }

  /** Within one step, particle 0 and any other particle n receive
      increments of opposite momentum: m0 dv0 == -(mn dvn) on both axes. */
  lemma StepThirdLaw(e: Euler, k: real, sqrt: real -> real, n: nat)
    requires e.particles.Valid() && IsSqrt(sqrt)
    requires 2 <= e.particles.amount && 0 < n < e.particles.amount
    requires e.particles.Position(0) != e.particles.Position(1)
    requires e.particles.masses[0] != 0.0 && e.particles.masses[n] != 0.0
    ensures e.particles.masses[0] * e.StepKick(k, sqrt, 0).x ==
            -(e.particles.masses[n] * e.StepKick(k, sqrt, n).x)
    ensures e.particles.masses[0] * e.StepKick(k, sqrt, 0).y ==
            -(e.particles.masses[n] * e.StepKick(k, sqrt, n).y)
  {
    var p0, p1 := e.particles.Position(0), e.particles.Position(1);
    SeparationPositive(sqrt, p0, p1);
    ThirdLaw(Coupling(k, e.particles.charges), p0, p1, sqrt(Dist2(p0, p1)), n,
             e.particles.masses[0], e.particles.masses[n], e.dt);
  }

  /** A single neutral particle anywhere in the store makes every increment
      of the step zero. */
  lemma NeutralStep(e: Euler, k: real, sqrt: real -> real, j: nat, n: nat)
    requires e.particles.Valid() && IsSqrt(sqrt)
    requires 2 <= e.particles.amount && n < e.particles.amount && j < e.particles.amount
    requires e.particles.Position(0) != e.particles.Position(1)
    requires e.particles.masses[n] != 0.0
    requires e.particles.charges[j] == 0.0
    ensures e.StepKick(k, sqrt, n) == Vec(0.0, 0.0)
  {
    var p0, p1 := e.particles.Position(0), e.particles.Position(1);
    SeparationPositive(sqrt, p0, p1);
    NoChargeNoKick(k, e.particles.charges, j, p0, p1, sqrt(Dist2(p0, p1)), n,
                   e.particles.masses[n], e.dt);
  }

  /** Particle 0 is pulled towards particle 1 exactly when the coupling is
      positive (for instance two like charges and k > 0), given a positive
      mass and time step. */
  lemma StepAttraction(e: Euler, k: real, sqrt: real -> real)
    requires e.particles.Valid() && IsSqrt(sqrt)
    requires 2 <= e.particles.amount
    requires e.particles.Position(0) != e.particles.Position(1)
    requires 0.0 < e.particles.masses[0] && 0.0 < e.dt
    ensures 0.0 < Dot(e.StepKick(k, sqrt, 0), Minus(e.particles.Position(1), e.particles.Position(0)))
            <==> 0.0 < Coupling(k, e.particles.charges)
  {
    var p0, p1 := e.particles.Position(0), e.particles.Position(1);
    SeparationPositive(sqrt, p0, p1);
    LikeChargesAttract(Coupling(k, e.particles.charges), p0, p1, sqrt(Dist2(p0, p1)), 0,
                       e.particles.masses[0], e.dt);
  }
}
