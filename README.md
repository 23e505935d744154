# Particles-interactions: Euler stepper for two charged particles

This project models the simulation core of Particles-interactions in Dafny. It has two parts:

- **The particle store** (`particles.py`, module `ParticleStore`). It holds six parallel per-particle lists and a particle counter. Mass and charge are fixed when a particle is added. Each particle's x, y, vx and vy lists are append-only histories, and the last entry is the particle's current state.
- **The explicit Euler stepper** (`euler.py`, module `EulerStepper`). One call of `calc` does two phases:
  - `calc_coords` appends `x + vx*dt` and `y + vy*dt` to every particle.
  - `calc_velocities` computes the coupling `A = k * q_0 * ... * q_{n-1}`, the distance `L` between particles 0 and 1, and `F = A / L**2`. It then appends to every particle the velocity increment `((F*cos)/m)*dt` and `((F*sin)/m)*dt`.

The pure formulas of the velocity phase (force, direction, increment) and the physics proved about them are in module `Coulomb`. Python list indexing, including negative indices and IndexError, is in module `Common`.

Both core files change state in place, so both are modelled as Dafny classes:

- `Particles` has `seq` fields, a `Valid()` invariant and `Add`.
- `Euler` holds `dt` and a reference to its store. Its step methods `modify` the store and state its whole new state.

The model follows the code as written:

- **The force uses the new coordinates.** `calc_velocities` runs after `calc_coords`, and the getters return the last entry. `Euler.Calc` therefore states the increments through `StepKick`, which is evaluated in the post-state.
- **The velocity histories store increments.** The value appended is the increment, not the old velocity plus the increment. The next coordinate phase uses that increment as the velocity.
- **Like charges attract.** Particle 0 is pushed along (p1 - p0) by `A / L**2`, and every other particle along (p0 - p1). So with `k > 0`, two like charges move towards each other. `Coulomb.LikeChargesAttract` and `EulerStepper.StepAttraction` state this as the code computes it.
- **Errors are results, not exceptions.** The three exceptions `calc_velocities` can raise are returned as `Option<StepError>`:
  - IndexError when particle 1 does not exist (`TooFewParticles`);
  - ZeroDivisionError when `L**2 == 0` (`CoincidentParticles`);
  - ZeroDivisionError at the first particle of zero mass (`ZeroMass(j)`).
- **A failed step leaves partial updates.** The state changes already made stay in place: after an error, the coordinates have advanced, and the particles before `j` have their increments.
- **`add` does not validate the mass.** A zero mass is accepted, and the failure shows up only in the velocity phase.
- **The code's typos are modelled as intended.** The methods of `Particles` lack `self`; they are modelled as instance methods. `get_v` reads a nonexistent `xy_list`; it is modelled as reading the vy history. `add` stores mass and charge as one-element lists; they are modelled as the scalar they wrap.
- **`dt` is a real number.** The constructor's annotation says `int`, but any number works.
- **Getters accept Python indices.** Negative indices count from the end, and an out-of-range index is `None`.

## Model

| member | source | states |
|---|---|---|
| Common.PyIndex | particles.py:61 | A Python index into a list of length n is valid exactly when -n <= i < n, and it denotes position i or i + n |
| ParticleStore.Particles.constructor | particles.py:5-13 | A new store has zero particles, all six lists are empty, and the store is valid and synchronised |
| ParticleStore.Particles.Add | particles.py:16-43 | The count grows by one; each list grows by exactly the new particle's entry, so earlier particles are unchanged; each new history holds only the initial value; the length invariant and coordinate/velocity synchronisation are preserved; the getters return the new values at the new index |
| ParticleStore.Particles.GetM | particles.py:46-62 | Defined exactly for valid Python indices; returns the mass stored at creation (from the front or the back) |
| ParticleStore.Particles.GetQ | particles.py:65-81 | Defined exactly for valid Python indices; returns the charge stored at creation |
| ParticleStore.Particles.GetCoords | particles.py:84-100 | Defined exactly for valid Python indices; returns the last x and y entries, the particle's current position |
| ParticleStore.Particles.GetV | particles.py:103-119 | Defined exactly for valid Python indices; returns the last vx and vy entries |
| EulerStepper.Euler.constructor | euler.py:7-9 | The stepper keeps dt and owns a fresh, empty, valid store |
| EulerStepper.Euler.Calc | euler.py:12-18 | One step appends exactly one coordinate entry per particle, computed from the pre-step position and velocity. It appends one velocity entry per particle, the increment given by the force at the new positions. Masses and charges are unchanged. It fails exactly when there are fewer than two particles, particles 0 and 1 coincide, or a mass is zero, and then keeps the partial update. On success, coordinate and velocity histories stay the same length |
| EulerStepper.Euler.CalcCoords | euler.py:21-35 | Every x and y history grows by exactly last x + last vx * dt and last y + last vy * dt; velocities, masses and charges are unchanged |
| EulerStepper.Euler.ChargeProduct | euler.py:43-45 | The accumulated coupling equals k times the product of all charges |
| EulerStepper.Euler.CalcVelocities | euler.py:38-78 | Appends to each particle the increment (F cos / m) dt, (F sin / m) dt for F = A / L**2 at the current positions. Coordinates, masses and charges are unchanged. The error conditions (fewer than two particles, coincident particles, the first zero mass) are each stated as an if-and-only-if. On a zero mass, only the earlier particles have received their increment |
| EulerStepper.Euler.AppendKicks | euler.py:58-78 | Appends, in index order, each particle's increment, and stops at the first zero mass with no later particle touched |
| EulerStepper.StepThirdLaw | euler.py:62-74 | In one step, m0 * dv0 == -(mn * dvn) on both axes for every other particle n (Newton's third law) |
| EulerStepper.NeutralStep | euler.py:43-45 | If any particle has zero charge, every increment of the step is (0, 0) |
| EulerStepper.StepAttraction | euler.py:62-74 | Particle 0's increment points towards particle 1 exactly when the coupling is positive, so like charges attract as written |
| Coulomb.Coupling | euler.py:43-45 | The coupling A = k * q_0 * ... * q_{n-1}, multiplied in index order; it is zero whenever k is (the full condition is `CouplingVanishes`) |
| Coulomb.Dist2 | euler.py:53 | The squared distance (x2 - x1)**2 + (y2 - y1)**2 is never negative, so the argument of math.sqrt never makes it raise ValueError |
| Coulomb.Force | euler.py:56 | F = A / L**2 is zero exactly when A is, and positive exactly when A is |
| Coulomb.Direction | euler.py:62-67 | (cos, sin) is (p1 - p0) / L for particle 0, and for every other particle exactly its negation |
| Coulomb.Increment | euler.py:69-74 | The increment ((F cos) / m) dt, ((F sin) / m) dt is (0, 0) when F or dt is zero |
| Coulomb.Kick | euler.py:56-74 | The increment particle n receives (force, direction and increment composed); it is (0, 0) when the coupling is zero |
| EulerStepper.Advance | euler.py:30-31 | The new coordinate x0 + vx0 * dt; it equals x0 exactly when the velocity or dt is zero |
| EulerStepper.Euler.StepKick | euler.py:50-74 | The increment the store's current state gives particle n: the coupling of all charges, particles 0 and 1 at their last positions, L = sqrt of their squared distance; it is (0, 0) when the coupling is zero |
| Coulomb.CouplingVanishes | euler.py:43-45 | The coupling k * product of charges is zero exactly when k or some charge is zero |
| Coulomb.CoincidentIff | euler.py:53 | The squared distance is zero exactly when the two positions are equal |
| Coulomb.SeparationPositive | euler.py:53-56 | For distinct positions, L = sqrt(dx**2 + dy**2) is positive and L**2 equals the squared distance, so F = A / L**2 is defined |
| Coulomb.NoChargeNoKick | euler.py:56-74 | With a zero charge among the charges, the increment is (0, 0) whatever the positions and mass |
| Coulomb.ThirdLaw | euler.py:62-74 | Particle 0 and particle n != 0 get increments with m0 * dv0 == -(mn * dvn) |
| Coulomb.MassTimesIncrement | euler.py:73-74 | Mass times increment is F * direction * dt on both axes |
| Coulomb.AlongTheLine | euler.py:56-74 | When L**2 is the squared distance, the increment's projection on the vector between the particles, oriented as the code orients it for that particle, is A * dt / (m * L) |
| Coulomb.KickAlong | euler.py:62-74 | The increment lies along the line through the two particles: it is the vector between them (p1 - p0 for particle 0, p0 - p1 for the others) stretched by F * dt / (m * L) |
| Coulomb.LikeChargesAttract | euler.py:62-74 | For a positive mass and time step, the increment points along the direction used exactly when A > 0 |

## Left out

- `source/plotter.py` is not part of this model. It draws and animates the histories with matplotlib and has no algorithmic content.
- The `__main__` script block of `euler.py` is left out. It only sets constants and initial particles.
- Floating point is left out. The model computes with exact reals, so IEEE-754 rounding, overflow and underflow are not modelled. In particular, `L**2` cannot underflow to zero for distinct particles here, although in floats it can.
- `math.sqrt` is a parameter `sqrt` with the property `IsSqrt` (non-negative, and its square is its argument).
- The Coulomb constant `k` is a parameter of `Calc`. The script reads it as a module global.
- Python runtime failures caused by the code's typos are not modelled: the missing `self`, `xy_list`, and multiplying by a one-element list. The evident intent is modelled instead, as described above.
- In `calc_velocities`, the ZeroDivisionError for a zero mass is raised only after `Fx` and `Fy` are computed. The model checks the mass first; both leave the same state.
