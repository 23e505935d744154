/** The particle store of particles.py: six parallel per-particle lists and
    a particle counter. Mass and charge are fixed when a particle is added;
    x, y, vx and vy are append-only histories whose last entry is the
    particle's current state. */
module ParticleStore {
  import opened Common
  import opened Coulomb

  class Particles {
    var masses: seq<real>
    var charges: seq<real>
    var xs: seq<seq<real>>
    var ys: seq<seq<real>>
    var vxs: seq<seq<real>>
    var vys: seq<seq<real>>
    var amount: nat

    /** Every list holds one entry per particle; each particle's x and y
        histories have one length and its vx and vy histories another, and
        none is empty. */
    ghost predicate Valid()
      reads this
    {
      |masses| == amount && |charges| == amount &&
      |xs| == amount && |ys| == amount && |vxs| == amount && |vys| == amount &&
      forall i :: 0 <= i < amount ==>
        0 < |xs[i]| == |ys[i]| && 0 < |vxs[i]| == |vys[i]|
    }

    /** Every particle has as many coordinate entries as velocity entries. */
    ghost predicate Synced()
      reads this
      requires Valid()
    {
      forall i :: 0 <= i < amount ==> |xs[i]| == |vxs[i]|
    }

    /** A new store holds no particle and all six lists are empty. */
    constructor ()
      ensures Valid() && Synced()
      ensures amount == 0
      ensures masses == [] && charges == []
      ensures xs == [] && ys == [] && vxs == [] && vys == []
    {
      masses, charges := [], [];
      xs, ys, vxs, vys := [], [], [], [];
      amount := 0;
    }

    /** Appends a particle whose four histories each hold its initial value,
        leaving every earlier particle as it was. */
    method Add(m: real, q: real, x0: real, y0: real, vx0: real, vy0: real)
      requires Valid()
      modifies this
      ensures Valid()
      ensures amount == old(amount) + 1
      ensures masses == old(masses) + [m] && charges == old(charges) + [q]
      ensures xs == old(xs) + [[x0]] && ys == old(ys) + [[y0]]
      ensures vxs == old(vxs) + [[vx0]] && vys == old(vys) + [[vy0]]
      ensures old(Synced()) ==> Synced()
      ensures GetM(old(amount)) == Some(m) && GetQ(old(amount)) == Some(q)
      ensures GetCoords(old(amount)) == Some(Vec(x0, y0))
      ensures GetV(old(amount)) == Some(Vec(vx0, vy0))
    {
      masses := masses + [m];
      charges := charges + [q];
      xs := xs + [[x0]];
      ys := ys + [[y0]];
      vxs := vxs + [[vx0]];
      vys := vys + [[vy0]];
      amount := amount + 1;
    }

    /** The current position of particle `n`. */
    ghost function Position(n: nat): Vec
      reads this
      requires Valid() && n < amount
    {
      Vec(Last(xs[n]), Last(ys[n]))
    }

    /** The last entry of particle `n`'s velocity history. */
    ghost function Velocity(n: nat): Vec
      reads this
      requires Valid() && n < amount
    {
      Vec(Last(vxs[n]), Last(vys[n]))
    }

    /** The mass of the particle at Python index `n`; None where the index
        is out of range. */
    function GetM(n: int): (r: Option<real>)
      reads this
      requires Valid()
      ensures r.Some? <==> -(amount as int) <= n < amount
      ensures 0 <= n < amount ==> r == Some(masses[n])
      ensures -(amount as int) <= n < 0 ==> r == Some(masses[amount + n])
    {
      match PyIndex(n, amount)
      case Some(j) => Some(masses[j])
      case None => None
    }

    /** The charge of the particle at Python index `n`. */
    function GetQ(n: int): (r: Option<real>)
      reads this
      requires Valid()
      ensures r.Some? <==> -(amount as int) <= n < amount
      ensures 0 <= n < amount ==> r == Some(charges[n])
      ensures -(amount as int) <= n < 0 ==> r == Some(charges[amount + n])
    {
      match PyIndex(n, amount)
      case Some(j) => Some(charges[j])
      case None => None
    }

    /** The last entries of the x and y histories of the particle at Python
        index `n`. */
    function GetCoords(n: int): (r: Option<Vec>)
      reads this
      requires Valid()
      ensures r.Some? <==> -(amount as int) <= n < amount
      ensures 0 <= n < amount ==> r == Some(Position(n))
      ensures -(amount as int) <= n < 0 ==> r == Some(Position(amount + n))
    {
      match PyIndex(n, amount)
      case Some(j) => Some(Vec(Last(xs[j]), Last(ys[j])))
      case None => None
    }

    /** The last entries of the vx and vy histories of the particle at
        Python index `n`. */
    function GetV(n: int): (r: Option<Vec>)
      reads this
      requires Valid()
      ensures r.Some? <==> -(amount as int) <= n < amount
      ensures 0 <= n < amount ==> r == Some(Velocity(n))
      ensures -(amount as int) <= n < 0 ==> r == Some(Velocity(amount + n))
    {
      match PyIndex(n, amount)
      case Some(j) => Some(Vec(Last(vxs[j]), Last(vys[j])))
      case None => None
    }
  }
}
