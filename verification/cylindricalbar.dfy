/**
 * Cylindrical-bar solver: explicit finite differences on an axisymmetric grid
 * T[i, j] with i along the radius (i = 0 is the centreline, i = nr-1 the outer
 * surface) and j along the height (j = 0 is the jet-cooled bottom face). Each step
 * copies the grid and overwrites every node from the old grid only (a Jacobi sweep).
 * The run may stop early once the centre temperature has settled near the coolant.
 */
module CylindricalBar {
  import opened Numbers
  import opened Resolution
  import opened Timestep
  import opened Sampling

  /**
   * Fixed coefficients of a run: alpha dt, the radial and axial spacings, the outer
   * radius, the jet and natural convection coefficients, k and the coolant temperature.
   */
  datatype Coeffs = Coeffs(alphaDt: real, dr: real, dz: real, radius: real,
                           hJet: real, hNatural: real, k: real, coolant: real)

  /** The divisions of the update are defined. */
  predicate Defined(c: Coeffs)
  {
    c.dr != 0.0 && c.dz != 0.0 && c.radius != 0.0 && c.k != 0.0
  }

  /**
   * Radius used at radial index i: the node's own radius i dr (the linspace value)
   * except on the centreline, where the placeholder dr / 2 stands in.
   */
  function SafeRadius(i: nat, dr: real): (r: real)
    requires dr != 0.0
    ensures r != 0.0
    ensures i >= 1 ==> r == i as real * dr
  {
    if i == 0 then dr * 0.5 else
      NonZeroProduct(i as real, dr, i as real * dr);
      i as real * dr
  }

  /** Interior node at radial index i: radial and axial second differences plus (1/r) dT/dr. */
  function Interior(c: Coeffs, i: nat, node: real, outward: real, inward: real, up: real, down: real): (t: real)
    requires Defined(c) && i >= 1
    ensures outward == node && inward == node && up == node && down == node ==> t == node
  {
    var dr2, dz2 := c.dr * c.dr, c.dz * c.dz;
    NonZeroProduct(2.0, c.dr, 2.0 * c.dr);
    NonZeroProduct(c.dr, c.dr, dr2);
    NonZeroProduct(c.dz, c.dz, dz2);
    var dTdr := (outward - inward) / (2.0 * c.dr);
    var d2Tdr2 := (outward - 2.0 * node + inward) / dr2;
    var d2Tdz2 := (up - 2.0 * node + down) / dz2;
    assert outward == node && inward == node && up == node && down == node ==>
           dTdr == 0.0 && d2Tdr2 == 0.0 && d2Tdz2 == 0.0 by {
      if outward == node && inward == node && up == node && down == node {
        ZeroOver(outward - inward, 2.0 * c.dr);
        ZeroOver(outward - 2.0 * node + inward, dr2);
        ZeroOver(up - 2.0 * node + down, dz2);
      }
    }
    node + c.alphaDt * (d2Tdr2 + (1.0 / SafeRadius(i, c.dr)) * dTdr + d2Tdz2)
  }

  /** Centreline node: the limit 2 (T[1] - T[0]) / dr^2 replaces the radial terms; no 1/r term. */
  function Centre(c: Coeffs, node: real, outward: real, up: real, down: real): (t: real)
    requires Defined(c)
    ensures outward == node && up == node && down == node ==> t == node
  {
    var dr2, dz2 := c.dr * c.dr, c.dz * c.dz;
    NonZeroProduct(c.dr, c.dr, dr2);
    NonZeroProduct(c.dz, c.dz, dz2);
    var radial, axial := 2.0 * (outward - node) / dr2, (up - 2.0 * node + down) / dz2;
    assert outward == node && up == node && down == node ==> radial == 0.0 && axial == 0.0 by {
      if outward == node && up == node && down == node {
        ZeroOver(2.0 * (outward - node), dr2);
        ZeroOver(up - 2.0 * node + down, dz2);
      }
    }
    node + c.alphaDt * (radial + axial)
  }

  /** Bottom or top face node: one-sided axial conduction plus the convective source h (Tc - T) / (k dz). */
  function AxialFace(c: Coeffs, h: real, node: real, inner: real): (t: real)
    requires Defined(c)
    ensures node == c.coolant && inner == c.coolant ==> t == c.coolant
  {
    var dz2, kdz := c.dz * c.dz, c.k * c.dz;
    NonZeroProduct(c.dz, c.dz, dz2);
    NonZeroProduct(c.k, c.dz, kdz);
    var conduction, convection := (inner - node) / dz2, h * (c.coolant - node) / kdz;
    assert node == c.coolant && inner == c.coolant ==> conduction == 0.0 && convection == 0.0 by {
      if node == c.coolant && inner == c.coolant {
        ZeroOver(inner - node, dz2);
        ZeroOver(h * (c.coolant - node), kdz);
      }
    }
    node + c.alphaDt * (conduction + convection)
  }

  /** Outer surface node: one-sided radial conduction, the 1/R curvature term and natural convection. */
  function Outer(c: Coeffs, node: real, inner: real): (t: real)
    requires Defined(c)
    ensures node == c.coolant && inner == c.coolant ==> t == c.coolant
  {
    var dr2, kdr := c.dr * c.dr, c.k * c.dr;
    NonZeroProduct(c.dr, c.dr, dr2);
    NonZeroProduct(c.k, c.dr, kdr);
    var conduction, curvature := (inner - node) / dr2, (1.0 / c.radius) * ((node - inner) / c.dr);
    var convection := c.hNatural * (c.coolant - node) / kdr;
    assert node == c.coolant && inner == c.coolant ==> conduction == 0.0 && curvature == 0.0 && convection == 0.0 by {
      if node == c.coolant && inner == c.coolant {
        ZeroOver(inner - node, dr2);
        ZeroOver(c.hNatural * (c.coolant - node), kdr);
      }
    }
    node + c.alphaDt * (conduction + curvature + convection)
  }

  /** Grids the solver works on: at least three points on both axes. */
  predicate Sized(T: array2<real>)
  {
    T.Length0 >= 3 && T.Length1 >= 3
  }

  /** The value one step gives node (i, j), read from the old grid T alone. */
  function NodeRule(T: array2<real>, c: Coeffs, i: nat, j: nat): real
    reads T
    requires Defined(c) && Sized(T) && i < T.Length0 && j < T.Length1
  {
    var outer, top := T.Length0 - 1, T.Length1 - 1;
    if j == 0 then AxialFace(c, c.hJet, T[i, 0], T[i, 1])
    else if j == top then AxialFace(c, c.hNatural, T[i, top], T[i, top - 1])
    else if i == 0 then Centre(c, T[0, j], T[1, j], T[0, j + 1], T[0, j - 1])
    else if i == outer then Outer(c, T[outer, j], T[outer - 1, j])
    else Interior(c, i, T[i, j], T[i + 1, j], T[i - 1, j], T[i, j + 1], T[i, j - 1])
  }

  /** A grid uniformly at the coolant temperature is a steady state: every node rule returns the coolant temperature. */
  lemma CoolantGridIsSteady(T: array2<real>, c: Coeffs, i: nat, j: nat)
    requires Defined(c) && Sized(T) && i < T.Length0 && j < T.Length1
    requires forall a, b | 0 <= a < T.Length0 && 0 <= b < T.Length1 :: T[a, b] == c.coolant
    ensures NodeRule(T, c, i, j) == c.coolant
  {
  }

  /** Interior write of one radial index i: T_new[i, 1:-1]. */
  method WriteInteriorRow(T: array2<real>, Tn: array2<real>, c: Coeffs, i: nat)
    requires Defined(c) && Sized(T) && Tn != T && Tn.Length0 == T.Length0 && Tn.Length1 == T.Length1
    requires 0 < i < T.Length0 - 1
    modifies Tn
    ensures forall b | 0 < b < T.Length1 - 1 ::
      Tn[i, b] == Interior(c, i, T[i, b], T[i + 1, b], T[i - 1, b], T[i, b + 1], T[i, b - 1])
    ensures forall a, b | 0 <= a < T.Length0 && 0 <= b < T.Length1 && !(a == i && 0 < b < T.Length1 - 1) ::
      Tn[a, b] == old(Tn[a, b])
  {
    for j := 1 to T.Length1 - 1
      invariant forall b | 0 < b < j ::
        Tn[i, b] == Interior(c, i, T[i, b], T[i + 1, b], T[i - 1, b], T[i, b + 1], T[i, b - 1])
      invariant forall a, b | 0 <= a < T.Length0 && 0 <= b < T.Length1 && !(a == i && 0 < b < j) ::
        Tn[a, b] == old(Tn[a, b])
    {
      Tn[i, j] := Interior(c, i, T[i, j], T[i + 1, j], T[i - 1, j], T[i, j + 1], T[i, j - 1]);
    }
  }

  /** Interior write: every node with 0 < i < nr-1 and 0 < j < nz-1. */
  method WriteInterior(T: array2<real>, Tn: array2<real>, c: Coeffs)
    requires Defined(c) && Sized(T) && Tn != T && Tn.Length0 == T.Length0 && Tn.Length1 == T.Length1
    modifies Tn
    ensures forall a, b | 0 < a < T.Length0 - 1 && 0 < b < T.Length1 - 1 ::
      Tn[a, b] == Interior(c, a, T[a, b], T[a + 1, b], T[a - 1, b], T[a, b + 1], T[a, b - 1])
    ensures forall a, b | 0 <= a < T.Length0 && 0 <= b < T.Length1 && !(0 < a < T.Length0 - 1 && 0 < b < T.Length1 - 1) ::
      Tn[a, b] == old(Tn[a, b])
  {
    var nr, nz := T.Length0, T.Length1;
    for i := 1 to nr - 1
      invariant forall a, b | 1 <= a < i && 0 < b < nz - 1 ::
        Tn[a, b] == Interior(c, a, T[a, b], T[a + 1, b], T[a - 1, b], T[a, b + 1], T[a, b - 1])
      invariant forall a, b | 0 <= a < nr && 0 <= b < nz && !(1 <= a < i && 0 < b < nz - 1) :: Tn[a, b] == old(Tn[a, b])
    {
      WriteInteriorRow(T, Tn, c, i);
    }
  }

  /** Centreline write: T_new[0, j] for 0 < j < nz-1. */
  method WriteCentre(T: array2<real>, Tn: array2<real>, c: Coeffs)
    requires Defined(c) && Sized(T) && Tn != T && Tn.Length0 == T.Length0 && Tn.Length1 == T.Length1
    modifies Tn
    ensures forall b | 0 < b < T.Length1 - 1 :: Tn[0, b] == Centre(c, T[0, b], T[1, b], T[0, b + 1], T[0, b - 1])
    ensures forall a, b | 0 <= a < T.Length0 && 0 <= b < T.Length1 && !(a == 0 && 0 < b < T.Length1 - 1) ::
      Tn[a, b] == old(Tn[a, b])
  {
    for j := 1 to T.Length1 - 1
      invariant forall b | 0 < b < j :: Tn[0, b] == Centre(c, T[0, b], T[1, b], T[0, b + 1], T[0, b - 1])
      invariant forall a, b | 0 <= a < T.Length0 && 0 <= b < T.Length1 && !(a == 0 && 0 < b < j) ::
        Tn[a, b] == old(Tn[a, b])
    {
      Tn[0, j] := Centre(c, T[0, j], T[1, j], T[0, j + 1], T[0, j - 1]);
    }
  }

  /** Bottom or top face write: T_new[i, face] for every radial index i, towards axial index `inner`. */
  method WriteAxialFace(T: array2<real>, Tn: array2<real>, c: Coeffs, h: real, face: nat, inner: nat)
    requires Defined(c) && Tn != T && Tn.Length0 == T.Length0 && Tn.Length1 == T.Length1
    requires face < T.Length1 && inner < T.Length1
    modifies Tn
    ensures forall a | 0 <= a < T.Length0 :: Tn[a, face] == AxialFace(c, h, T[a, face], T[a, inner])
    ensures forall a, b | 0 <= a < T.Length0 && 0 <= b < T.Length1 && b != face :: Tn[a, b] == old(Tn[a, b])
  {
    for i := 0 to T.Length0
      invariant forall a | 0 <= a < i :: Tn[a, face] == AxialFace(c, h, T[a, face], T[a, inner])
      invariant forall a, b | 0 <= a < T.Length0 && 0 <= b < T.Length1 && !(b == face && a < i) ::
        Tn[a, b] == old(Tn[a, b])
    {
      Tn[i, face] := AxialFace(c, h, T[i, face], T[i, inner]);
    }
  }

  /** Outer surface write: T_new[outer, j] for 0 < j < nz-1 only, where outer = nr - 1. */
  method WriteOuter(T: array2<real>, Tn: array2<real>, c: Coeffs, outer: nat)
    requires Defined(c) && Sized(T) && Tn != T && Tn.Length0 == T.Length0 && Tn.Length1 == T.Length1
    requires outer == T.Length0 - 1
    modifies Tn
    ensures forall b | 0 < b < T.Length1 - 1 :: Tn[outer, b] == Outer(c, T[outer, b], T[outer - 1, b])
    ensures forall a, b | 0 <= a < T.Length0 && 0 <= b < T.Length1 && !(a == outer && 0 < b < T.Length1 - 1) ::
      Tn[a, b] == old(Tn[a, b])
  {
    for j := 1 to T.Length1 - 1
      invariant forall b | 0 < b < j :: Tn[outer, b] == Outer(c, T[outer, b], T[outer - 1, b])
      invariant forall a, b | 0 <= a < T.Length0 && 0 <= b < T.Length1 && !(a == outer && 0 < b < j) ::
        Tn[a, b] == old(Tn[a, b])
    {
      Tn[outer, j] := Outer(c, T[outer, j], T[outer - 1, j]);
    }
  }

  /**
   * One time step: copy T, then write the interior, the centreline (0 < j < nz-1),
   * the bottom and top faces (every i) and the outer surface (0 < j < nz-1).
   */
  method Step(T: array2<real>, c: Coeffs) returns (Tn: array2<real>)
    requires Defined(c) && Sized(T)
    ensures fresh(Tn) && Tn.Length0 == T.Length0 && Tn.Length1 == T.Length1
    ensures forall i, j | 0 <= i < T.Length0 && 0 <= j < T.Length1 :: Tn[i, j] == NodeRule(T, c, i, j)
  {
    var nr, nz := T.Length0, T.Length1;
    Tn := new real[nr, nz]((i, j) reads T => if 0 <= i < nr && 0 <= j < nz then T[i, j] else 0.0);
    WriteInterior(T, Tn, c);
    WriteCentre(T, Tn, c);
    WriteAxialFace(T, Tn, c, c.hJet, 0, 1);
    WriteAxialFace(T, Tn, c, c.hNatural, nz - 1, nz - 2);
    WriteOuter(T, Tn, c, nr - 1);
  }

  /**
   * The early-stop test made after sampling: past 10 s, at least two samples, the
   * last two differ by less than 0.1 and the last is below coolant + 50.
   */
  predicate Settled(t: real, temps: seq<real>, coolant: real)
  {
    t > 10.0 && |temps| > 1 && Abs(temps[|temps| - 1] - temps[|temps| - 2]) < 0.1
    && temps[|temps| - 1] < coolant + 50.0
  }

  /**
   * The time loop: step while t < simTime, offer the centre node (cr, cz) to the
   * sampler after every step, and stop early once Settled holds.
   */
  method Run(T0: array2<real>, c: Coeffs, dt: real, simTime: real, cr: int, cz: int)
    returns (h: History, T: array2<real>, t: real, ghost steps: nat)
    requires Defined(c) && Sized(T0) && 0 <= cr < T0.Length0 && 0 <= cz < T0.Length1
    requires dt >= DtFloor
    ensures (T == T0 && steps == 0) || fresh(T)
    ensures T.Length0 == T0.Length0 && T.Length1 == T0.Length1
    ensures t >= simTime || Settled(t, h.temps, c.coolant)
    ensures t == Clock(steps, dt)
    ensures steps > 0 ==> Clock(steps - 1, dt) < simTime
    ensures |h.times| == |h.temps| && Spaced(h.times)
    ensures steps > 0 <==> h.times != []
    ensures h.times != [] ==> h.times[0] == dt && t - Interval < h.times[|h.times| - 1] <= t
    ensures h.times != [] && h.times[|h.times| - 1] == t ==> h.temps[|h.temps| - 1] == T[cr, cz]
  {
    T, h, t, steps := T0, History([], []), 0.0, 0;
    while t < simTime
      invariant (T == T0 && steps == 0) || fresh(T)
      invariant T.Length0 == T0.Length0 && T.Length1 == T0.Length1
      invariant t == Clock(steps, dt)
      invariant steps > 0 ==> Clock(steps - 1, dt) < simTime
      invariant |h.times| == |h.temps| && Spaced(h.times)
      invariant steps > 0 <==> h.times != []
      invariant h.times != [] ==> h.times[0] == dt && t - Interval < h.times[|h.times| - 1] <= t
      invariant h.times != [] && h.times[|h.times| - 1] == t ==> h.temps[|h.temps| - 1] == T[cr, cz]
      decreases ((simTime - t) / dt).Floor
    {
      T := Step(T, c);
      var sample := T[cr, cz];
      BudgetShrinks(simTime, t, dt);
      var next := Record(h, t + dt, sample);
      RecordAfterStep(h, t, dt, sample, next);
      t, steps, h := t + dt, steps + 1, next;
      if Settled(t, h.temps, c.coolant) {
        break;
      }
    }
  }

  /** Coefficients of a run from the material, cooling conditions, radius, spacings and dt. */
  function RunCoeffs(m: Material, cool: Cooling, radius: real, dr: real, dz: real, dt: real): (c: Coeffs)
    requires Conducts(m) && radius != 0.0 && dr != 0.0 && dz != 0.0
    ensures Defined(c)
  {
    Coeffs(Diffusivity(m) * dt, dr, dz, radius, cool.hJet, cool.hNatural, m.k, cool.coolant)
  }

  /** Time step of a cylindrical run for the given material and grid. */
  function RunDt(m: Material, radius: real, height: real, nr: int, nz: int): (dt: real)
    requires Conducts(m) && nr >= 3 && nz >= 3
    ensures DtFloor <= dt <= CylindricalDtCeiling
  {
    CylindricalDt(Diffusivity(m), Spacing(radius, nr), Spacing(height, nz))
  }

  /**
   * The whole cylindrical run: radius = diameter / 2, resolve and clamp the grid,
   * choose dt, fill the grid with the initial temperature and run the time loop.
   * Returns the history lists, the final grid and (as ghosts) the final clock and steps.
   */
  method Simulate(m: Material, cool: Cooling, tier: Tier, diameter: real, height: real)
    returns (times: seq<real>, temps: seq<real>, T: array2<real>, ghost elapsed: real, ghost steps: nat)
    requires Conducts(m) && diameter != 0.0 && height != 0.0
    ensures fresh(T)
    ensures T.Length0 == AtLeastThree(ResolutionParams(tier, Cylindrical)[0])
    ensures T.Length1 == AtLeastThree(ResolutionParams(tier, Cylindrical)[1])
    ensures elapsed >= cool.simTime || Settled(elapsed, temps, cool.coolant)
    ensures elapsed == Clock(steps, RunDt(m, diameter / 2.0, height, T.Length0, T.Length1))
    ensures steps > 0 ==> Clock(steps - 1, RunDt(m, diameter / 2.0, height, T.Length0, T.Length1)) < cool.simTime
    ensures |times| == |temps| && Spaced(times)
    ensures steps > 0 <==> times != []
    ensures times != [] ==> times[0] == RunDt(m, diameter / 2.0, height, T.Length0, T.Length1)
    ensures times != [] ==> elapsed - Interval < times[|times| - 1] <= elapsed
    ensures times != [] && times[|times| - 1] == elapsed ==>
      temps[|temps| - 1] == T[CentreIndex(T.Length0), CentreIndex(T.Length1)]
  {
    var radius := diameter / 2.0;
    var counts := ResolutionParams(tier, Cylindrical);
    var nr, nz := AtLeastThree(counts[0]), AtLeastThree(counts[1]);
    var dr, dz := Spacing(radius, nr), Spacing(height, nz);
    var dt := RunDt(m, radius, height, nr, nz);
    var T0 := new real[nr, nz]((i, j) => cool.initial);
    var h, t;
    h, T, t, steps := Run(T0, RunCoeffs(m, cool, radius, dr, dz, dt), dt, cool.simTime, CentreIndex(nr), CentreIndex(nz));
    times, temps, elapsed := h.times, h.temps, t;
  }
}
