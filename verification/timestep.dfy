/**
 * Material and cooling parameters of a run, and the stability/time-step selector:
 * each solver takes a conservative explicit-scheme estimate and clamps it below
 * (and, for the axisymmetric solver, above) so that the time loop always advances.
 */
module Timestep {
  import opened Numbers

  /** Smallest step any solver takes, in seconds. */
  const DtFloor: real := 0.001

  /** Largest step the cylindrical solver takes, in seconds. */
  const CylindricalDtCeiling: real := 0.1

  /** Conductivity k (W/m K), density rho (kg/m^3), specific heat cp (J/kg K). */
  datatype Material = Material(k: real, rho: real, cp: real)

  /** Jet and natural convection coefficients, coolant and initial temperatures, simulated duration. */
  datatype Cooling = Cooling(hJet: real, hNatural: real, coolant: real, initial: real, simTime: real)

  /** The material arithmetic of the solvers is defined: rho * cp and k (hence alpha) are non-zero. */
  predicate Conducts(m: Material)
  {
    m.k != 0.0 && m.rho * m.cp != 0.0
  }

  /** Thermal diffusivity alpha = k / (rho cp). */
  function Diffusivity(m: Material): (alpha: real)
    requires m.rho * m.cp != 0.0
    ensures alpha * (m.rho * m.cp) == m.k
    ensures alpha != 0.0 <==> m.k != 0.0
  {
    m.k / (m.rho * m.cp)
  }

  /** The explicit-scheme estimate safety * spacing^2 / (4 alpha). */
  function StableBound(safety: real, spacing2: real, alpha: real): (b: real)
    requires alpha != 0.0
    ensures b * (4.0 * alpha) == safety * spacing2
  {
    safety * spacing2 / (4.0 * alpha)
  }

  /** Square solver: max(0.001, 0.25 min(dx^2, dz^2) / (4 alpha)). */
  function SquareDt(alpha: real, dx: real, dz: real): (dt: real)
    requires alpha != 0.0
    ensures dt >= DtFloor
    ensures dt >= StableBound(0.25, Min(dx * dx, dz * dz), alpha)
    ensures dt == DtFloor || dt == StableBound(0.25, Min(dx * dx, dz * dz), alpha)
  {
    Max(DtFloor, StableBound(0.25, Min(dx * dx, dz * dz), alpha))
  }

  /** Conical solver: max(0.001, 0.3 dx^2 / (4 alpha)). */
  function ConicalDt(alpha: real, dx: real): (dt: real)
    requires alpha != 0.0
    ensures dt >= DtFloor
    ensures dt >= StableBound(0.3, dx * dx, alpha)
    ensures dt == DtFloor || dt == StableBound(0.3, dx * dx, alpha)
  {
    Max(DtFloor, StableBound(0.3, dx * dx, alpha))
  }

  /** Cylindrical solver: the estimate 0.1 min(dr^2, dz^2) / (4 alpha) clamped into [0.001, 0.1]. */
  function CylindricalDt(alpha: real, dr: real, dz: real): (dt: real)
    requires alpha != 0.0
    ensures DtFloor <= dt <= CylindricalDtCeiling
    ensures DtFloor <= StableBound(0.1, Min(dr * dr, dz * dz), alpha) <= CylindricalDtCeiling
            ==> dt == StableBound(0.1, Min(dr * dr, dz * dz), alpha)
    ensures StableBound(0.1, Min(dr * dr, dz * dz), alpha) < DtFloor ==> dt == DtFloor
    ensures StableBound(0.1, Min(dr * dr, dz * dz), alpha) > CylindricalDtCeiling ==> dt == CylindricalDtCeiling
  {
    Max(DtFloor, Min(StableBound(0.1, Min(dr * dr, dz * dz), alpha), CylindricalDtCeiling))
  }

  /**
   * Advancing the clock by dt uses up exactly one unit of the remaining step budget
   * floor((simTime - t) / dt); this is the termination measure of every time loop.
   */
  lemma BudgetShrinks(simTime: real, t: real, dt: real)
    requires dt > 0.0
    ensures ((simTime - (t + dt)) / dt).Floor == ((simTime - t) / dt).Floor - 1
    ensures t < simTime ==> ((simTime - t) / dt).Floor >= 0
  {
    var x := (simTime - t) / dt;
    assert x * dt == simTime - t;
    assert (x - 1.0) * dt == simTime - (t + dt);
    QuotientOfProduct(simTime - (t + dt), dt, x - 1.0);
  }

  /** The quotient a / d is the unique q with q d == a. */
  lemma QuotientOfProduct(a: real, d: real, q: real)
    requires d != 0.0 && q * d == a
    ensures a / d == q
  {
  }

  /** The solver clock after n steps: dt added n times to 0. */
  function Clock(n: nat, dt: real): real
  {
    if n == 0 then 0.0 else Clock(n - 1, dt) + dt
  }

  /** Repeated addition of dt is multiplication by the step count. */
  lemma {:induction false} ClockIsProduct(n: nat, dt: real)
    ensures Clock(n, dt) == n as real * dt
  {
    if n > 0 {
      ClockIsProduct(n - 1, dt);
      assert (n - 1) as real * dt + dt == n as real * dt;
    }
  }

  /**
   * A loop that started its last step before simTime, with steps of at least
   * DtFloor, ran at most 1000 simTime + 1 steps.
   */
  lemma StepsAreBounded(steps: nat, dt: real, simTime: real)
    requires dt >= DtFloor
    requires steps > 0 ==> Clock(steps - 1, dt) < simTime
    ensures steps > 0 ==> steps as real <= 1000.0 * simTime + 1.0
  {
    if steps > 0 {
      ClockIsProduct(steps - 1, dt);
      var n := (steps - 1) as real;
      assert n * DtFloor <= n * dt;
    }
  }
}
