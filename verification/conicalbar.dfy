/**
 * Conical-tip-bar solver: explicit finite differences along a single axial line
 * of length cylinder height + cone height. Node 0 is the free end, node n-1 the
 * jet-cooled tip. Interior nodes diffuse and lose heat to a distributed natural
 * convection sink; the free end only loses heat; the tip relaxes towards the
 * coolant by the fixed factor q = exp(-h_jet dx / k) per step.
 */
module ConicalBar {
  import opened Numbers
  import opened Resolution
  import opened Timestep
  import opened Sampling

  /**
   * Fixed coefficients of a run: alpha dt, the spacing dx, the natural convection
   * coefficient, k, the coolant temperature and the tip relaxation factor q.
   */
  datatype Coeffs = Coeffs(alphaDt: real, dx: real, hNatural: real, k: real, coolant: real, q: real)

  predicate Defined(c: Coeffs)
  {
    c.dx != 0.0 && c.k != 0.0
  }

  /** Three-point diffusion update of an interior node. */
  function Diffuse(c: Coeffs, node: real, next: real, prev: real): (t: real)
    requires Defined(c)
    ensures next == node && prev == node ==> t == node
  {
    var dx2 := c.dx * c.dx;
    NonZeroProduct(c.dx, c.dx, dx2);
    var d2 := (next - 2.0 * node + prev) / dx2;
    assert next == node && prev == node ==> d2 == 0.0 by {
      if next == node && prev == node {
        ZeroOver(next - 2.0 * node + prev, dx2);
      }
    }
    node + c.alphaDt * d2
  }

  /** Distributed natural-convection loss alpha dt h_natural / (k dx) (T - Tc). */
  function Loss(c: Coeffs, node: real): (l: real)
    requires Defined(c)
    ensures node == c.coolant ==> l == 0.0
  {
    c.alphaDt * (c.hNatural / (c.k * c.dx)) * (node - c.coolant)
  }

  /** Tip node: Tc + (T - Tc) q. */
  function Tip(c: Coeffs, node: real): (t: real)
    ensures node == c.coolant ==> t == c.coolant
  {
    c.coolant + (node - c.coolant) * c.q
  }

  /** The value one step gives node i, read from the old line T alone. */
  function NodeRule(T: array<real>, c: Coeffs, i: nat): real
    reads T
    requires Defined(c) && 3 <= T.Length && i < T.Length
  {
    if i == 0 then T[0] - Loss(c, T[0])
    else if i == T.Length - 1 then Tip(c, T[i])
    else Diffuse(c, T[i], T[i + 1], T[i - 1]) - Loss(c, T[i])
  }

  /** A bar uniformly at the coolant temperature is a steady state: every node rule returns the coolant temperature. */
  lemma CoolantBarIsSteady(T: array<real>, c: Coeffs, i: nat)
    requires Defined(c) && 3 <= T.Length && i < T.Length
    requires forall a | 0 <= a < T.Length :: T[a] == c.coolant
    ensures NodeRule(T, c, i) == c.coolant
  {
  }

  /** Diffusion write: T_new[1:-1] = T[1:-1] + alpha dt (second difference of T). */
  method WriteDiffusion(T: array<real>, Tn: array<real>, c: Coeffs)
    requires Defined(c) && 3 <= T.Length && Tn != T && Tn.Length == T.Length
    modifies Tn
    ensures forall a | 1 <= a < T.Length - 1 :: Tn[a] == Diffuse(c, T[a], T[a + 1], T[a - 1])
    ensures Tn[0] == old(Tn[0]) && Tn[T.Length - 1] == old(Tn[T.Length - 1])
  {
    for i := 1 to T.Length - 1
      invariant forall a | 1 <= a < i :: Tn[a] == Diffuse(c, T[a], T[a + 1], T[a - 1])
      invariant Tn[0] == old(Tn[0]) && Tn[T.Length - 1] == old(Tn[T.Length - 1])
    {
      Tn[i] := Diffuse(c, T[i], T[i + 1], T[i - 1]);
    }
  }

  /** Loss write: T_new[1:-1] -= alpha dt h_natural / (k dx) (T[1:-1] - Tc), the loss taken from the old line. */
  method SubtractLoss(T: array<real>, Tn: array<real>, c: Coeffs)
    requires Defined(c) && 3 <= T.Length && Tn != T && Tn.Length == T.Length
    modifies Tn
    ensures forall a | 1 <= a < T.Length - 1 :: Tn[a] == old(Tn[a]) - Loss(c, T[a])
    ensures Tn[0] == old(Tn[0]) && Tn[T.Length - 1] == old(Tn[T.Length - 1])
  {
    for i := 1 to T.Length - 1
      invariant forall a | 1 <= a < i :: Tn[a] == old(Tn[a]) - Loss(c, T[a])
      invariant forall a | i <= a < T.Length :: Tn[a] == old(Tn[a])
      invariant Tn[0] == old(Tn[0])
    {
      Tn[i] := Tn[i] - Loss(c, T[i]);
    }
  }

  /**
   * One time step: copy T, write the diffusion update into the interior, the free
   * end and the tip, then subtract the convective loss (computed from the old line)
   * from the interior of the new line.
   */
  method Step(T: array<real>, c: Coeffs) returns (Tn: array<real>)
    requires Defined(c) && 3 <= T.Length
    ensures fresh(Tn) && Tn.Length == T.Length
    ensures forall i | 0 <= i < T.Length :: Tn[i] == NodeRule(T, c, i)
  {
    var n := T.Length;
    Tn := new real[n](i reads T => if 0 <= i < n then T[i] else 0.0);
    WriteDiffusion(T, Tn, c);
    Tn[0] := T[0] - Loss(c, T[0]);
    Tn[n - 1] := Tip(c, T[n - 1]);
    SubtractLoss(T, Tn, c);
  }

  /** The tip temperature after n steps from x: the tip map applied n times. */
  function TipAfter(c: Coeffs, x: real, n: nat): real
  {
    if n == 0 then x else Tip(c, TipAfter(c, x, n - 1))
  }

  /** The tip excess over the coolant decays geometrically: q^n (x - Tc) after n steps. */
  lemma {:induction false} TipClosedForm(c: Coeffs, x: real, n: nat)
    ensures TipAfter(c, x, n) - c.coolant == Pow(c.q, n) * (x - c.coolant)
  {
    if n > 0 {
      TipClosedForm(c, x, n - 1);
      var p, d := Pow(c.q, n - 1), x - c.coolant;
      var pd := p * d;
      assert TipAfter(c, x, n) - c.coolant == pd * c.q;
      Reassociate(p, d, c.q, pd);
    }
  }

  /** (p d) q == (q p) d, with the product pd = p d given. */
  lemma Reassociate(p: real, d: real, q: real, pd: real)
    requires pd == p * d
    ensures pd * q == (q * p) * d
  {
  }

  /**
   * The time loop: step while t < simTime, offering the centre node to the sampler
   * after every step.
   */
  method Run(T0: array<real>, c: Coeffs, dt: real, simTime: real, centre: int)
    returns (h: History, T: array<real>, t: real, ghost steps: nat)
    requires Defined(c) && 3 <= T0.Length && 0 <= centre < T0.Length
    requires dt >= DtFloor
    ensures (T == T0 && steps == 0) || fresh(T)
    ensures T.Length == T0.Length
    ensures t >= simTime
    ensures t == Clock(steps, dt)
    ensures steps > 0 ==> Clock(steps - 1, dt) < simTime
    ensures |h.times| == |h.temps| && Spaced(h.times)
    ensures steps > 0 <==> h.times != []
    ensures h.times != [] ==> h.times[0] == dt && t - Interval < h.times[|h.times| - 1] <= t
    ensures h.times != [] && h.times[|h.times| - 1] == t ==> h.temps[|h.temps| - 1] == T[centre]
    ensures T[T.Length - 1] == TipAfter(c, T0[T0.Length - 1], steps)
  {
    var n := T0.Length;
    T, h, t, steps := T0, History([], []), 0.0, 0;
    while t < simTime
      invariant (T == T0 && steps == 0) || fresh(T)
      invariant T.Length == n
      invariant t == Clock(steps, dt)
      invariant steps > 0 ==> Clock(steps - 1, dt) < simTime
      invariant |h.times| == |h.temps| && Spaced(h.times)
      invariant steps > 0 <==> h.times != []
      invariant h.times != [] ==> h.times[0] == dt && t - Interval < h.times[|h.times| - 1] <= t
      invariant h.times != [] && h.times[|h.times| - 1] == t ==> h.temps[|h.temps| - 1] == T[centre]
      invariant T[n - 1] == TipAfter(c, T0[n - 1], steps)
      decreases ((simTime - t) / dt).Floor
    {
      T := Step(T, c);
      var sample := T[centre];
      BudgetShrinks(simTime, t, dt);
      var next := Record(h, t + dt, sample);
      RecordAfterStep(h, t, dt, sample, next);
      t, steps, h := t + dt, steps + 1, next;
    }
  }

  /** Coefficients of a run; q is exp(-h_jet dx / k), supplied by the caller. */
  function RunCoeffs(m: Material, cool: Cooling, dx: real, dt: real, q: real): (c: Coeffs)
    requires Conducts(m) && dx != 0.0
    ensures Defined(c)
  {
    Coeffs(Diffusivity(m) * dt, dx, cool.hNatural, m.k, cool.coolant, q)
  }

  /** Time step of a conical run for the given material and line. */
  function RunDt(m: Material, length: real, n: int): (dt: real)
    requires Conducts(m) && n >= 3
    ensures dt >= DtFloor
  {
    ConicalDt(Diffusivity(m), Spacing(length, n))
  }

  /**
   * The whole conical-tip run over length cylinder height + cone height: resolve and
   * clamp the point count, choose dt, fill the line with the initial temperature and
   * run the time loop. After `steps` steps the tip excess is q^steps (T_init - Tc).
   */
  method Simulate(m: Material, cool: Cooling, tier: Tier, cylinderHeight: real, coneHeight: real, q: real)
    returns (times: seq<real>, temps: seq<real>, T: array<real>, ghost elapsed: real, ghost steps: nat)
    requires Conducts(m) && cylinderHeight + coneHeight != 0.0
    ensures fresh(T)
    ensures T.Length == AtLeastThree(ResolutionParams(tier, Conical)[0])
    ensures elapsed >= cool.simTime
    ensures elapsed == Clock(steps, RunDt(m, cylinderHeight + coneHeight, T.Length))
    ensures steps > 0 ==> Clock(steps - 1, RunDt(m, cylinderHeight + coneHeight, T.Length)) < cool.simTime
    ensures |times| == |temps| && Spaced(times)
    ensures steps > 0 <==> times != []
    ensures times != [] ==> times[0] == RunDt(m, cylinderHeight + coneHeight, T.Length)
    ensures times != [] ==> elapsed - Interval < times[|times| - 1] <= elapsed
    ensures times != [] && times[|times| - 1] == elapsed ==> temps[|temps| - 1] == T[CentreIndex(T.Length)]
    ensures T[T.Length - 1] - cool.coolant == Pow(q, steps) * (cool.initial - cool.coolant)
  {
    var length := cylinderHeight + coneHeight;
    var n := AtLeastThree(ResolutionParams(tier, Conical)[0]);
    var dx := Spacing(length, n);
    var dt := RunDt(m, length, n);
    var T0 := new real[n](i => cool.initial);
    var c := RunCoeffs(m, cool, dx, dt, q);
    var h, t;
    h, T, t, steps := Run(T0, c, dt, cool.simTime, CentreIndex(n));
    times, temps, elapsed := h.times, h.temps, t;
    TipClosedForm(c, cool.initial, steps);
  }
}
