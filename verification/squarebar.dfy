/**
 * Square-bar solver: explicit finite differences on a 2-D Cartesian grid T[i, j]
 * with i along the height (row 0 is the jet-cooled bottom face) and j along the
 * width. Each step copies the grid and overwrites regions of the copy from the
 * old grid only (a Jacobi sweep); the two top corner nodes are never written.
 */
module SquareBar {
  import opened Resolution
  import opened Timestep
  import opened Sampling
  import opened Numbers

  /**
   * Fixed coefficients of a run: mesh ratios rx = alpha dt / dx^2 and rz = alpha dt / dz^2,
   * Biot numbers of the jet face (h_jet dz / k) and of the natural-convection faces
   * (h_natural dx / k on the sides, h_natural dz / k on the top), and the coolant temperature.
   */
  datatype Coeffs = Coeffs(rx: real, rz: real, jetZ: real, naturalX: real, naturalZ: real, coolant: real)

  /** Five-point explicit update of an interior node; a node level with its four neighbours keeps its value. */
  function FivePoint(c: Coeffs, centre: real, east: real, west: real, north: real, south: real): (t: real)
    ensures east == centre && west == centre && north == centre && south == centre ==> t == centre
  {
    centre + c.rx * (east - 2.0 * centre + west) + c.rz * (north - 2.0 * centre + south)
  }

  /**
   * Convective face with the ghost-node fold: node + 2 r (inner - node - biot (node - coolant)).
   * A face node and its inner neighbour at the coolant temperature stay there.
   */
  function Face(node: real, inner: real, r: real, biot: real, coolant: real): (t: real)
    ensures node == coolant && inner == coolant ==> t == coolant
  {
    node + 2.0 * r * (inner - node - biot * (node - coolant))
  }

  /** Grids the solver works on: at least three points on both axes. */
  predicate Sized(T: array2<real>)
  {
    T.Length0 >= 3 && T.Length1 >= 3
  }

  /** The value one step gives node (i, j), read from the old grid T alone. */
  function NodeRule(T: array2<real>, c: Coeffs, i: int, j: int): real
    reads T
    requires Sized(T) && 0 <= i < T.Length0 && 0 <= j < T.Length1
  {
    var top, right := T.Length0 - 1, T.Length1 - 1;
    if i == 0 then Face(T[0, j], T[1, j], c.rz, c.jetZ, c.coolant)
    else if i < top && j == 0 then Face(T[i, 0], T[i, 1], c.rx, c.naturalX, c.coolant)
    else if i < top && j == right then Face(T[i, right], T[i, right - 1], c.rx, c.naturalX, c.coolant)
    else if i < top then FivePoint(c, T[i, j], T[i, j + 1], T[i, j - 1], T[i + 1, j], T[i - 1, j])
    else if 0 < j < right then Face(T[top, j], T[top - 1, j], c.rz, c.naturalZ, c.coolant)
    else T[i, j]
  }

  /** A grid uniformly at the coolant temperature is a steady state: every node rule returns the coolant temperature. */
  lemma CoolantGridIsSteady(T: array2<real>, c: Coeffs, i: int, j: int)
    requires Sized(T) && 0 <= i < T.Length0 && 0 <= j < T.Length1
    requires forall a, b | 0 <= a < T.Length0 && 0 <= b < T.Length1 :: T[a, b] == c.coolant
    ensures NodeRule(T, c, i, j) == c.coolant
  {
  }

  /** The nodes a step writes: every node except the two top corners. */
  predicate Written(rows: int, cols: int, i: int, j: int)
  {
    i < rows - 1 || 0 < j < cols - 1
  }

  /** A step leaves exactly the unwritten nodes (the two top corners) at their old value. */
  lemma UnwrittenNodesKeepValue(T: array2<real>, c: Coeffs, i: int, j: int)
    requires Sized(T) && 0 <= i < T.Length0 && 0 <= j < T.Length1
    requires !Written(T.Length0, T.Length1, i, j)
    ensures NodeRule(T, c, i, j) == T[i, j]
    ensures i == T.Length0 - 1 && (j == 0 || j == T.Length1 - 1)
  {
  }

  /** Interior write: T_new[1:-1, 1:-1] gets the five-point update; no other node changes. */
  method WriteInterior(T: array2<real>, Tn: array2<real>, c: Coeffs)
    requires Sized(T) && Tn != T && Tn.Length0 == T.Length0 && Tn.Length1 == T.Length1
    modifies Tn
    ensures forall a, b | 0 < a < T.Length0 - 1 && 0 < b < T.Length1 - 1 ::
      Tn[a, b] == FivePoint(c, T[a, b], T[a, b + 1], T[a, b - 1], T[a + 1, b], T[a - 1, b])
    ensures forall a, b | 0 <= a < T.Length0 && 0 <= b < T.Length1 && !(0 < a < T.Length0 - 1 && 0 < b < T.Length1 - 1) ::
      Tn[a, b] == old(Tn[a, b])
  {
    var nz, nx := T.Length0, T.Length1;
    for i := 1 to nz - 1
      invariant forall a, b | 1 <= a < i && 0 < b < nx - 1 ::
        Tn[a, b] == FivePoint(c, T[a, b], T[a, b + 1], T[a, b - 1], T[a + 1, b], T[a - 1, b])
      invariant forall a, b | 0 <= a < nz && 0 <= b < nx && !(1 <= a < i && 0 < b < nx - 1) :: Tn[a, b] == old(Tn[a, b])
    {
      WriteInteriorRow(T, Tn, c, i);
    }
  }

  /** Interior write of one row i: T_new[i, 1:-1] gets the five-point update. */
  method WriteInteriorRow(T: array2<real>, Tn: array2<real>, c: Coeffs, i: int)
    requires Sized(T) && Tn != T && Tn.Length0 == T.Length0 && Tn.Length1 == T.Length1
    requires 0 < i < T.Length0 - 1
    modifies Tn
    ensures forall b | 0 < b < T.Length1 - 1 ::
      Tn[i, b] == FivePoint(c, T[i, b], T[i, b + 1], T[i, b - 1], T[i + 1, b], T[i - 1, b])
    ensures forall a, b | 0 <= a < T.Length0 && 0 <= b < T.Length1 && !(a == i && 0 < b < T.Length1 - 1) ::
      Tn[a, b] == old(Tn[a, b])
  {
    for j := 1 to T.Length1 - 1
      invariant forall b | 0 < b < j ::
        Tn[i, b] == FivePoint(c, T[i, b], T[i, b + 1], T[i, b - 1], T[i + 1, b], T[i - 1, b])
      invariant forall a, b | 0 <= a < T.Length0 && 0 <= b < T.Length1 && !(a == i && 0 < b < j) ::
        Tn[a, b] == old(Tn[a, b])
    {
      Tn[i, j] := FivePoint(c, T[i, j], T[i, j + 1], T[i, j - 1], T[i + 1, j], T[i - 1, j]);
    }
  }

  /** Face write along a row: T_new[row, from:to] gets the face update towards row `inner`. */
  method WriteRow(T: array2<real>, Tn: array2<real>, row: int, inner: int, from: int, to: int,
                  r: real, biot: real, coolant: real)
    requires Tn != T && Tn.Length0 == T.Length0 && Tn.Length1 == T.Length1
    requires 0 <= row < T.Length0 && 0 <= inner < T.Length0 && 0 <= from <= to <= T.Length1
    modifies Tn
    ensures forall b | from <= b < to :: Tn[row, b] == Face(T[row, b], T[inner, b], r, biot, coolant)
    ensures forall a, b | 0 <= a < T.Length0 && 0 <= b < T.Length1 && !(a == row && from <= b < to) ::
      Tn[a, b] == old(Tn[a, b])
  {
    for j := from to to
      invariant forall b | from <= b < j :: Tn[row, b] == Face(T[row, b], T[inner, b], r, biot, coolant)
      invariant forall a, b | 0 <= a < T.Length0 && 0 <= b < T.Length1 && !(a == row && from <= b < j) ::
        Tn[a, b] == old(Tn[a, b])
    {
      Tn[row, j] := Face(T[row, j], T[inner, j], r, biot, coolant);
    }
  }

  /** Face write along a column: T_new[from:to, col] gets the face update towards column `inner`. */
  method WriteColumn(T: array2<real>, Tn: array2<real>, col: int, inner: int, from: int, to: int,
                     r: real, biot: real, coolant: real)
    requires Tn != T && Tn.Length0 == T.Length0 && Tn.Length1 == T.Length1
    requires 0 <= col < T.Length1 && 0 <= inner < T.Length1 && 0 <= from <= to <= T.Length0
    modifies Tn
    ensures forall a | from <= a < to :: Tn[a, col] == Face(T[a, col], T[a, inner], r, biot, coolant)
    ensures forall a, b | 0 <= a < T.Length0 && 0 <= b < T.Length1 && !(b == col && from <= a < to) ::
      Tn[a, b] == old(Tn[a, b])
  {
    for i := from to to
      invariant forall a | from <= a < i :: Tn[a, col] == Face(T[a, col], T[a, inner], r, biot, coolant)
      invariant forall a, b | 0 <= a < T.Length0 && 0 <= b < T.Length1 && !(b == col && from <= a < i) ::
        Tn[a, b] == old(Tn[a, b])
    {
      Tn[i, col] := Face(T[i, col], T[i, inner], r, biot, coolant);
    }
  }

  /**
   * One time step: copy T, then write the interior, the jet-cooled bottom row (every
   * column), the side columns (rows 1 .. nz-2) and the top row (columns 1 .. nx-2).
   */
  method Step(T: array2<real>, c: Coeffs) returns (Tn: array2<real>)
    requires Sized(T)
    ensures fresh(Tn) && Tn.Length0 == T.Length0 && Tn.Length1 == T.Length1
    ensures forall i, j | 0 <= i < T.Length0 && 0 <= j < T.Length1 :: Tn[i, j] == NodeRule(T, c, i, j)
  {
    var nz, nx := T.Length0, T.Length1;
    Tn := new real[nz, nx]((i, j) reads T => if 0 <= i < nz && 0 <= j < nx then T[i, j] else 0.0);
    // After each region write, that region holds its node rule.
    WriteInterior(T, Tn, c);
    assert forall a, b | 0 < a < nz - 1 && 0 < b < nx - 1 :: Tn[a, b] == NodeRule(T, c, a, b);
    WriteRow(T, Tn, 0, 1, 0, nx, c.rz, c.jetZ, c.coolant);
    assert forall b | 0 <= b < nx :: Tn[0, b] == NodeRule(T, c, 0, b);
    WriteColumn(T, Tn, 0, 1, 1, nz - 1, c.rx, c.naturalX, c.coolant);
    assert forall a | 0 < a < nz - 1 :: Tn[a, 0] == NodeRule(T, c, a, 0);
    var right := nx - 1;
    WriteColumn(T, Tn, right, nx - 2, 1, nz - 1, c.rx, c.naturalX, c.coolant);
    assert forall a | 0 < a < nz - 1 :: Tn[a, right] == NodeRule(T, c, a, right);
    WriteRow(T, Tn, nz - 1, nz - 2, 1, nx - 1, c.rz, c.naturalZ, c.coolant);
  }

  /**
   * The time loop: step while t < simTime, offering the centre node (cz, cx) to the
   * sampler after every step.
   */
  method Run(T0: array2<real>, c: Coeffs, dt: real, simTime: real, cz: int, cx: int)
    returns (h: History, T: array2<real>, t: real, ghost steps: nat)
    requires Sized(T0) && 0 <= cz < T0.Length0 && 0 <= cx < T0.Length1
    requires dt >= DtFloor
    ensures (T == T0 && steps == 0) || fresh(T)
    ensures T.Length0 == T0.Length0 && T.Length1 == T0.Length1
    ensures t >= simTime
    ensures t == Clock(steps, dt)
    ensures steps > 0 ==> Clock(steps - 1, dt) < simTime
    ensures |h.times| == |h.temps| && Spaced(h.times)
    ensures steps > 0 <==> h.times != []
    ensures h.times != [] ==> h.times[0] == dt && t - Interval < h.times[|h.times| - 1] <= t
    ensures h.times != [] && h.times[|h.times| - 1] == t ==> h.temps[|h.temps| - 1] == T[cz, cx]
    ensures T[T.Length0 - 1, 0] == T0[T0.Length0 - 1, 0]
    ensures T[T.Length0 - 1, T.Length1 - 1] == T0[T0.Length0 - 1, T0.Length1 - 1]
  {
    var nz, nx := T0.Length0, T0.Length1;
    T, h, t, steps := T0, History([], []), 0.0, 0;
    while t < simTime
      invariant (T == T0 && steps == 0) || fresh(T)
      invariant T.Length0 == nz && T.Length1 == nx
      invariant t == Clock(steps, dt)
      invariant steps > 0 ==> Clock(steps - 1, dt) < simTime
      invariant |h.times| == |h.temps| && Spaced(h.times)
      invariant steps > 0 <==> h.times != []
      invariant h.times != [] ==> h.times[0] == dt && t - Interval < h.times[|h.times| - 1] <= t
      invariant h.times != [] && h.times[|h.times| - 1] == t ==> h.temps[|h.temps| - 1] == T[cz, cx]
      invariant T[nz - 1, 0] == T0[nz - 1, 0] && T[nz - 1, nx - 1] == T0[nz - 1, nx - 1]
      decreases ((simTime - t) / dt).Floor
    {
      T := Step(T, c);
      var sample := T[cz, cx];
      BudgetShrinks(simTime, t, dt);
      var next := Record(h, t + dt, sample);
      RecordAfterStep(h, t, dt, sample, next);
      t, steps, h := t + dt, steps + 1, next;
    }
  }

  /**
   * Coefficients of a run from the material, cooling conditions, spacings and dt:
   * rx dx^2 = rz dz^2 = alpha dt, and each Biot number times k is h times its spacing.
   */
  function RunCoeffs(m: Material, cool: Cooling, dx: real, dz: real, dt: real): (c: Coeffs)
    requires Conducts(m) && dx != 0.0 && dz != 0.0
    ensures c.rx * (dx * dx) == Diffusivity(m) * dt && c.rz * (dz * dz) == Diffusivity(m) * dt
    ensures c.jetZ * m.k == cool.hJet * dz && c.naturalX * m.k == cool.hNatural * dx
    ensures c.naturalZ * m.k == cool.hNatural * dz && c.coolant == cool.coolant
  {
    var alpha := Diffusivity(m);
    var dx2, dz2 := dx * dx, dz * dz;
    NonZeroProduct(dx, dx, dx2);
    NonZeroProduct(dz, dz, dz2);
    Coeffs(Ratio(alpha * dt, dx2), Ratio(alpha * dt, dz2),
           Ratio(cool.hJet * dz, m.k), Ratio(cool.hNatural * dx, m.k), Ratio(cool.hNatural * dz, m.k), cool.coolant)
  }

  /** Time step of a square run for the given material and grid. */
  function RunDt(m: Material, width: real, height: real, nz: int, nx: int): (dt: real)
    requires Conducts(m) && nz >= 3 && nx >= 3
    ensures dt >= DtFloor
  {
    SquareDt(Diffusivity(m), Spacing(width, nx), Spacing(height, nz))
  }

  /**
   * The whole square-bar run: resolve and clamp the grid, choose dt, fill the grid
   * with the initial temperature and run the time loop. Returns the history lists,
   * the final grid and (as ghosts) the final clock and the number of steps.
   */
  method Simulate(m: Material, cool: Cooling, tier: Tier, width: real, height: real)
    returns (times: seq<real>, temps: seq<real>, T: array2<real>, ghost elapsed: real, ghost steps: nat)
    requires Conducts(m) && width != 0.0 && height != 0.0
    ensures fresh(T)
    ensures T.Length0 == AtLeastThree(ResolutionParams(tier, Square)[0])
    ensures T.Length1 == AtLeastThree(ResolutionParams(tier, Square)[1])
    ensures elapsed >= cool.simTime
    ensures elapsed == Clock(steps, RunDt(m, width, height, T.Length0, T.Length1))
    ensures steps > 0 ==> Clock(steps - 1, RunDt(m, width, height, T.Length0, T.Length1)) < cool.simTime
    ensures |times| == |temps| && Spaced(times)
    ensures steps > 0 <==> times != []
    ensures times != [] ==> times[0] == RunDt(m, width, height, T.Length0, T.Length1)
    ensures times != [] ==> elapsed - Interval < times[|times| - 1] <= elapsed
    ensures times != [] && times[|times| - 1] == elapsed ==>
      temps[|temps| - 1] == T[CentreIndex(T.Length0), CentreIndex(T.Length1)]
    ensures T[T.Length0 - 1, 0] == cool.initial && T[T.Length0 - 1, T.Length1 - 1] == cool.initial
  {
    var counts := ResolutionParams(tier, Square);
    var nz, nx := AtLeastThree(counts[0]), AtLeastThree(counts[1]);
    var dz, dx := Spacing(height, nz), Spacing(width, nx);
    var dt := RunDt(m, width, height, nz, nx);
    var T0 := new real[nz, nx]((i, j) => cool.initial);
    var h, t;
    h, T, t, steps := Run(T0, RunCoeffs(m, cool, dx, dz, dt), dt, cool.simTime, CentreIndex(nz), CentreIndex(nx));
    times, temps, elapsed := h.times, h.temps, t;
  }
}
