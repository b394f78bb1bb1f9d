/**
 The energy balance of a branch. The Euler step keeps a quadratic form exactly,
 up to the work done at the two ends and the loss by friction.
 */
module BranchEnergy {
  import opened Solver

  // ---------- the quantities, over the first m cells ----------

  /** Flows squared. */
  function Kinetic(s: Cells, m: nat): real
    requires s.Valid() && m <= |s.q|
  {
    if m == 0 then 0.0 else Kinetic(s, m - 1) + s.q[m - 1] * s.q[m - 1]
  }

  /** Interior pressures squared: p[1] to p[m - 1]. */
  function Stored(s: Cells, m: nat): real
    requires s.Valid() && m <= |s.q|
  {
    if m <= 1 then 0.0 else Stored(s, m - 1) + s.p[m - 1] * s.p[m - 1]
  }

  /** Each flow times the pressure difference that drives it. */
  function Driven(s: Cells, m: nat): real
    requires s.Valid() && m <= |s.q|
  {
    if m == 0 then 0.0 else Driven(s, m - 1) + s.q[m - 1] * (s.p[m - 1] - s.p[m])
  }

  function Square(x: real): real {
    if x < 0.0 then -(x * x) else x * x
  }

  /** What friction takes between two states, before its coefficient. */
  function Lost(s: Cells, r: Cells, m: nat): real
    requires s.Valid() && r.Valid() && |r.q| == |s.q| && m <= |s.q|
  {
    if m == 0 then 0.0 else Lost(s, r, m - 1) + Square(s.q[m - 1]) * (s.q[m - 1] + r.q[m - 1])
  }

  function Drive(k: Coefficients, dt: real): real {
    dt * k.a * k.c
  }

  function Friction(k: Coefficients, dt: real): real {
    dt * k.b * k.c
  }

  /** The quadratic form. */
  function Energy(s: Cells, k: Coefficients, dt: real): real
    requires s.Valid()
  {
    EnergyTo(s, k, dt, |s.q|)
  }

  function EnergyTo(s: Cells, k: Coefficients, dt: real, m: nat): real
    requires s.Valid() && m <= |s.q|
  {
    k.c * Kinetic(s, m) + k.a * Stored(s, m) + Drive(k, dt) * Driven(s, m)
  }

  // ---------- one cell ----------

  /** A flow after a step: `x` is the pressure difference, `f` the flow's square. */
  predicate FlowLaw(q: real, r: real, x: real, f: real, k: Coefficients, dt: real) {
    r == (x * k.a - f * k.b) * dt + q
  }

  /** A pressure after a step, with the flows in and out. */
  predicate NodeLaw(p: real, p': real, u: real, v: real, k: Coefficients, dt: real) {
    p' == ((u - v) * k.c) * dt + p
  }

  /** A flow's share: `x` and `y` are the pressure differences before and after. */
  predicate CellShare(q: real, r: real, x: real, y: real, f: real, k: Coefficients, dt: real) {
    k.c * (r * r - q * q) + Drive(k, dt) * (r * y - q * x)
    == Drive(k, dt) * (r * (x + y)) - Friction(k, dt) * (f * (q + r))
  }

  /** A pressure's share: `u` and `v` are the flows in and out after the step. */
  predicate NodeShare(p: real, p': real, u: real, v: real, k: Coefficients, dt: real) {
    k.a * (p' * p' - p * p) == Drive(k, dt) * ((u - v) * (p' + p))
  }

  lemma CellBalance(q: real, r: real, x: real, y: real, f: real, k: Coefficients, dt: real)
    requires FlowLaw(q, r, x, f, k, dt)
    ensures CellShare(q, r, x, y, f, k, dt)
  {
    var w, u := Drive(k, dt), Friction(k, dt);
    var d := r - q;
    assert d == (dt * k.a) * x - (dt * k.b) * f;
    assert r * r - q * q == d * (q + r);
    assert k.c * d == w * x - u * f by {
      assert k.c * ((dt * k.a) * x) == w * x;
      assert k.c * ((dt * k.b) * f) == u * f;
      assert k.c * ((dt * k.a) * x - (dt * k.b) * f) == k.c * ((dt * k.a) * x) - k.c * ((dt * k.b) * f);
    }
    assert k.c * (d * (q + r)) == (k.c * d) * (q + r);
    assert (w * x - u * f) * (q + r) == (w * x) * (q + r) - (u * f) * (q + r);
    assert (w * x) * (q + r) == w * (x * q + x * r);
    assert (u * f) * (q + r) == u * (f * (q + r));
    assert w * (x * q + x * r) + w * (r * y - q * x) == w * (x * q + x * r + r * y - q * x);
    assert x * q + x * r + r * y - q * x == r * (x + y);
  }

  lemma NodeBalance(p: real, p': real, u: real, v: real, k: Coefficients, dt: real)
    requires NodeLaw(p, p', u, v, k, dt)
    ensures NodeShare(p, p', u, v, k, dt)
  {
    var d := p' - p;
    assert p' * p' - p * p == d * (p' + p);
    assert k.a * d == Drive(k, dt) * (u - v);
    assert k.a * (d * (p' + p)) == (k.a * d) * (p' + p);
    assert (Drive(k, dt) * (u - v)) * (p' + p) == Drive(k, dt) * ((u - v) * (p' + p));
  }

  lemma SquareIs(x: real)
    ensures Square(x) == x * Abs(x)
  {
  }

  // ---------- the balance ----------

  lemma {:induction false} Changes(s: Cells, k: Coefficients, dt: real, i: nat)
    requires s.Valid() && i < |s.q|
    ensures var r := BranchStep(s, k, dt);
            FlowLaw(s.q[i], r.q[i], s.p[i] - s.p[i + 1], Square(s.q[i]), k, dt)
            && (i > 0 ==> NodeLaw(s.p[i], r.p[i], r.q[i - 1], r.q[i], k, dt))
            && r.p[0] == s.p[0] && r.p[|s.q|] == s.p[|s.q|]
  {
    hide Flow, Square, BranchStep, FlowLaw;
    FlowAfter(s, k, dt, i);
    FlowIsLaw(s.p[i] - s.p[i + 1], s.q[i], k, dt);
    NodeAfterStep(s, k, dt, i);
  }

  lemma FlowIsLaw(drop: real, q: real, k: Coefficients, dt: real)
    ensures FlowLaw(q, Flow(drop, q, k, dt), drop, Square(q), k, dt)
  {
    SquareIs(q);
    FlowIs(drop, q, k, dt);
    hide Flow, Square;
  }

  lemma {:induction false} NodeAfterStep(s: Cells, k: Coefficients, dt: real, i: nat)
    requires s.Valid() && i < |s.q|
    ensures var r := BranchStep(s, k, dt);
            (i > 0 ==> NodeLaw(s.p[i], r.p[i], r.q[i - 1], r.q[i], k, dt)) && r.p[0] == s.p[0] && r.p[|s.q|] == s.p[|s.q|]
  {
    hide Flow, Pressure;
    var f := FlowStep(s, k, dt);
    if i > 0 {
      PressureIs(f.q[i - 1] - f.q[i], s.p[i], k, dt);
    }
  }

  /** The shares of cell i and of the node in front of it. */
  predicate CellBalanced(s: Cells, r: Cells, k: Coefficients, dt: real, i: nat)
    requires s.Valid() && r.Valid() && |r.q| == |s.q| && i < |s.q|
  {
    CellShare(s.q[i], r.q[i], s.p[i] - s.p[i + 1], r.p[i] - r.p[i + 1], Square(s.q[i]), k, dt)
  }

  predicate NodeBalanced(s: Cells, r: Cells, k: Coefficients, dt: real, i: nat)
    requires s.Valid() && r.Valid() && |r.q| == |s.q| && 0 < i < |s.q|
  {
    NodeShare(s.p[i], r.p[i], r.q[i - 1], r.q[i], k, dt)
  }

  /** The balance over the first m cells. */
  predicate Balanced(s: Cells, r: Cells, k: Coefficients, dt: real, m: nat)
    requires s.Valid() && r.Valid() && |r.q| == |s.q| && 1 <= m <= |s.q|
  {
    EnergyTo(r, k, dt, m)
    == EnergyTo(s, k, dt, m)
       + Drive(k, dt) * (2.0 * s.p[0] * r.q[0] - (r.p[m] + s.p[m]) * r.q[m - 1])
       - Friction(k, dt) * Lost(s, r, m)
  }

  lemma {:induction false} SharesBalanced(s: Cells, k: Coefficients, dt: real, i: nat)
    requires s.Valid() && i < |s.q|
    ensures CellBalanced(s, BranchStep(s, k, dt), k, dt, i)
    ensures i > 0 ==> NodeBalanced(s, BranchStep(s, k, dt), k, dt, i)
  {
    hide BranchStep, Square, FlowLaw, NodeLaw, CellShare, NodeShare;
    var r := BranchStep(s, k, dt);
    Changes(s, k, dt, i);
    CellBalance(s.q[i], r.q[i], s.p[i] - s.p[i + 1], r.p[i] - r.p[i + 1], Square(s.q[i]), k, dt);
    if i > 0 {
      NodeBalance(s.p[i], r.p[i], r.q[i - 1], r.q[i], k, dt);
    }
  }

  lemma {:induction false} BalanceTo(s: Cells, k: Coefficients, dt: real, m: nat)
    requires s.Valid() && 1 <= m <= |s.q|
    ensures Balanced(s, BranchStep(s, k, dt), k, dt, m)
  {
    hide BranchStep, CellBalanced, NodeBalanced, Balanced;
    SharesBalanced(s, k, dt, m - 1);
    if m == 1 {
      Changes(s, k, dt, 0);
      FirstCell(s, BranchStep(s, k, dt), k, dt);
    } else {
      BalanceTo(s, k, dt, m - 1);
      NextCell(s, BranchStep(s, k, dt), k, dt, m);
    }
  }

  lemma {:induction false} FirstCell(s: Cells, r: Cells, k: Coefficients, dt: real)
    requires s.Valid() && r.Valid() && |r.q| == |s.q| && r.p[0] == s.p[0] && CellBalanced(s, r, k, dt, 0)
    ensures Balanced(s, r, k, dt, 1)
  {
    hide Square, Drive, Friction, EnergyTo;
    var w, x, y := Drive(k, dt), s.p[0] - s.p[1], r.p[0] - r.p[1];
    assert r.q[0] * (x + y) == 2.0 * s.p[0] * r.q[0] - (r.p[1] + s.p[1]) * r.q[0] by {
      Ends(r.q[0], s.p[0], s.p[1], r.p[1]);
    }
    OneTerm(s, k, dt);
    OneTerm(r, k, dt);
    assert Lost(s, r, 1) == Lost(s, r, 0) + Square(s.q[0]) * (s.q[0] + r.q[0]) && Lost(s, r, 0) == 0.0;
    Less(k.c, r.q[0] * r.q[0], s.q[0] * s.q[0]);
    Less(w, r.q[0] * y, s.q[0] * x);
  }

  lemma Ends(r: real, p: real, x: real, y: real)
    ensures r * ((p - x) + (p - y)) == 2.0 * p * r - (y + x) * r
  {
  }

  lemma OneTerm(s: Cells, k: Coefficients, dt: real)
    requires s.Valid()
    ensures EnergyTo(s, k, dt, 1) == k.c * (s.q[0] * s.q[0]) + Drive(k, dt) * (s.q[0] * (s.p[0] - s.p[1]))
  {
    hide Drive;
    assert Kinetic(s, 0) == 0.0 && Driven(s, 0) == 0.0 && Stored(s, 1) == 0.0;
    assert Kinetic(s, 1) == s.q[0] * s.q[0] && Driven(s, 1) == s.q[0] * (s.p[0] - s.p[1]);
    assert k.a * 0.0 == 0.0;
  }

  lemma Less(c: real, x: real, y: real)
    ensures c * (x - y) == c * x - c * y
  {
  }

  lemma Plus(c: real, x: real, y: real)
    ensures c * (x + y) == c * x + c * y
  {
  }

  lemma {:induction false} NextCell(s: Cells, r: Cells, k: Coefficients, dt: real, m: nat)
    requires s.Valid() && r.Valid() && |r.q| == |s.q| && 2 <= m <= |s.q|
    requires CellBalanced(s, r, k, dt, m - 1) && NodeBalanced(s, r, k, dt, m - 1) && Balanced(s, r, k, dt, m - 1)
    ensures Balanced(s, r, k, dt, m)
  {
    hide EnergyTo, Square, Drive, Friction;
    var i, w, u := m - 1, Drive(k, dt), Friction(k, dt);
    var x, y := s.p[i] - s.p[m], r.p[i] - r.p[m];
    var driven, stored := r.q[i] * (x + y), (r.q[i - 1] - r.q[i]) * (r.p[i] + s.p[i]);
    var out, before, now := 2.0 * s.p[0] * r.q[0], (r.p[i] + s.p[i]) * r.q[i - 1], (r.p[m] + s.p[m]) * r.q[i];
    var loss := Square(s.q[i]) * (s.q[i] + r.q[i]);
    EnergyGrows(s, k, dt, m);
    EnergyGrows(r, k, dt, m);
    Less(k.c, r.q[i] * r.q[i], s.q[i] * s.q[i]);
    Less(k.a, r.p[i] * r.p[i], s.p[i] * s.p[i]);
    Less(w, r.q[i] * y, s.q[i] * x);
    Exchange(r.q[i - 1], r.q[i], r.p[i] + s.p[i], r.p[m] + s.p[m], x + y);
    SumOfProducts(w, driven, stored, out - before, out - now);
    SumOfProducts(u, Lost(s, r, i), loss, 0.0, Lost(s, r, m));
  }

  lemma SumOfProducts(c: real, x: real, y: real, z: real, sum: real)
    requires sum == x + y + z
    ensures c * sum == c * x + c * y + c * z
  {
    Plus(c, x, y);
    Plus(c, x + y, z);
  }

  lemma Exchange(u: real, v: real, x: real, y: real, d: real)
    requires d == x - y
    ensures v * d + (u - v) * x == x * u - y * v
  {
  }

  lemma {:induction false} EnergyGrows(s: Cells, k: Coefficients, dt: real, m: nat)
    requires s.Valid() && 2 <= m <= |s.q|
    ensures EnergyTo(s, k, dt, m)
         == EnergyTo(s, k, dt, m - 1) + k.c * (s.q[m - 1] * s.q[m - 1]) + k.a * (s.p[m - 1] * s.p[m - 1])
            + Drive(k, dt) * (s.q[m - 1] * (s.p[m - 1] - s.p[m]))
  {
    hide Drive, Kinetic, Stored, Driven;
    LastTerms(s, m);
  }

  lemma LastTerms(s: Cells, m: nat)
    requires s.Valid() && 2 <= m <= |s.q|
    ensures Kinetic(s, m) == Kinetic(s, m - 1) + s.q[m - 1] * s.q[m - 1]
    ensures Stored(s, m) == Stored(s, m - 1) + s.p[m - 1] * s.p[m - 1]
    ensures Driven(s, m) == Driven(s, m - 1) + s.q[m - 1] * (s.p[m - 1] - s.p[m])
  {
  }

  /** One step changes the energy by exactly the work done at the two ends less what
      friction takes. */
  lemma {:induction false} EnergyBalance(s: Cells, k: Coefficients, dt: real)
    requires s.Valid()
    ensures var r, n := BranchStep(s, k, dt), |s.q|;
            Energy(r, k, dt)
            == Energy(s, k, dt)
               + Drive(k, dt) * (2.0 * s.p[0] * r.q[0] - 2.0 * s.p[n] * r.q[n - 1])
               - Friction(k, dt) * Lost(s, r, n)
  {
    hide BranchStep, EnergyTo, Lost, Drive, Friction;
    Changes(s, k, dt, 0);
    BalanceTo(s, k, dt, |s.q|);
    assert (s.p[|s.q|] + s.p[|s.q|]) == 2.0 * s.p[|s.q|];
  }

  // ---------- runs ----------

  function Repeat(s: Cells, k: Coefficients, dt: real, steps: nat): (r: Cells)
    requires s.Valid()
    ensures r.Valid() && |r.q| == |s.q|
  {
    if steps == 0 then s else BranchStep(Repeat(s, k, dt, steps - 1), k, dt)
  }

  /** A frictionless branch between two ends without pressure keeps its energy for ever. */
  lemma {:induction false} FrictionlessKeepsEnergy(s: Cells, k: Coefficients, dt: real, steps: nat)
    requires s.Valid() && k.b == 0.0 && s.p[0] == 0.0 && s.p[|s.q|] == 0.0
    ensures var r := Repeat(s, k, dt, steps);
            Energy(r, k, dt) == Energy(s, k, dt) && r.p[0] == 0.0 && r.p[|s.q|] == 0.0
  {
    hide BranchStep, Energy, Lost;
    if steps > 0 {
      FrictionlessKeepsEnergy(s, k, dt, steps - 1);
      var before := Repeat(s, k, dt, steps - 1);
      EnergyBalance(before, k, dt);
      Changes(before, k, dt, 0);
    }
  }
}
