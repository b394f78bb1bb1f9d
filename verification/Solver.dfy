/**
 The Euler step of one ventilation branch, over exact reals: n flow cells
 between n + 1 pressure nodes, updated in place.
 */
module Solver {

  function Abs(x: real): real {
    if x < 0.0 then -x else x
  }

  /** The aerodynamic coefficients the solver is called with. */
  datatype Coefficients = Coefficients(a: real, b: real, c: real)

  datatype Cells = Cells(p: seq<real>, q: seq<real>)
  {
    predicate Valid() {
      |q| >= 1 && |p| == |q| + 1
    }
  }

  // ---------- one step, all cells at once ----------

  /** One flow, driven by a pressure difference and slowed by quadratic friction. */
  function Flow(drop: real, q: real, k: Coefficients, dt: real): real {
    (drop * k.a - (q * Abs(q)) * k.b) * dt + q
  }

  /** One interior pressure, filled and drained by its neighbouring flows. */
  function Pressure(net: real, p: real, k: Coefficients, dt: real): real {
    (net * k.c) * dt + p
  }

  function NextFlow(s: Cells, k: Coefficients, dt: real, i: nat): real
    requires s.Valid() && i < |s.q|
  {
    Flow(s.p[i] - s.p[i + 1], s.q[i], k, dt)
  }

  function FlowStep(s: Cells, k: Coefficients, dt: real): (r: Cells)
    requires s.Valid()
    ensures r.Valid() && |r.q| == |s.q| && r.p == s.p
  {
    s.(q := seq(|s.q|, i requires 0 <= i < |s.q| => NextFlow(s, k, dt, i)))
  }

  function NextPressure(s: Cells, k: Coefficients, dt: real, i: nat): real
    requires s.Valid() && i < |s.p|
  {
    if 0 < i < |s.q| then Pressure(s.q[i - 1] - s.q[i], s.p[i], k, dt) else s.p[i]
  }

  function PressureStep(s: Cells, k: Coefficients, dt: real): (r: Cells)
    requires s.Valid()
    ensures r.Valid() && |r.q| == |s.q| && r.q == s.q
  {
    s.(p := seq(|s.p|, i requires 0 <= i < |s.p| => NextPressure(s, k, dt, i)))
  }

  function BranchStep(s: Cells, k: Coefficients, dt: real): (r: Cells)
    requires s.Valid()
    ensures r.Valid() && |r.q| == |s.q|
  {
    PressureStep(FlowStep(s, k, dt), k, dt)
  }

  // ---------- the in-place loops ----------

  method UpdateFlows(dt: real, p: array<real>, q: array<real>, k: Coefficients, n: nat)
    requires p != q && n >= 1 && q.Length == n && p.Length == n + 1
    modifies q
    ensures q[..] == FlowStep(old(Cells(p[..], q[..])), k, dt).q
  {
    hide Flow, Abs;
    ghost var s := Cells(p[..], q[..]);
    var i := 0;
    while i < n
      invariant 0 <= i <= n
      invariant forall j :: 0 <= j < i ==> q[j] == NextFlow(s, k, dt, j)
      invariant forall j :: i <= j < n ==> q[j] == s.q[j]
    {
      var next := ((p[i] - p[i + 1]) * k.a - (q[i] * Abs(q[i])) * k.b) * dt + q[i];
      assert next == NextFlow(s, k, dt, i) by { FlowIs(p[i] - p[i + 1], q[i], k, dt); }
      q[i] := next;
      i := i + 1;
    }
  }

  method UpdatePressures(dt: real, p: array<real>, q: array<real>, k: Coefficients, n: nat)
    requires p != q && n >= 1 && q.Length == n && p.Length == n + 1
    modifies p
    ensures p[..] == PressureStep(old(Cells(p[..], q[..])), k, dt).p
  {
    hide Pressure;
    ghost var s := Cells(p[..], q[..]);
    var i := 1;
    while i < n
      invariant 1 <= i <= n
      invariant forall j :: 0 <= j < i ==> p[j] == NextPressure(s, k, dt, j)
      invariant forall j :: i <= j <= n ==> p[j] == s.p[j]
    {
      var next := ((q[i - 1] - q[i]) * k.c) * dt + p[i];
      assert next == NextPressure(s, k, dt, i) by { PressureIs(q[i - 1] - q[i], p[i], k, dt); }
      p[i] := next;
      i := i + 1;
    }
  }

  /** The two loops, one cell at a time, are a simultaneous flow update followed
      by a simultaneous update of the interior pressures. */
  method SimulateBranch(dt: real, p: array<real>, q: array<real>, k: Coefficients, n: nat)
    requires p != q && n >= 1 && q.Length == n && p.Length == n + 1
    modifies p, q
    ensures Cells(p[..], q[..]) == BranchStep(old(Cells(p[..], q[..])), k, dt)
  {
    hide NextFlow, NextPressure;
    UpdateFlows(dt, p, q, k, n);
    UpdatePressures(dt, p, q, k, n);
  }

  lemma FlowIs(drop: real, q: real, k: Coefficients, dt: real)
    ensures Flow(drop, q, k, dt) == (drop * k.a - (q * Abs(q)) * k.b) * dt + q
  {
  }

  lemma PressureIs(net: real, p: real, k: Coefficients, dt: real)
    ensures Pressure(net, p, k, dt) == (net * k.c) * dt + p
  {
  }

  // ---------- a branch seen from its other end ----------

  function Mirror(s: Cells): (r: Cells)
    requires s.Valid()
    ensures r.Valid() && |r.q| == |s.q|
  {
    Cells(seq(|s.p|, i requires 0 <= i < |s.p| => s.p[|s.p| - 1 - i]),
          seq(|s.q|, i requires 0 <= i < |s.q| => -s.q[|s.q| - 1 - i]))
  }

  lemma MirrorFlow(x: real, y: real, k: Coefficients, dt: real)
    ensures Flow(-x, -y, k, dt) == -Flow(x, y, k, dt)
  {
    var f := y * Abs(y);
    assert (-y) * Abs(-y) == -f;
    assert (-x) * k.a == -(x * k.a) && (-f) * k.b == -(f * k.b);
    var z := x * k.a - f * k.b;
    assert (-z) * dt == -(z * dt);
  }

  lemma {:induction false} FlowStepMirrors(s: Cells, k: Coefficients, dt: real)
    requires s.Valid()
    ensures FlowStep(Mirror(s), k, dt) == Mirror(FlowStep(s, k, dt))
  {
    hide Flow;
    var m, n := Mirror(s), |s.q|;
    forall i | 0 <= i < n ensures NextFlow(m, k, dt, i) == -NextFlow(s, k, dt, n - 1 - i) {
      MirrorFlow(s.p[n - 1 - i] - s.p[n - i], s.q[n - 1 - i], k, dt);
      assert m.p[i] - m.p[i + 1] == -(s.p[n - 1 - i] - s.p[n - i]);
    }
  }

  lemma {:induction false} PressureStepMirrors(s: Cells, k: Coefficients, dt: real)
    requires s.Valid()
    ensures PressureStep(Mirror(s), k, dt) == Mirror(PressureStep(s, k, dt))
  {
    hide Pressure;
    var m, n := Mirror(s), |s.q|;
    forall i | 0 <= i <= n ensures NextPressure(m, k, dt, i) == NextPressure(s, k, dt, n - i) {
      if 0 < i < n {
        assert m.q[i - 1] - m.q[i] == s.q[n - i - 1] - s.q[n - i];
      }
    }
  }

  /** Reversing a branch commutes with a step: pressures read backwards, flows
      backwards and with the opposite sign. */
  lemma {:induction false} StepMirrors(s: Cells, k: Coefficients, dt: real)
    requires s.Valid()
    ensures BranchStep(Mirror(s), k, dt) == Mirror(BranchStep(s, k, dt))
  {
    hide FlowStep, PressureStep, Mirror;
    FlowStepMirrors(s, k, dt);
    PressureStepMirrors(FlowStep(s, k, dt), k, dt);
  }

  /** Steps between which the ends are given new pressures. */
  function Steps(s: Cells, ends: seq<(real, real)>, k: Coefficients, dt: real): (r: Cells)
    requires s.Valid()
    ensures r.Valid() && |r.q| == |s.q|
    decreases |ends|
  {
    if ends == [] then s
    else Steps(BranchStep(WithEnds(s, ends[0]), k, dt), ends[1..], k, dt)
  }

  function WithEnds(s: Cells, e: (real, real)): (r: Cells)
    requires s.Valid()
    ensures r.Valid() && |r.q| == |s.q|
  {
    s.(p := s.p[0 := e.0][|s.p| - 1 := e.1])
  }

  function Swapped(ends: seq<(real, real)>): seq<(real, real)> {
    seq(|ends|, i requires 0 <= i < |ends| => (ends[i].1, ends[i].0))
  }

  /** So it does over any run, whatever pressures drive the two ends. */
  lemma {:induction false} RunMirrors(s: Cells, ends: seq<(real, real)>, k: Coefficients, dt: real)
    requires s.Valid()
    ensures Steps(Mirror(s), Swapped(ends), k, dt) == Mirror(Steps(s, ends, k, dt))
    decreases |ends|
  {
    if ends != [] {
      hide BranchStep;
      var e := ends[0];
      assert WithEnds(Mirror(s), (e.1, e.0)) == Mirror(WithEnds(s, e));
      StepMirrors(WithEnds(s, e), k, dt);
      assert Swapped(ends)[1..] == Swapped(ends[1..]);
      RunMirrors(BranchStep(WithEnds(s, e), k, dt), ends[1..], k, dt);
    }
  }

  // ---------- which way the air flows ----------

  lemma FlowAfter(s: Cells, k: Coefficients, dt: real, i: nat)
    requires s.Valid() && i < |s.q|
    ensures BranchStep(s, k, dt).q[i] == Flow(s.p[i] - s.p[i + 1], s.q[i], k, dt)
  {
    hide Flow;
  }

  /** A cell at rest starts to flow from the higher to the lower pressure. */
  lemma {:induction false} DriveFollowsPressure(s: Cells, k: Coefficients, dt: real, i: nat)
    requires s.Valid() && i < |s.q| && s.q[i] == 0.0 && k.a * dt > 0.0
    ensures var q := BranchStep(s, k, dt).q[i];
            (q > 0.0 <==> s.p[i] > s.p[i + 1]) && (q < 0.0 <==> s.p[i] < s.p[i + 1])
            && q == (k.a * dt) * (s.p[i] - s.p[i + 1])
  {
    hide BranchStep;
    FlowAfter(s, k, dt, i);
    ProductSign(k.a * dt, s.p[i] - s.p[i + 1]);
  }

  lemma ProductSign(x: real, y: real)
    requires x > 0.0
    ensures (x * y > 0.0 <==> y > 0.0) && (x * y < 0.0 <==> y < 0.0)
  {
  }

  /** Without a pressure difference friction takes the square of the flow off it,
      whichever way the air moves. */
  lemma {:induction false} FrictionOpposesFlow(s: Cells, k: Coefficients, dt: real, i: nat)
    requires s.Valid() && i < |s.q| && s.p[i] == s.p[i + 1] && k.b * dt > 0.0
    ensures var x, q := s.q[i], BranchStep(s, k, dt).q[i];
            (x > 0.0 ==> q < x && q == x - (k.b * dt) * (x * x))
            && (x < 0.0 ==> q > x && q == x + (k.b * dt) * (x * x))
            && (x == 0.0 ==> q == 0.0)
  {
    hide BranchStep;
    FlowAfter(s, k, dt, i);
    FrictionOnly(s.q[i], k, dt);
    if s.q[i] != 0.0 {
      ProductSign(k.b * dt, s.q[i] * s.q[i]);
    }
  }

  lemma FrictionOnly(q: real, k: Coefficients, dt: real)
    ensures Flow(0.0, q, k, dt) == if q < 0.0 then q + (k.b * dt) * (q * q) else q - (k.b * dt) * (q * q)
    ensures q != 0.0 ==> q * q > 0.0
  {
    var f := q * Abs(q);
    assert f == if q < 0.0 then -(q * q) else q * q;
    assert (f * k.b) * dt == (k.b * dt) * f;
  }
}
