/**
 The conservation law of the ventilation network: whatever the friction, one
 turn of the loop moves pressure content between branches and vertexes and
 changes the total only through external vertexes and outlet readings.
 */
module Conservation {
  import opened Solver
  import opened Network
  import opened Sums

  // ---------- content ----------

  /** Sum of the pressures p[1] .. p[k - 1]. */
  function InteriorTo(p: seq<real>, k: nat): real
    requires k <= |p|
  {
    if k <= 1 then 0.0 else InteriorTo(p, k - 1) + p[k - 1]
  }

  function Interior(c: Cells): real
    requires c.Valid()
  {
    InteriorTo(c.p, |c.q|)
  }

  ghost function InteriorOf(cells: seq<Cells>): nat -> real {
    (i: nat) => if i < |cells| && cells[i].Valid() then Interior(cells[i]) else 0.0
  }

  ghost function Internal(plan: Plan, p: seq<real>): nat -> real {
    (j: nat) => if j < |plan.external| && j < |p| && !plan.external[j] then p[j] else 0.0
  }

  /** All interior branch pressures and all internal vertex pressures. */
  ghost function Total(plan: Plan, net: Net): real {
    Sum(|net.cells|, InteriorOf(net.cells)) + Sum(|net.p|, Internal(plan, net.p))
  }

  // ---------- the network's shape ----------

  /** Branch i leaves vertex tail[i] and enters vertex head[i], and touches no other. */
  ghost predicate Incidence(topo: Topology, tail: seq<nat>, head: seq<nat>) {
    && topo.Valid() && |tail| == |head| == topo.nrBranches
    && forall i :: 0 <= i < topo.nrBranches ==> Connects(topo, i, tail[i], head[i])
  }

  ghost predicate Connects(topo: Topology, i: nat, s: nat, t: nat)
    requires topo.Valid() && i < topo.nrBranches
  {
    && s < topo.nrVertexes && t < topo.nrVertexes && s != t
    && topo.ElementOfA(s, i) == -1 && topo.ElementOfA(t, i) == 1
    && forall j :: 0 <= j < topo.nrVertexes && j != s && j != t ==>
                     topo.ElementOfA(j, i) != 1 && topo.ElementOfA(j, i) != -1
  }

  /** External vertexes gather nothing; so it is when they are built. */
  ghost predicate Quiet(plan: Plan, net: Net)
    requires plan.Valid() && net.Fits(plan)
  {
    forall j :: 0 <= j < |net.qxc| && plan.external[j] ==> net.qxc[j] == 0.0
  }

  function Last(c: Cells): real
    requires c.Valid()
  {
    c.q[|c.q| - 1]
  }

  /** What branch i lets in and out of the network, given the flows of the step. */
  function Boundary(plan: Plan, cells: seq<Cells>, past: seq<real>, s: nat, t: nat, i: nat): real
    requires plan.Valid() && |cells| == |past| == plan.topo.nrBranches && i < |cells| && cells[i].Valid()
    requires s < |plan.external| && t < |plan.external|
  {
    (if plan.external[s] then plan.ks[i].c * cells[i].q[0] else 0.0)
    + (if plan.external[t] then -(plan.ks[i].c * Last(cells[i])) else plan.ks[i].c * (past[i] - Last(cells[i])))
  }

  ghost function BoundaryOf(plan: Plan, cells: seq<Cells>, past: seq<real>, tail: seq<nat>, head: seq<nat>): nat -> real {
    (i: nat) => if plan.Valid() && |cells| == |past| == plan.topo.nrBranches == |tail| == |head| && i < |cells| && cells[i].Valid()
            && tail[i] < |plan.external| && head[i] < |plan.external|
         then Boundary(plan, cells, past, tail[i], head[i], i) else 0.0
  }

  // ---------- branches ----------

  /** What a net flow adds to a pressure in one step. */
  function Gain(net: real, k: Coefficients, dt: real): real {
    dt * (k.c * net)
  }

  lemma {:induction false} Telescope(s: Cells, k: Coefficients, dt: real, m: nat)
    requires s.Valid() && 1 <= m <= |s.q|
    ensures InteriorTo(PressureStep(s, k, dt).p, m) == InteriorTo(s.p, m) + Gain(s.q[0] - s.q[m - 1], k, dt)
  {
    hide PressureStep, Gain;
    NodeAfter(s, k, dt, m - 1);
    if m == 1 {
      NoGain(k, dt);
    } else {
      Telescope(s, k, dt, m - 1);
      GainAdds(s.q[0] - s.q[m - 2], s.q[m - 2] - s.q[m - 1], k, dt);
    }
  }

  lemma NodeAfter(s: Cells, k: Coefficients, dt: real, i: nat)
    requires s.Valid() && i < |s.q|
    ensures i > 0 ==> PressureStep(s, k, dt).p[i] == s.p[i] + Gain(s.q[i - 1] - s.q[i], k, dt)
  {
    hide Pressure, Gain;
    if i > 0 {
      CellGain(s.q[i - 1] - s.q[i], s.p[i], k, dt);
    }
  }

  lemma CellGain(net: real, p: real, k: Coefficients, dt: real)
    ensures Pressure(net, p, k, dt) == p + Gain(net, k, dt)
  {
  }

  lemma NoGain(k: Coefficients, dt: real)
    ensures Gain(0.0, k, dt) == 0.0
  {
  }

  lemma GainAdds(x: real, y: real, k: Coefficients, dt: real)
    ensures Gain(x + y, k, dt) == Gain(x, k, dt) + Gain(y, k, dt)
  {
    assert k.c * (x + y) == k.c * x + k.c * y;
  }

  lemma {:induction false} SameInterior(p: seq<real>, p': seq<real>, m: nat)
    requires m <= |p| == |p'| && forall k :: 1 <= k < m ==> p'[k] == p[k]
    ensures InteriorTo(p', m) == InteriorTo(p, m)
  {
    if m > 1 { SameInterior(p, p', m - 1); }
  }

  lemma {:induction false} PropagatedInterior(plan: Plan, p: seq<real>, i: nat, c: Cells, j: nat)
    requires plan.Valid() && |p| == plan.topo.nrVertexes && c.Valid()
    requires i < plan.topo.nrBranches && j <= plan.topo.nrVertexes
    ensures Interior(Propagated(plan, p, i, c, j)) == Interior(c)
  {
    if j > 0 {
      PropagatedInterior(plan, p, i, c, j - 1);
      var b := Propagated(plan, p, i, c, j - 1);
      SameInterior(b.p, WithEnd(b, p[j - 1]).p, |c.q|);
      SameInterior(b.p, WithStart(b, p[j - 1]).p, |c.q|);
    }
  }

  /** A branch gains what enters its first cell and loses what leaves its last. */
  lemma {:induction false} BranchGain(plan: Plan, net: Net, dt: real, i: nat)
    requires plan.Valid() && net.Fits(plan) && i < |net.cells|
    ensures var c := Simulate(plan, Propagate(plan, net), dt).cells[i];
            Interior(c) == Interior(net.cells[i]) + dt * (plan.ks[i].c * (c.q[0] - Last(c)))
  {
    hide FlowStep, PressureStep, Propagated, InteriorTo;
    var c0 := Propagated(plan, net.p, i, net.cells[i], plan.topo.nrVertexes);
    assert Simulate(plan, Propagate(plan, net), dt).cells[i] == BranchStep(c0, plan.ks[i], dt);
    PropagatedInterior(plan, net.p, i, net.cells[i], plan.topo.nrVertexes);
    Telescope(FlowStep(c0, plan.ks[i], dt), plan.ks[i], dt, |c0.q|);
  }

  // ---------- vertexes ----------

  /** Contribution of branch i to vertex j when j is internal. */
  ghost function ShareAt(plan: Plan, cells: seq<Cells>, past: seq<real>, j: nat, i: nat): real {
    if plan.Valid() && |cells| == |past| == plan.topo.nrBranches && (forall k :: 0 <= k < |cells| ==> cells[k].Valid())
       && j < plan.topo.nrVertexes && i < plan.topo.nrBranches && !plan.external[j]
    then Contribution(plan, cells, past, j, i) else 0.0
  }

  ghost function Share(plan: Plan, cells: seq<Cells>, past: seq<real>): (nat, nat) -> real {
    (j: nat, i: nat) => ShareAt(plan, cells, past, j, i)
  }

  lemma {:induction false} GatheredIsSum(plan: Plan, cells: seq<Cells>, past: seq<real>, j: nat, n: nat, f: nat -> real)
    requires plan.Valid() && |cells| == |past| == plan.topo.nrBranches
    requires forall k :: 0 <= k < |cells| ==> cells[k].Valid()
    requires j < plan.topo.nrVertexes && n <= plan.topo.nrBranches && !plan.external[j]
    requires forall i :: 0 <= i < n ==> f(i) == ShareAt(plan, cells, past, j, i)
    ensures Gathered(plan, cells, past, j, n) == Sum(n, f)
  {
    hide Contribution;
    if n > 0 {
      GatheredIsSum(plan, cells, past, j, n - 1, f);
    }
  }

  /** What the gathered flows add to vertex j; nothing when it is external. */
  lemma {:induction false} OneVertexGain(plan: Plan, net: Net, past: seq<real>, dt: real, j: nat)
    requires plan.Valid() && net.Fits(plan) && |past| == |net.cells| && j < |net.p|
    ensures var r := Settle(plan, Gather(plan, net, past), dt);
            Internal(plan, r.p)(j) == Internal(plan, net.p)(j) + Scaled(dt, Row(|net.cells|, Share(plan, net.cells, past)))(j)
  {
    hide Contribution, Gathered, Sum;
    var f := (i: nat) => Share(plan, net.cells, past)(j, i);
    assert Row(|net.cells|, Share(plan, net.cells, past))(j) == Sum(|net.cells|, f);
    if plan.external[j] {
      SumZero(|net.cells|, f);
    } else {
      GatheredIsSum(plan, net.cells, past, j, |net.cells|, f);
    }
  }

  lemma {:induction false} VertexGain(plan: Plan, net: Net, past: seq<real>, dt: real, r: Net)
    requires plan.Valid() && net.Fits(plan) && |past| == |net.cells|
    requires r == Settle(plan, Gather(plan, net, past), dt)
    ensures Sum(|r.p|, Internal(plan, r.p))
         == Sum(|net.p|, Internal(plan, net.p)) + dt * Sum(|net.p|, Row(|net.cells|, Share(plan, net.cells, past)))
  {
    hide Settle, Gather, Internal, Row, Share, Sum, Scaled;
    forall j | 0 <= j < |net.p|
      ensures Internal(plan, r.p)(j) == Internal(plan, net.p)(j) + Scaled(dt, Row(|net.cells|, Share(plan, net.cells, past)))(j)
    {
      OneVertexGain(plan, net, past, dt, j);
    }
    SumMoves(|net.p|, Internal(plan, net.p), Internal(plan, r.p), dt, Row(|net.cells|, Share(plan, net.cells, past)));
  }

  /** Over all internal vertexes, a branch hands over its outlet and takes its inlet. */
  lemma {:induction false} ColumnSum(plan: Plan, cells: seq<Cells>, past: seq<real>, s: nat, t: nat, i: nat)
    requires plan.Valid() && |cells| == |past| == plan.topo.nrBranches && i < |cells|
    requires forall k :: 0 <= k < |cells| ==> cells[k].Valid()
    requires Connects(plan.topo, i, s, t)
    ensures Sum(plan.topo.nrVertexes, (j: nat) => Share(plan, cells, past)(j, i))
         == Boundary(plan, cells, past, s, t, i) - plan.ks[i].c * (cells[i].q[0] - Last(cells[i]))
  {
    hide Boundary, Last, Sum;
    var g := Share(plan, cells, past);
    SumOfTwo(plan.topo.nrVertexes, (j: nat) => g(j, i), s, t);
    BoundaryIs(plan, cells, past, s, t, i);
    assert g(s, i) == if plan.external[s] then 0.0 else -(plan.ks[i].c * cells[i].q[0]);
    assert g(t, i) == if plan.external[t] then 0.0 else plan.ks[i].c * past[i];
  }

  lemma BoundaryIs(plan: Plan, cells: seq<Cells>, past: seq<real>, s: nat, t: nat, i: nat)
    requires plan.Valid() && |cells| == |past| == plan.topo.nrBranches && i < |cells| && cells[i].Valid()
    requires s < |plan.external| && t < |plan.external|
    ensures Boundary(plan, cells, past, s, t, i)
         == plan.ks[i].c * (cells[i].q[0] - Last(cells[i]))
            + (if plan.external[s] then 0.0 else -(plan.ks[i].c * cells[i].q[0]))
            + (if plan.external[t] then 0.0 else plan.ks[i].c * past[i])
  {
    hide Last;
    Spread(plan.ks[i].c, cells[i].q[0], Last(cells[i]), past[i]);
  }

  lemma Spread(c: real, x: real, y: real, e: real)
    ensures c * (x - y) == c * x - c * y && c * (e - y) == c * e - c * y
  {
  }

  // ---------- the law ----------

  /** One turn of the loop: the change of the total content is `dt` times what the
      branches let in and out at external vertexes and outlet readings. */
  lemma {:induction false} StepConserves(plan: Plan, net: Net, past: seq<real>, dt: real, tail: seq<nat>, head: seq<nat>)
    requires plan.Valid() && net.Fits(plan) && |past| == |net.cells| && Incidence(plan.topo, tail, head)
    ensures var cells := Simulate(plan, Propagate(plan, net), dt).cells;
            Total(plan, LoopStep(plan, net, past, dt))
            == Total(plan, net) + dt * Sum(|cells|, BoundaryOf(plan, cells, past, tail, head))
  {
    hide Boundary, Share, Sum, Incidence, Row, InteriorOf, Internal, Simulate, Propagate, Gather, Settle, BoundaryOf, Fluxes;
    var n2 := Simulate(plan, Propagate(plan, net), dt);
    assert n2.p == net.p && |n2.cells| == |net.cells| by { SimulatedVertexes(plan, net, dt); }
    var r := Settle(plan, Gather(plan, n2, past), dt);
    VertexGain(plan, n2, past, dt, r);
    assert r.cells == n2.cells && |r.p| == |net.p| by { SettledBranches(plan, n2, past, dt); }
    BranchesGain(plan, net, dt);
    Handover(plan, n2.cells, past, tail, head);
  }

  lemma SettledBranches(plan: Plan, net: Net, past: seq<real>, dt: real)
    requires plan.Valid() && net.Fits(plan) && |past| == |net.cells|
    ensures var r := Settle(plan, Gather(plan, net, past), dt); r.cells == net.cells && |r.p| == |net.p|
  {
  }

  /** All branches together gain their net inflows. */
  lemma {:induction false} BranchesGain(plan: Plan, net: Net, dt: real)
    requires plan.Valid() && net.Fits(plan)
    ensures var cells := Simulate(plan, Propagate(plan, net), dt).cells;
            Sum(|cells|, InteriorOf(cells)) == Sum(|cells|, InteriorOf(net.cells)) + dt * Sum(|cells|, Fluxes(plan, cells))
  {
    hide Interior, Last, Sum, Scaled, Propagate, Simulate;
    var n2 := Simulate(plan, Propagate(plan, net), dt);
    assert |n2.cells| == |net.cells| by { SimulatedVertexes(plan, net, dt); }
    forall i | 0 <= i < |n2.cells|
      ensures InteriorOf(n2.cells)(i) == InteriorOf(net.cells)(i) + Scaled(dt, Fluxes(plan, n2.cells))(i)
    {
      BranchGain(plan, net, dt, i);
      ScaledIs(dt, Fluxes(plan, n2.cells), i);
    }
    SumMoves(|n2.cells|, InteriorOf(net.cells), InteriorOf(n2.cells), dt, Fluxes(plan, n2.cells));
  }

  /** Net inflows of the branches and gains of the vertexes leave the boundary terms. */
  lemma {:induction false} Handover(plan: Plan, cells: seq<Cells>, past: seq<real>, tail: seq<nat>, head: seq<nat>)
    requires plan.Valid() && |cells| == |past| == plan.topo.nrBranches && Incidence(plan.topo, tail, head)
    requires forall k :: 0 <= k < |cells| ==> cells[k].Valid()
    ensures Sum(|cells|, BoundaryOf(plan, cells, past, tail, head))
         == Sum(|cells|, Fluxes(plan, cells)) + Sum(plan.topo.nrVertexes, Row(|cells|, Share(plan, cells, past)))
  {
    hide Boundary, Share, Sum, Connects, Row, Last, Column;
    var n, m, g := |cells|, plan.topo.nrVertexes, Share(plan, cells, past);
    Exchange(m, n, g);
    forall i | 0 <= i < n
      ensures BoundaryOf(plan, cells, past, tail, head)(i) == Fluxes(plan, cells)(i) + Column(m, g)(i)
    {
      ColumnSum(plan, cells, past, tail[i], head[i], i);
      ColumnIs(m, g, i);
      ConnectsBounds(plan.topo, i, tail[i], head[i]);
    }
    SumPlus(n, Fluxes(plan, cells), Column(m, g), BoundaryOf(plan, cells, past, tail, head));
  }

  /** What flows into a branch minus what flows out of it, in pressure units. */
  ghost function Fluxes(plan: Plan, cells: seq<Cells>): nat -> real {
    (i: nat) => if i < |plan.ks| && i < |cells| && cells[i].Valid()
                then plan.ks[i].c * (cells[i].q[0] - Last(cells[i])) else 0.0
  }

  lemma ScaledIs(c: real, f: nat -> real, i: nat)
    ensures Scaled(c, f)(i) == c * f(i)
  {
  }

  lemma ColumnIs(m: nat, g: (nat, nat) -> real, i: nat)
    ensures Column(m, g)(i) == Sum(m, (j: nat) => g(j, i))
  {
  }

  lemma ConnectsBounds(topo: Topology, i: nat, s: nat, t: nat)
    requires topo.Valid() && i < topo.nrBranches && Connects(topo, i, s, t)
    ensures s < topo.nrVertexes && t < topo.nrVertexes
  {
  }

  // ---------- boundary conditions ----------

  /** After propagation a branch carries its two vertexes' pressures at its ends. */
  lemma {:induction false} EndsPropagated(plan: Plan, p: seq<real>, i: nat, c: Cells, s: nat, t: nat, j: nat)
    requires plan.Valid() && |p| == plan.topo.nrVertexes && c.Valid()
    requires i < plan.topo.nrBranches && j <= plan.topo.nrVertexes && Connects(plan.topo, i, s, t)
    ensures var r := Propagated(plan, p, i, c, j);
            r == c.(p := c.p[0 := if s < j then p[s] else c.p[0]][|c.q| := if t < j then p[t] else c.p[|c.q|]])
  {
    hide Topology.ElementOfA;
    if j > 0 {
      EndsPropagated(plan, p, i, c, s, t, j - 1);
    }
  }

  lemma SimulatedVertexes(plan: Plan, net: Net, dt: real)
    requires plan.Valid() && net.Fits(plan)
    ensures var n2 := Simulate(plan, Propagate(plan, net), dt);
            n2.p == net.p && n2.qxc == net.qxc && |n2.cells| == |net.cells|
  {
  }

  /** External vertexes keep the pressure they were built with. */
  lemma {:induction false} ExternalPressuresStay(plan: Plan, net: Net, pasts: seq<seq<real>>, dt: real)
    requires plan.Valid() && net.Fits(plan) && Quiet(plan, net) && PastsFit(plan, pasts)
    ensures var r := Run(plan, net, pasts, dt);
            Quiet(plan, r) && forall j :: 0 <= j < |net.p| && plan.external[j] ==> r.p[j] == net.p[j]
    decreases |pasts|
  {
    hide Simulate, Propagate, Gathered;
    if pasts != [] {
      var s := LoopStep(plan, net, pasts[0], dt);
      forall j | 0 <= j < |net.p| && plan.external[j] ensures s.p[j] == net.p[j] && s.qxc[j] == 0.0 {
        var n2 := Simulate(plan, Propagate(plan, net), dt);
        assert n2.p == net.p && n2.qxc == net.qxc by { SimulatedVertexes(plan, net, dt); }
        assert Gather(plan, n2, pasts[0]).qxc[j] == n2.qxc[j];
      }
      ExternalPressuresStay(plan, s, pasts[1..], dt);
    }
  }

  // ---------- runs ----------

  /** One outlet reading per branch and step. */
  ghost predicate PastsFit(plan: Plan, pasts: seq<seq<real>>) {
    forall past :: past in pasts ==> |past| == plan.topo.nrBranches
  }

  function Run(plan: Plan, net: Net, pasts: seq<seq<real>>, dt: real): (r: Net)
    requires plan.Valid() && net.Fits(plan) && PastsFit(plan, pasts)
    ensures r.Fits(plan)
    decreases |pasts|
  {
    if pasts == [] then net else Run(plan, LoopStep(plan, net, pasts[0], dt), pasts[1..], dt)
  }

  /** The program's loop over the objects is a run over their values. */
  method RunLoops(sim: Simulation, pasts: seq<seq<real>>, dt: real, ghost net: Net)
    requires sim.Valid() && sim.Holds(net) && PastsFit(sim.ThePlan(), pasts)
    modifies sim.Ps(), sim.Qs(), sim.vertexes
    ensures sim.Holds(Run(sim.ThePlan(), net, pasts, dt))
  {
    hide LoopStep, Simulation.CellsAre, Simulation.VertexesAre;
    ghost var plan, now := sim.ThePlan(), net;
    var n := 0;
    while n < |pasts|
      invariant 0 <= n <= |pasts| && sim.Holds(now)
      invariant Run(plan, net, pasts, dt) == Run(plan, now, pasts[n..], dt)
    {
      sim.SimulationLoop(dt, pasts[n], now);
      now := LoopStep(plan, now, pasts[n], dt);
      n := n + 1;
    }
  }

  /** The branches in the middle of a step, once their flows are known. */
  function Flowing(plan: Plan, net: Net, dt: real): (cells: seq<Cells>)
    requires plan.Valid() && net.Fits(plan)
    ensures |cells| == plan.topo.nrBranches && forall i :: 0 <= i < |cells| ==> cells[i].Valid()
  {
    Simulate(plan, Propagate(plan, net), dt).cells
  }

  ghost function RunBoundary(plan: Plan, net: Net, pasts: seq<seq<real>>, dt: real, tail: seq<nat>, head: seq<nat>): real
    requires plan.Valid() && net.Fits(plan) && PastsFit(plan, pasts)
    decreases |pasts|
  {
    if pasts == [] then 0.0
    else dt * Sum(plan.topo.nrBranches, BoundaryOf(plan, Flowing(plan, net, dt), pasts[0], tail, head))
         + RunBoundary(plan, LoopStep(plan, net, pasts[0], dt), pasts[1..], dt, tail, head)
  }

  /** So an external vertex shows the pressure it was given all through a run. */
  lemma {:induction false} ExternalPressuresAsBuilt(topo: Topology, bs: seq<BranchParams>, vs: seq<VertexParams>, pasts: seq<seq<real>>, dt: real)
    requires topo.Valid() && |bs| == topo.nrBranches && |vs| == topo.nrVertexes
    requires forall i :: 0 <= i < |bs| ==> bs[i].nrApproxElements >= 1
    requires PastsFit(PlanOf(topo, bs, vs), pasts)
    ensures PlanOf(topo, bs, vs).Valid() && Initial(bs, vs).Fits(PlanOf(topo, bs, vs))
    ensures var r := Run(PlanOf(topo, bs, vs), Initial(bs, vs), pasts, dt);
            forall j :: 0 <= j < |vs| && vs[j].isExternal ==> r.p[j] == vs[j].hExternal
  {
    hide Run, LoopStep;
    ExternalPressuresStay(PlanOf(topo, bs, vs), Initial(bs, vs), pasts, dt);
  }

  /** Over any run, only external vertexes and outlet readings change the total. */
  lemma {:induction false} RunConserves(plan: Plan, net: Net, pasts: seq<seq<real>>, dt: real, tail: seq<nat>, head: seq<nat>)
    requires plan.Valid() && net.Fits(plan) && PastsFit(plan, pasts) && Incidence(plan.topo, tail, head)
    ensures Total(plan, Run(plan, net, pasts, dt)) == Total(plan, net) + RunBoundary(plan, net, pasts, dt, tail, head)
    decreases |pasts|
  {
    hide LoopStep, Total, Incidence, BoundaryOf, Sum;
    if pasts != [] {
      StepConserves(plan, net, pasts[0], dt, tail, head);
      RunConserves(plan, LoopStep(plan, net, pasts[0], dt), pasts[1..], dt, tail, head);
    }
  }

  /** The outlet readings are the flows of the last cells. */
  ghost predicate ExactOutlets(plan: Plan, net: Net, pasts: seq<seq<real>>, dt: real)
    requires plan.Valid() && net.Fits(plan) && PastsFit(plan, pasts)
    decreases |pasts|
  {
    pasts != [] ==>
      && (forall i :: 0 <= i < plan.topo.nrBranches ==> pasts[0][i] == Last(Flowing(plan, net, dt)[i]))
      && ExactOutlets(plan, LoopStep(plan, net, pasts[0], dt), pasts[1..], dt)
  }

  /** Inflow at external inlets minus outflow at external outlets. */
  ghost function Crossing(plan: Plan, cells: seq<Cells>, tail: seq<nat>, head: seq<nat>): nat -> real {
    (i: nat) => if plan.Valid() && |cells| == plan.topo.nrBranches == |tail| == |head| && i < |cells| && cells[i].Valid()
                   && tail[i] < |plan.external| && head[i] < |plan.external|
                then (if plan.external[tail[i]] then plan.ks[i].c * cells[i].q[0] else 0.0)
                     - (if plan.external[head[i]] then plan.ks[i].c * Last(cells[i]) else 0.0)
                else 0.0
  }

  ghost function RunCrossing(plan: Plan, net: Net, pasts: seq<seq<real>>, dt: real, tail: seq<nat>, head: seq<nat>): real
    requires plan.Valid() && net.Fits(plan) && PastsFit(plan, pasts)
    decreases |pasts|
  {
    if pasts == [] then 0.0
    else dt * Sum(plan.topo.nrBranches, Crossing(plan, Flowing(plan, net, dt), tail, head))
         + RunCrossing(plan, LoopStep(plan, net, pasts[0], dt), pasts[1..], dt, tail, head)
  }

  lemma {:induction false} ExactBoundary(plan: Plan, cells: seq<Cells>, past: seq<real>, tail: seq<nat>, head: seq<nat>)
    requires plan.Valid() && |cells| == |past| == plan.topo.nrBranches
    requires forall i :: 0 <= i < |cells| ==> cells[i].Valid() && past[i] == Last(cells[i])
    requires Incidence(plan.topo, tail, head)
    ensures Sum(|cells|, BoundaryOf(plan, cells, past, tail, head)) == Sum(|cells|, Crossing(plan, cells, tail, head))
  {
    forall i | 0 <= i < |cells|
      ensures BoundaryOf(plan, cells, past, tail, head)(i) == Crossing(plan, cells, tail, head)(i)
    {
      hide Last;
      ConnectsBounds(plan.topo, i, tail[i], head[i]);
      assert past[i] - Last(cells[i]) == 0.0;
    }
    SumEq(|cells|, BoundaryOf(plan, cells, past, tail, head), Crossing(plan, cells, tail, head));
  }

  /** With exact outlets only the flows across external vertexes remain. */
  lemma {:induction false} ExactRunConserves(plan: Plan, net: Net, pasts: seq<seq<real>>, dt: real, tail: seq<nat>, head: seq<nat>)
    requires plan.Valid() && net.Fits(plan) && PastsFit(plan, pasts) && Incidence(plan.topo, tail, head)
    requires ExactOutlets(plan, net, pasts, dt)
    ensures Total(plan, Run(plan, net, pasts, dt)) == Total(plan, net) + RunCrossing(plan, net, pasts, dt, tail, head)
    decreases |pasts|
  {
    hide LoopStep, Total, Incidence, BoundaryOf, Sum, Crossing;
    if pasts != [] {
      StepConserves(plan, net, pasts[0], dt, tail, head);
      ExactBoundary(plan, Flowing(plan, net, dt), pasts[0], tail, head);
      ExactRunConserves(plan, LoopStep(plan, net, pasts[0], dt), pasts[1..], dt, tail, head);
    }
  }

  /** A network with no external vertex keeps its total for ever. */
  lemma {:induction false} ClosedNetworkConserves(plan: Plan, net: Net, pasts: seq<seq<real>>, dt: real, tail: seq<nat>, head: seq<nat>)
    requires plan.Valid() && net.Fits(plan) && PastsFit(plan, pasts) && Incidence(plan.topo, tail, head)
    requires ExactOutlets(plan, net, pasts, dt) && forall j :: 0 <= j < |plan.external| ==> !plan.external[j]
    ensures Total(plan, Run(plan, net, pasts, dt)) == Total(plan, net)
    decreases |pasts|
  {
    hide LoopStep, Total, Incidence, BoundaryOf, Sum;
    if pasts != [] {
      StepConserves(plan, net, pasts[0], dt, tail, head);
      ExactBoundary(plan, Flowing(plan, net, dt), pasts[0], tail, head);
      SumZero(plan.topo.nrBranches, Crossing(plan, Flowing(plan, net, dt), tail, head));
      ClosedNetworkConserves(plan, LoopStep(plan, net, pasts[0], dt), pasts[1..], dt, tail, head);
    }
  }

  // ---------- the network the program builds ----------

  const ROWS: seq<seq<int>> := [
    [-1, 0, 0, 0, 0, 0, 0, 0],
    [1, -1, 0, 0, 0, 0, -1, -1],
    [0, 1, 0, 0, -1, -1, 0, 0],
    [0, 0, -1, 0, 1, 1, 0, 0],
    [0, 0, 1, -1, 0, 0, 1, 1],
    [0, 0, 0, 1, 0, 0, 0, 0]]

  const TESTNET := Topology(8, 6, ROWS[0] + ROWS[1] + ROWS[2] + ROWS[3] + ROWS[4] + ROWS[5])

  lemma {:induction false} TestNetCell(j: nat, i: nat)
    requires j < 6 && i < 8
    ensures TESTNET.Valid() && TESTNET.nrBranches == 8 && TESTNET.nrVertexes == 6
    ensures TESTNET.ElementOfA(j, i) == ROWS[j][i]
  {
    if j < 3 {
      if j == 0 { } else if j == 1 { } else { }
    } else {
      if j == 3 { } else if j == 4 { } else { }
    }
  }

  /** The built-in matrix is an incidence matrix, so every law above applies to it. */
  lemma {:induction false} TestNetIsIncidence()
    ensures Incidence(TESTNET, [0, 1, 3, 4, 2, 2, 1, 1], [1, 2, 4, 5, 3, 3, 4, 4])
  {
    hide Topology.ElementOfA, TESTNET;
    var tail, head := [0, 1, 3, 4, 2, 2, 1, 1], [1, 2, 4, 5, 3, 3, 4, 4];
    TestNetCell(0, 0);
    forall i: nat | i < TESTNET.nrBranches ensures Connects(TESTNET, i, tail[i], head[i]) {
      forall j: nat | j < 6 ensures TESTNET.ElementOfA(j, i) == ROWS[j][i] {
        TestNetCell(j, i);
      }
    }
  }
}
