/**
 The ventilation network: branches coupled at vertexes by an incidence matrix,
 and one turn of the simulation loop over them.
 */
module Network {
  import opened Solver

  datatype BranchParams = BranchParams(a: real, b: real, c: real, nrApproxElements: nat)
  {
    function GetA(): real { a }

    /** As the program has it: the accessor for B hands out A. */
    function GetB(): real { a }

    function GetC(): real { c }
  }

  datatype VertexParams = VertexParams(isExternal: bool, hExternal: real)

  lemma RowsFit(j: nat, rest: nat, width: nat)
    ensures (j + 1 + rest) * width >= j * width + width
  {
    assert (j + 1 + rest) * width == j * width + width + rest * width;
  }

  /** Row j, column i: 1 when branch i enters vertex j, -1 when it leaves it. */
  datatype Topology = Topology(nrBranches: nat, nrVertexes: nat, a: seq<int>)
  {
    predicate Valid() {
      |a| == nrVertexes * nrBranches
    }

    function ElementOfA(j: nat, i: nat): int
      requires Valid() && j < nrVertexes && i < nrBranches
    {
      InMatrix(j, i);
      a[j * nrBranches + i]
    }

    lemma InMatrix(j: nat, i: nat)
      requires j < nrVertexes && i < nrBranches
      ensures 0 <= j * nrBranches + i < nrVertexes * nrBranches
    {
      RowsFit(j, nrVertexes - j - 1, nrBranches);
    }
  }

  // ---------- the step, on values ----------

  /** What never changes in a network. */
  datatype Plan = Plan(topo: Topology, ks: seq<Coefficients>, external: seq<bool>)
  {
    predicate Valid() {
      topo.Valid() && |ks| == topo.nrBranches && |external| == topo.nrVertexes
    }
  }

  /** What a step changes: branch cells, vertex pressures, gathered flows. */
  datatype Net = Net(cells: seq<Cells>, p: seq<real>, qxc: seq<real>)
  {
    predicate Fits(plan: Plan) {
      && |cells| == plan.topo.nrBranches && |p| == |qxc| == plan.topo.nrVertexes
      && forall i :: 0 <= i < |cells| ==> cells[i].Valid()
    }
  }

  function WithEnd(c: Cells, x: real): (r: Cells)
    requires c.Valid()
    ensures r.Valid() && |r.q| == |c.q|
  {
    c.(p := c.p[|c.q| := x])
  }

  function WithStart(c: Cells, x: real): (r: Cells)
    requires c.Valid()
    ensures r.Valid() && |r.q| == |c.q|
  {
    c.(p := c.p[0 := x])
  }

  /** Branch i after the first j vertexes have written their pressures to it. */
  function Propagated(plan: Plan, p: seq<real>, i: nat, c: Cells, j: nat): (r: Cells)
    requires plan.Valid() && |p| == plan.topo.nrVertexes && c.Valid()
    requires i < plan.topo.nrBranches && j <= plan.topo.nrVertexes
    ensures r.Valid() && |r.q| == |c.q|
  {
    if j == 0 then c
    else
      var before := Propagated(plan, p, i, c, j - 1);
      if plan.topo.ElementOfA(j - 1, i) == 1 then WithEnd(before, p[j - 1])
      else if plan.topo.ElementOfA(j - 1, i) == -1 then WithStart(before, p[j - 1])
      else before
  }

  function Propagate(plan: Plan, net: Net): (r: Net)
    requires plan.Valid() && net.Fits(plan)
    ensures r.Fits(plan)
  {
    net.(cells := seq(|net.cells|, i requires 0 <= i < |net.cells| =>
                        Propagated(plan, net.p, i, net.cells[i], plan.topo.nrVertexes)))
  }

  function Simulate(plan: Plan, net: Net, dt: real): (r: Net)
    requires plan.Valid() && net.Fits(plan)
    ensures r.Fits(plan)
  {
    net.(cells := seq(|net.cells|, i requires 0 <= i < |net.cells| => BranchStep(net.cells[i], plan.ks[i], dt)))
  }

  /** What branch i contributes to vertex j. `past` holds, per branch, the flow
      the program reads at its outlet, one position past the last cell. */
  function Contribution(plan: Plan, cells: seq<Cells>, past: seq<real>, j: nat, i: nat): real
    requires plan.Valid() && |cells| == |past| == plan.topo.nrBranches
    requires forall k :: 0 <= k < |cells| ==> cells[k].Valid()
    requires j < plan.topo.nrVertexes && i < plan.topo.nrBranches
  {
    assert cells[i].Valid();
    if plan.topo.ElementOfA(j, i) == 1 then plan.ks[i].c * past[i]
    else if plan.topo.ElementOfA(j, i) == -1 then -(plan.ks[i].c * cells[i].q[0])
    else 0.0
  }

  function Gathered(plan: Plan, cells: seq<Cells>, past: seq<real>, j: nat, i: nat): real
    requires plan.Valid() && |cells| == |past| == plan.topo.nrBranches
    requires forall k :: 0 <= k < |cells| ==> cells[k].Valid()
    requires j < plan.topo.nrVertexes && i <= plan.topo.nrBranches
  {
    if i == 0 then 0.0 else Gathered(plan, cells, past, j, i - 1) + Contribution(plan, cells, past, j, i - 1)
  }

  lemma NothingGathered(plan: Plan, cells: seq<Cells>, past: seq<real>, j: nat)
    requires plan.Valid() && |cells| == |past| == plan.topo.nrBranches && j < plan.topo.nrVertexes
    requires forall k :: 0 <= k < |cells| ==> cells[k].Valid()
    ensures Gathered(plan, cells, past, j, 0) == 0.0
  {
  }

  lemma GatheredNext(plan: Plan, cells: seq<Cells>, past: seq<real>, j: nat, i: nat, c: real, last: real, first: real)
    requires plan.Valid() && |cells| == |past| == plan.topo.nrBranches
    requires forall k :: 0 <= k < |cells| ==> cells[k].Valid()
    requires j < plan.topo.nrVertexes && i < plan.topo.nrBranches
    requires cells[i].Valid() && c == plan.ks[i].c && last == past[i] && first == cells[i].q[0]
    ensures Gathered(plan, cells, past, j, i + 1)
         == Gathered(plan, cells, past, j, i)
            + (if plan.topo.ElementOfA(j, i) == 1 then c * last
               else if plan.topo.ElementOfA(j, i) == -1 then -(c * first) else 0.0)
  {
    hide Topology.ElementOfA;
  }

  function Gather(plan: Plan, net: Net, past: seq<real>): (r: Net)
    requires plan.Valid() && net.Fits(plan) && |past| == |net.cells|
    ensures r.Fits(plan)
  {
    net.(qxc := seq(|net.qxc|, j requires 0 <= j < |net.qxc| =>
                      if plan.external[j] then net.qxc[j]
                      else Gathered(plan, net.cells, past, j, |net.cells|)))
  }

  function NextVertex(p: real, qxc: real, dt: real): real {
    p + qxc * dt
  }

  function Settle(plan: Plan, net: Net, dt: real): (r: Net)
    requires plan.Valid() && net.Fits(plan)
    ensures r.Fits(plan)
  {
    net.(p := seq(|net.p|, j requires 0 <= j < |net.p| => NextVertex(net.p[j], net.qxc[j], dt)))
  }

  function LoopStep(plan: Plan, net: Net, past: seq<real>, dt: real): (r: Net)
    requires plan.Valid() && net.Fits(plan) && |past| == |net.cells|
    ensures r.Fits(plan)
  {
    Settle(plan, Gather(plan, Simulate(plan, Propagate(plan, net), dt), past), dt)
  }

  // ---------- the network as it is built ----------

  function PlanOf(topo: Topology, bs: seq<BranchParams>, vs: seq<VertexParams>): Plan {
    Plan(topo, seq(|bs|, i requires 0 <= i < |bs| => Coefficients(bs[i].GetA(), bs[i].GetB(), bs[i].GetC())),
         seq(|vs|, j requires 0 <= j < |vs| => vs[j].isExternal))
  }

  /** The friction configured for a branch is not used: the step rubs with A. */
  lemma FrictionIsA(topo: Topology, bs: seq<BranchParams>, vs: seq<VertexParams>)
    ensures forall i :: 0 <= i < |bs| ==> PlanOf(topo, bs, vs).ks[i] == Coefficients(bs[i].a, bs[i].a, bs[i].c)
    ensures forall j :: 0 <= j < |vs| ==> PlanOf(topo, bs, vs).external[j] == vs[j].isExternal
  {
  }

  /** Empty branches, and vertexes at the pressure they are given. */
  function Initial(bs: seq<BranchParams>, vs: seq<VertexParams>): Net {
    Net(seq(|bs|, i requires 0 <= i < |bs| => Empty(bs[i].nrApproxElements)),
        seq(|vs|, j requires 0 <= j < |vs| => vs[j].hExternal), seq(|vs|, _ => 0.0))
  }

  function Empty(n: nat): Cells {
    Cells(seq(n + 1, _ => 0.0), seq(n, _ => 0.0))
  }

  // ---------- the objects ----------

  class Branch {
    const params: BranchParams
    const p: array<real>
    const q: array<real>

    ghost predicate Valid() {
      && p != q && params.nrApproxElements >= 1
      && q.Length == params.nrApproxElements && p.Length == params.nrApproxElements + 1
    }

    ghost function State(): (s: Cells)
      requires Valid()
      reads p, q
      ensures s.Valid() && |s.q| == params.nrApproxElements
    {
      Cells(p[..], q[..])
    }

    function Coeffs(): Coefficients {
      Coefficients(params.GetA(), params.GetB(), params.GetC())
    }

    constructor (params: BranchParams)
      requires params.nrApproxElements >= 1
      ensures Valid() && this.params == params && fresh(p) && fresh(q)
      ensures forall i :: 0 <= i < p.Length ==> p[i] == 0.0
      ensures forall i :: 0 <= i < q.Length ==> q[i] == 0.0
    {
      this.params := params;
      q := new real[params.nrApproxElements](_ => 0.0);
      p := new real[params.nrApproxElements + 1](_ => 0.0);
    }

    lemma StartsEmpty()
      requires Valid() && forall i :: 0 <= i < p.Length ==> p[i] == 0.0
      requires forall i :: 0 <= i < q.Length ==> q[i] == 0.0
      ensures State() == Empty(params.nrApproxElements)
    {
    }

    method UpdatePStart(newP: real)
      requires Valid()
      modifies p
      ensures State() == WithStart(old(State()), newP)
    {
      p[0] := newP;
    }

    method UpdatePEnd(newP: real)
      requires Valid()
      modifies p
      ensures State() == WithEnd(old(State()), newP)
    {
      p[params.nrApproxElements] := newP;
    }

    method SimulateBranchFlow(dt: real)
      requires Valid()
      modifies p, q
      ensures State() == BranchStep(old(State()), Coeffs(), dt)
    {
      SimulateBranch(dt, p, q, Coeffs(), params.nrApproxElements);
    }
  }

  class Vertex {
    const params: VertexParams
    var p: real
    var qxcAverage: real

    constructor (params: VertexParams)
      ensures this.params == params && p == params.hExternal && qxcAverage == 0.0
    {
      this.params := params;
      p := params.hExternal;
      qxcAverage := 0.0;
    }

    method SetQxCAverage(x: real)
      modifies this
      ensures p == old(p) && qxcAverage == x
    {
      qxcAverage := x;
    }

    method ComputeVertexPressure(dt: real)
      modifies this
      ensures p == NextVertex(old(p), old(qxcAverage), dt) && qxcAverage == old(qxcAverage)
    {
      p := p + qxcAverage * dt;
    }
  }

  method InitBranches(bs: seq<BranchParams>) returns (branches: seq<Branch>)
    requires forall i :: 0 <= i < |bs| ==> bs[i].nrApproxElements >= 1
    ensures |branches| == |bs|
    ensures forall i :: 0 <= i < |bs| ==>
              && branches[i].Valid() && branches[i].params == bs[i] && branches[i].State() == Empty(bs[i].nrApproxElements)
              && fresh(branches[i].p) && fresh(branches[i].q)
    ensures forall i, k :: 0 <= i < k < |bs| ==> branches[i].p != branches[k].p && branches[i].q != branches[k].q
    ensures forall i, k :: 0 <= i < |bs| && 0 <= k < |bs| ==> branches[i].p != branches[k].q
  {
    hide Branch.State, Empty;
    branches := [];
    for i := 0 to |bs|
      invariant |branches| == i
      invariant forall k :: 0 <= k < i ==>
                  && branches[k].Valid() && branches[k].params == bs[k] && branches[k].State() == Empty(bs[k].nrApproxElements)
                  && fresh(branches[k].p) && fresh(branches[k].q)
      invariant forall j, k :: 0 <= j < k < i ==> branches[j].p != branches[k].p && branches[j].q != branches[k].q
      invariant forall j, k :: 0 <= j < i && 0 <= k < i ==> branches[j].p != branches[k].q
    {
      var b := new Branch(bs[i]);
      b.StartsEmpty();
      branches := branches + [b];
    }
  }

  method InitVertexes(vs: seq<VertexParams>) returns (vertexes: seq<Vertex>)
    ensures |vertexes| == |vs|
    ensures forall j :: 0 <= j < |vs| ==>
              fresh(vertexes[j]) && vertexes[j].params == vs[j] && vertexes[j].p == vs[j].hExternal && vertexes[j].qxcAverage == 0.0
    ensures forall j, k :: 0 <= j < k < |vs| ==> vertexes[j] != vertexes[k]
  {
    vertexes := [];
    for j := 0 to |vs|
      invariant |vertexes| == j
      invariant forall k :: 0 <= k < j ==>
                  fresh(vertexes[k]) && vertexes[k].params == vs[k] && vertexes[k].p == vs[k].hExternal && vertexes[k].qxcAverage == 0.0
      invariant forall i, k :: 0 <= i < k < j ==> vertexes[i] != vertexes[k]
    {
      var v := new Vertex(vs[j]);
      vertexes := vertexes + [v];
    }
  }

  /** A network of distinct objects, as `main` builds it. */
  class Simulation {
    const topo: Topology
    const branches: seq<Branch>
    const vertexes: seq<Vertex>

    ghost predicate Valid() {
      && topo.Valid() && |branches| == topo.nrBranches && |vertexes| == topo.nrVertexes
      && (forall i :: 0 <= i < |branches| ==> branches[i].Valid())
      && (forall i, k :: 0 <= i < k < |branches| ==> branches[i].p != branches[k].p && branches[i].q != branches[k].q)
      && (forall i, k :: 0 <= i < |branches| && 0 <= k < |branches| ==> branches[i].p != branches[k].q)
      && (forall j, k :: 0 <= j < k < |vertexes| ==> vertexes[j] != vertexes[k])
    }

    ghost function ThePlan(): (plan: Plan)
      requires Valid()
      ensures plan.Valid() && plan.topo == topo
    {
      Plan(topo, seq(|branches|, i requires 0 <= i < |branches| => branches[i].Coeffs()),
           seq(|vertexes|, j requires 0 <= j < |vertexes| => vertexes[j].params.isExternal))
    }

    ghost function Ps(): set<object> {
      set b <- branches :: b.p
    }

    ghost function Qs(): set<object> {
      set b <- branches :: b.q
    }

    ghost predicate CellsAre(cells: seq<Cells>)
      requires Valid()
      reads Ps(), Qs()
    {
      |cells| == |branches| && forall i :: 0 <= i < |branches| ==> branches[i].State() == cells[i]
    }

    ghost predicate VertexesAre(p: seq<real>, qxc: seq<real>)
      reads vertexes
    {
      |p| == |qxc| == |vertexes| && forall j :: 0 <= j < |vertexes| ==> vertexes[j].p == p[j] && vertexes[j].qxcAverage == qxc[j]
    }

    /** The objects hold the network state `net`. */
    ghost predicate Holds(net: Net)
      requires Valid()
      reads Ps(), Qs(), vertexes
    {
      net.Fits(ThePlan()) && CellsAre(net.cells) && VertexesAre(net.p, net.qxc)
    }

    constructor (topo: Topology, bs: seq<BranchParams>, vs: seq<VertexParams>)
      requires topo.Valid() && |bs| == topo.nrBranches && |vs| == topo.nrVertexes
      requires forall i :: 0 <= i < |bs| ==> bs[i].nrApproxElements >= 1
      ensures Valid() && ThePlan() == PlanOf(topo, bs, vs) && Holds(Initial(bs, vs))
      ensures fresh(Ps()) && fresh(Qs()) && forall v :: v in vertexes ==> fresh(v)
    {
      var branches := InitBranches(bs);
      var vertexes := InitVertexes(vs);
      this.topo, this.branches, this.vertexes := topo, branches, vertexes;
    }

    /** Every vertex writes its pressure to the ends of its branches. */
    method PropagateBoundary(ghost net: Net)
      requires Valid() && Holds(net)
      modifies Ps()
      ensures Holds(Propagate(ThePlan(), net))
    {
      hide Propagated, Branch.State;
      ghost var plan := ThePlan();
      ghost var target := Propagate(plan, net).cells;
      var i := 0;
      while i < |branches|
        invariant 0 <= i <= |branches|
        invariant forall k :: 0 <= k < i ==> branches[k].State() == target[k]
        invariant forall k :: i <= k < |branches| ==> branches[k].State() == net.cells[k]
      {
        PropagateTo(i, net);
        i := i + 1;
      }
    }

    /** The inner loop: every vertex in turn looks whether branch i touches it. */
    method PropagateTo(i: nat, ghost net: Net)
      requires Valid() && net.Fits(ThePlan()) && VertexesAre(net.p, net.qxc) && i < |branches|
      requires branches[i].State() == net.cells[i]
      modifies branches[i].p
      ensures branches[i].State() == Propagated(ThePlan(), net.p, i, net.cells[i], |vertexes|)
    {
      hide WithEnd, WithStart;
      ghost var plan := ThePlan();
      var j := 0;
      while j < |vertexes|
        invariant 0 <= j <= |vertexes|
        invariant branches[i].State() == Propagated(plan, net.p, i, net.cells[i], j)
      {
        if topo.ElementOfA(j, i) == 1 {
          branches[i].UpdatePEnd(vertexes[j].p);
        } else if topo.ElementOfA(j, i) == -1 {
          branches[i].UpdatePStart(vertexes[j].p);
        }
        j := j + 1;
      }
    }

    method SimulateBranches(dt: real, ghost net: Net)
      requires Valid() && Holds(net)
      modifies Ps(), Qs()
      ensures Holds(Simulate(ThePlan(), net, dt))
    {
      hide BranchStep, Branch.State;
      ghost var plan := ThePlan();
      ghost var target := Simulate(plan, net, dt).cells;
      var i := 0;
      while i < |branches|
        invariant 0 <= i <= |branches|
        invariant forall k :: 0 <= k < i ==> branches[k].State() == target[k]
        invariant forall k :: i <= k < |branches| ==> branches[k].State() == net.cells[k]
      {
        assert target[i] == BranchStep(net.cells[i], plan.ks[i], dt) && plan.ks[i] == branches[i].Coeffs();
        branches[i].SimulateBranchFlow(dt);
        i := i + 1;
      }
    }

    method GatherFlows(past: seq<real>, ghost net: Net)
      requires Valid() && Holds(net) && |past| == |branches|
      modifies vertexes
      ensures Holds(Gather(ThePlan(), net, past))
    {
      hide Contribution;
      ghost var plan := ThePlan();
      ghost var target := Gather(plan, net, past).qxc;
      var j := 0;
      while j < |vertexes|
        invariant 0 <= j <= |vertexes|
        invariant forall k :: 0 <= k < |vertexes| ==> vertexes[k].p == net.p[k]
        invariant forall k :: 0 <= k < j ==> vertexes[k].qxcAverage == target[k]
        invariant forall k :: j <= k < |vertexes| ==> vertexes[k].qxcAverage == net.qxc[k]
      {
        if !vertexes[j].params.isExternal {
          var total := GatherAt(j, past, net);
          vertexes[j].SetQxCAverage(total);
        }
        j := j + 1;
      }
    }

    /** The inner loop: what enters the vertex minus what leaves it. */
    method GatherAt(j: nat, past: seq<real>, ghost net: Net) returns (total: real)
      requires Valid() && net.Fits(ThePlan()) && CellsAre(net.cells) && |past| == |branches| && j < |vertexes|
      ensures total == Gathered(ThePlan(), net.cells, past, j, |branches|)
    {
      hide Gathered, Topology.ElementOfA, Topology.Valid;
      ghost var plan := ThePlan();
      total := 0.0;
      var i := 0;
      NothingGathered(plan, net.cells, past, j);
      while i < |branches|
        invariant 0 <= i <= |branches|
        invariant total == Gathered(plan, net.cells, past, j, i)
      {
        assert branches[i].State() == net.cells[i];
        var c, last, first := branches[i].params.GetC(), past[i], branches[i].q[0];
        GatheredNext(plan, net.cells, past, j, i, c, last, first);
        if topo.ElementOfA(j, i) == 1 {
          total := total + c * last;
        } else if topo.ElementOfA(j, i) == -1 {
          total := total - c * first;
        }
        i := i + 1;
      }
    }

    method SettleVertexes(dt: real, ghost net: Net)
      requires Valid() && Holds(net)
      modifies vertexes
      ensures Holds(Settle(ThePlan(), net, dt))
    {
      hide NextVertex;
      ghost var target := Settle(ThePlan(), net, dt).p;
      var j := 0;
      while j < |vertexes|
        invariant 0 <= j <= |vertexes|
        invariant forall k :: 0 <= k < |vertexes| ==> vertexes[k].qxcAverage == net.qxc[k]
        invariant forall k :: 0 <= k < j ==> vertexes[k].p == target[k]
        invariant forall k :: j <= k < |vertexes| ==> vertexes[k].p == net.p[k]
      {
        vertexes[j].ComputeVertexPressure(dt);
        j := j + 1;
      }
    }

    /** One turn of the simulation loop. */
    method SimulationLoop(dt: real, past: seq<real>, ghost net: Net)
      requires Valid() && Holds(net) && |past| == |branches|
      modifies Ps(), Qs(), vertexes
      ensures Holds(LoopStep(ThePlan(), net, past, dt))
    {
      hide Propagate, Simulate, Gather, Settle, CellsAre, VertexesAre;
      ghost var plan := ThePlan();
      PropagateBoundary(net);
      ghost var n1 := Propagate(plan, net);
      SimulateBranches(dt, n1);
      ghost var n2 := Simulate(plan, n1, dt);
      GatherFlows(past, n2);
      SettleVertexes(dt, Gather(plan, n2, past));
    }
  }
}
