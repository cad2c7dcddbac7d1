/** The aggregation shared by the dashboard and the insights fragment in
    `main.py`: the risks, incidents and action items that fall inside a
    scope of node ids, the financial-loss total, and the dashboard view. */
module Aggregation {
  import opened Optional
  import opened Seqs
  import opened Models
  import opened Scope

  /** One snapshot of the four tables the handlers read. */
  datatype Tables = Tables(nodes: seq<Node>, risks: seq<Risk>, incidents: seq<Incident>, actions: seq<ActionItem>)

  /** The records of one scope, in table order. */
  datatype Aggregate = Aggregate(risks: seq<Risk>, incidents: seq<Incident>, actions: seq<ActionItem>)

  /** `query(Risk).filter(Risk.node_id.in_(scope))`. */
  function ScopedRisks(risks: seq<Risk>, scope: set<int>): (r: seq<Risk>)
    ensures forall x :: x in r <==> x in risks && InScope(x.nodeId, scope)
  {
    Filter(risks, (x: Risk) => InScope(x.nodeId, scope))
  }

  /** `query(Incident).filter(Incident.node_id.in_(scope))`. */
  function ScopedIncidents(incidents: seq<Incident>, scope: set<int>): (r: seq<Incident>)
    ensures forall x :: x in r <==> x in incidents && x.nodeId in scope
  {
    Filter(incidents, (x: Incident) => x.nodeId in scope)
  }

  /** The ids of the risks owned by a node of the scope. */
  function ScopedRiskIds(risks: seq<Risk>, scope: set<int>): set<int> {
    set k | k in risks && InScope(k.nodeId, scope) :: k.id
  }

  /** `query(ActionItem).join(Risk).filter(Risk.node_id.in_(scope))`: the
      action items whose risk, matched on `riskId`, belongs to the scope. */
  function ScopedActions(actions: seq<ActionItem>, risks: seq<Risk>, scope: set<int>): (r: seq<ActionItem>)
    ensures forall a :: a in r <==>
      a in actions && exists k :: k in risks && a.riskId == Some(k.id) && InScope(k.nodeId, scope)
  {
    Filter(actions, (a: ActionItem) => InScope(a.riskId, ScopedRiskIds(risks, scope)))
  }

  /** The three queries of one scope. */
  function Gather(t: Tables, scope: set<int>): (g: Aggregate)
    ensures forall x :: x in g.risks <==> x in t.risks && InScope(x.nodeId, scope)
    ensures forall x :: x in g.incidents <==> x in t.incidents && x.nodeId in scope
    ensures forall a :: a in g.actions <==>
      a in t.actions && exists k :: k in t.risks && a.riskId == Some(k.id) && InScope(k.nodeId, scope)
    ensures |g.risks| <= |t.risks| && |g.incidents| <= |t.incidents| && |g.actions| <= |t.actions|
  {
    Aggregate(ScopedRisks(t.risks, scope), ScopedIncidents(t.incidents, scope), ScopedActions(t.actions, t.risks, scope))
  }

  /** An empty scope selects nothing from any table. */
  lemma EmptyScopeGathersNothing(t: Tables)
    ensures Gather(t, {}) == Aggregate([], [], [])
  {
  }

  /** Widening the scope never loses a record. */
  lemma GatherMonotone(t: Tables, s1: set<int>, s2: set<int>)
    requires s1 <= s2
    ensures forall x :: x in Gather(t, s1).risks ==> x in Gather(t, s2).risks
    ensures forall x :: x in Gather(t, s1).incidents ==> x in Gather(t, s2).incidents
    ensures forall x :: x in Gather(t, s1).actions ==> x in Gather(t, s2).actions
  {
  }

  /** A narrower scope that still holds every risk and incident of a wider
      one yields exactly the same lists, in the same order: a page for a
      node whose records all sit below one descendant matches that
      descendant's page. */
  lemma GatherAgreesWhenRecordsInside(t: Tables, s1: set<int>, s2: set<int>)
    requires s1 <= s2
    requires forall k :: k in t.risks && InScope(k.nodeId, s2) ==> InScope(k.nodeId, s1)
    requires forall i :: i in t.incidents && i.nodeId in s2 ==> i.nodeId in s1
    ensures Gather(t, s1) == Gather(t, s2)
  {
    FilterCongruent(t.risks, (x: Risk) => InScope(x.nodeId, s1), (x: Risk) => InScope(x.nodeId, s2));
    FilterCongruent(t.incidents, (x: Incident) => x.nodeId in s1, (x: Incident) => x.nodeId in s2);
    assert ScopedRiskIds(t.risks, s1) == ScopedRiskIds(t.risks, s2);
  }

  // ---------------------------------------------------------------------
  // Financial loss

  /** An incident contributes to the loss total when it is financial and its
      (integer) amount is present and non-zero. */
  predicate CountsAsLoss(i: Incident) {
    i.isFinancial && i.lossAmount.Some? && i.lossAmount.value != 0
  }

  /** `sum(i.loss_amount for i in incidents if i.is_financial and i.loss_amount)`. */
  function FinancialLoss(incidents: seq<Incident>): (total: int)
    ensures (forall i :: i in incidents ==> !CountsAsLoss(i)) ==> total == 0
    ensures (forall i :: i in incidents && CountsAsLoss(i) ==> i.lossAmount.value >= 0) ==> total >= 0
  {
    if incidents == [] then 0
    else (if CountsAsLoss(incidents[0]) then incidents[0].lossAmount.value else 0) + FinancialLoss(incidents[1..])
  }

  /** The loss of two lists together is the sum of their losses. */
  lemma {:induction false} FinancialLossAppend(a: seq<Incident>, b: seq<Incident>)
    ensures FinancialLoss(a + b) == FinancialLoss(a) + FinancialLoss(b)
  {
    if a == [] {
      assert a + b == b;
    } else {
      assert (a + b)[1..] == a[1..] + b;
      FinancialLossAppend(a[1..], b);
    }
  }

  /** Non-financial incidents contribute nothing, whatever their amount: the
      total over all incidents equals the total over the financial ones. */
  lemma {:induction false} FinancialLossIgnoresNonFinancial(incidents: seq<Incident>)
    ensures FinancialLoss(incidents) == FinancialLoss(Filter(incidents, (i: Incident) => i.isFinancial))
  {
    if incidents != [] {
      FinancialLossIgnoresNonFinancial(incidents[1..]);
      var p := (i: Incident) => i.isFinancial;
      if p(incidents[0]) {
        var f := Filter(incidents, p);
        assert f == [incidents[0]] + Filter(incidents[1..], p);
        assert f[1..] == Filter(incidents[1..], p);
      }
    }
  }

  // ---------------------------------------------------------------------
  // Dashboard

  /** How many risks and incidents the dashboard lists. */
  const DashboardSampleSize: nat := 5

  /** What the dashboard template receives. */
  datatype DashboardView = DashboardView(
    userNode: Option<Node>,
    risksCount: nat,
    incidentsCount: nat,
    actionsCount: nat,
    financialLoss: int,
    risks: seq<Risk>,
    incidents: seq<Incident>)

  /** The scope of a user: their node and its descendants, or nothing when
      the user has no node or it does not exist. */
  function UserScope(t: Tables, rank: int -> nat, user: User): (s: set<int>)
    requires RankedForest(t.nodes, rank)
    ensures FindNode(t.nodes, user.nodeId).None? ==> s == {}
    ensures FindNode(t.nodes, user.nodeId).Some? ==> user.nodeId.value in s
  {
    match FindNode(t.nodes, user.nodeId)
    case Some(n) => Descendants(t.nodes, rank, n.id)
    case None => {}
  }

  /** The `/dashboard` handler: counts over the whole user scope, the
      financial loss of its incidents, and the first five risks and
      incidents. */
  function Dashboard(t: Tables, rank: int -> nat, user: User): (v: DashboardView)
    requires RankedForest(t.nodes, rank)
    ensures v.userNode == FindNode(t.nodes, user.nodeId)
    ensures var g := Gather(t, UserScope(t, rank, user));
      && v.risksCount == |g.risks| && v.incidentsCount == |g.incidents| && v.actionsCount == |g.actions|
      && v.financialLoss == FinancialLoss(g.incidents)
      && v.risks <= g.risks && v.incidents <= g.incidents
    ensures |v.risks| == if v.risksCount < 5 then v.risksCount else 5
    ensures |v.incidents| == if v.incidentsCount < 5 then v.incidentsCount else 5
    ensures v.userNode.None? ==>
      v.risksCount == 0 && v.incidentsCount == 0 && v.actionsCount == 0 && v.financialLoss == 0
  {
    var userNode := FindNode(t.nodes, user.nodeId);
    var scope := if userNode.Some? then Descendants(t.nodes, rank, userNode.value.id) else {};
    var g := if scope != {} then Gather(t, scope) else Aggregate([], [], []);
    EmptyScopeGathersNothing(t);
    DashboardView(
      userNode,
      |g.risks|,
      |g.incidents|,
      |g.actions|,
      FinancialLoss(g.incidents),
      Head(g.risks, DashboardSampleSize),
      Head(g.incidents, DashboardSampleSize))
  }
}
