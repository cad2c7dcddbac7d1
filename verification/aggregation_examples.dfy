/** Worked examples of scope aggregation and the loss total on small,
    fixed tables. */
module AggregationExamples {
  import opened Optional
  import opened Models
  import opened Scope
  import opened Aggregation

  /** A small hierarchy: Root has children A and C, A has child B. Both
      risks, the incident and the action item sit below B. */
  const ExampleNodes: seq<Node> :=
    [Node(1, "Root", None, 1), Node(2, "A", Some(1), 2), Node(3, "B", Some(2), 3), Node(4, "C", Some(1), 2)]

  function ExampleRank(id: int): nat {
    if id == 1 then 2 else if id == 2 || id == 4 then 1 else 0
  }

  const ExampleTables: Tables := Tables(
    ExampleNodes,
    [Risk(1, "Fraud", None, Some(3), None, None), Risk(2, "Outage", None, Some(3), None, None)],
    [Incident(1, "Loss", None, None, Some(500), true, 3)],
    [ActionItem(1, "Review", Some(1), None, None)])

  lemma ExampleRanked()
    ensures RankedForest(ExampleNodes, ExampleRank)
  {
  }

  /** B and C have no children, so each is its own whole scope. */
  lemma ExampleLeaves()
    ensures RankedForest(ExampleNodes, ExampleRank)
    ensures Descendants(ExampleNodes, ExampleRank, 3) == {3}
    ensures Descendants(ExampleNodes, ExampleRank, 4) == {4}
  {
    ExampleRanked();
    forall c | c in ExampleNodes ensures c.parentId != Some(3) && c.parentId != Some(4) {
      var k :| 0 <= k < 4 && ExampleNodes[k] == c;
    }
    LeafScope(ExampleNodes, ExampleRank, 3);
    LeafScope(ExampleNodes, ExampleRank, 4);
  }

  lemma ExampleGatherB()
    ensures Gather(ExampleTables, {3}) == Aggregate(ExampleTables.risks, ExampleTables.incidents, ExampleTables.actions)
  {
  }

  lemma ExampleGatherC()
    ensures Gather(ExampleTables, {4}) == Aggregate([], [], [])
  {
  }

  /** The pages for Root, A and B list the same risks, incidents and action
      items, all of B's; the page for C, a sibling of A with no records,
      lists nothing. */
  lemma NestedScopeExample()
    ensures RankedForest(ExampleNodes, ExampleRank)
    ensures var t := ExampleTables;
      && Gather(t, Descendants(ExampleNodes, ExampleRank, 1)) == Aggregate(t.risks, t.incidents, t.actions)
      && Gather(t, Descendants(ExampleNodes, ExampleRank, 2)) == Aggregate(t.risks, t.incidents, t.actions)
      && Gather(t, Descendants(ExampleNodes, ExampleRank, 3)) == Aggregate(t.risks, t.incidents, t.actions)
      && Gather(t, Descendants(ExampleNodes, ExampleRank, 4)) == Aggregate([], [], [])
  {
    var t := ExampleTables;
    var ns := ExampleNodes;
    ExampleLeaves();
    ExampleGatherB();
    ExampleGatherC();
    assert ns[2] in ns && ns[2].parentId == Some(2) && ns[2].id == 3;
    ChildScopeIncluded(ns, ExampleRank, 2, ns[2]);
    assert ns[1] in ns && ns[1].parentId == Some(1) && ns[1].id == 2;
    ChildScopeIncluded(ns, ExampleRank, 1, ns[1]);
    var d1 := Descendants(ns, ExampleRank, 1);
    var d2 := Descendants(ns, ExampleRank, 2);
    assert forall k :: k in t.risks ==> k.nodeId == Some(3);
    assert forall i :: i in t.incidents ==> i.nodeId == 3;
    GatherAgreesWhenRecordsInside(t, {3}, d2);
    GatherAgreesWhenRecordsInside(t, {3}, d1);
  }

  /** One financial incident of 100, one non-financial incident of 50 and
      one financial incident without an amount total 100. */
  lemma FinancialLossExample()
    ensures FinancialLoss([
      Incident(1, "a", None, None, Some(100), true, 1),
      Incident(2, "b", None, None, Some(50), false, 1),
      Incident(3, "c", None, None, None, true, 1)]) == 100
  {
  }
}
