/** The results of a repair report in the order a manifest is derived from them. */
module ReportOrder {
  import opened RepairApplier
  import opened SessionSteps
  import PathOrder
  import RT = RepairTransaction
  import MB = ManifestBuilder

  method SortResults(plan: seq<Decision>, statuses: seq<RT.Status>) returns (results: seq<MB.AppliedResult>,
      ghost order: seq<nat>)
    requires |statuses| == |plan|
    ensures MB.Reports(results, order, plan, statuses) && Covers(order, plan)
    ensures forall i, j | 0 <= i < j < |results| :: PathOrder.AtMost(results[i].decisionId, results[j].decisionId)
  {
    results, order := [], [];
    for n := 0 to |plan|
      invariant Arranged(results, order, plan, statuses, n)
      invariant Ascending(results)
    {
      var one := MB.ResultFor(plan[n], statuses[n]);
      var at := 0;
      while at < |results| && PathOrder.AtMost(results[at].decisionId, one.decisionId)
        invariant 0 <= at <= |results|
        invariant forall k | 0 <= k < at :: PathOrder.AtMost(results[k].decisionId, one.decisionId)
      {
        at := at + 1;
      }
      InsertedAscending(results, one, at);
      InsertedArranged(results, order, plan, statuses, n, at);
      results := results[..at] + [one] + results[at..];
      order := order[..at] + [n] + order[at..];
    }
  }

  predicate Ascending(results: seq<MB.AppliedResult>) {
    forall i, j | 0 <= i < j < |results| :: PathOrder.AtMost(results[i].decisionId, results[j].decisionId)
  }

  /** The first n decisions are reported, each once. */
  ghost predicate Arranged(results: seq<MB.AppliedResult>, order: seq<nat>, plan: seq<Decision>, statuses: seq<RT.Status>,
      n: nat)
    requires n <= |plan| == |statuses|
  {
    && |results| == |order|
    && (forall k | 0 <= k < |order| :: order[k] < n && results[k] == MB.ResultFor(plan[order[k]], statuses[order[k]]))
    && (forall j, k | 0 <= j < k < |order| :: order[j] != order[k])
    && (forall i: nat | i < n :: i in order)
  }

  lemma {:induction false} InsertedAscending(results: seq<MB.AppliedResult>, one: MB.AppliedResult, at: nat)
    requires Ascending(results) && at <= |results|
    requires forall k | 0 <= k < at :: PathOrder.AtMost(results[k].decisionId, one.decisionId)
    requires at < |results| ==> !PathOrder.AtMost(results[at].decisionId, one.decisionId)
    ensures Ascending(results[..at] + [one] + results[at..])
  {
    var r := results[..at] + [one] + results[at..];
    if at < |results| {
      PathOrder.LessTotal(results[at].decisionId, one.decisionId);
    }
    forall k | at <= k < |results| ensures PathOrder.AtMost(one.decisionId, results[k].decisionId) {
      if at < k && results[at].decisionId != results[k].decisionId {
        PathOrder.LessTransitive(one.decisionId, results[at].decisionId, results[k].decisionId);
      }
    }
    forall i, j | 0 <= i < j < |r| ensures PathOrder.AtMost(r[i].decisionId, r[j].decisionId) {
      assert r[i] == if i < at then results[i] else if i == at then one else results[i - 1];
      assert r[j] == if j < at then results[j] else if j == at then one else results[j - 1];
    }
  }

  lemma {:induction false} InsertedArranged(
    results: seq<MB.AppliedResult>, order: seq<nat>, plan: seq<Decision>, statuses: seq<RT.Status>, n: nat, at: nat)
    requires n < |plan| == |statuses| && Arranged(results, order, plan, statuses, n) && at <= |results|
    ensures Arranged(results[..at] + [MB.ResultFor(plan[n], statuses[n])] + results[at..], order[..at] + [n] + order[at..],
                     plan, statuses, n + 1)
  {
    var after, r := order[..at] + [n] + order[at..], results[..at] + [MB.ResultFor(plan[n], statuses[n])] + results[at..];
    forall k | 0 <= k < |after| ensures after[k] < n + 1 && r[k] == MB.ResultFor(plan[after[k]], statuses[after[k]]) {
      assert after[k] == if k < at then order[k] else if k == at then n else order[k - 1];
    }
    InsertedOrder(order, n, at);
  }

  lemma {:induction false} InsertedOrder(order: seq<nat>, n: nat, at: nat)
    requires at <= |order| && forall k | 0 <= k < |order| :: order[k] < n
    requires forall j, k | 0 <= j < k < |order| :: order[j] != order[k]
    requires forall i: nat | i < n :: i in order
    ensures var after := order[..at] + [n] + order[at..];
            && (forall j, k | 0 <= j < k < |after| :: after[j] != after[k])
            && (forall i: nat | i < n + 1 :: i in after)
  {
    var after := order[..at] + [n] + order[at..];
    assert order == order[..at] + order[at..];
    assert forall k | 0 <= k < |after| :: after[k] == if k < at then order[k] else if k == at then n else order[k - 1];
    InsertedCovers(order, n, at);
  }

  lemma {:induction false} InsertedCovers(order: seq<nat>, n: nat, at: nat)
    requires at <= |order| && forall i: nat | i < n :: i in order
    ensures forall i: nat | i < n + 1 :: i in order[..at] + [n] + order[at..]
  {
    var after := order[..at] + [n] + order[at..];
    assert after[at] == n;
    forall i: nat | i < n ensures i in after {
      assert i in order;
      var k :| 0 <= k < |order| && order[k] == i;
      assert after[if k < at then k else k + 1] == i;
    }
  }
}
