/** Whole runs of collector operations, on the collector itself. */
module WorkflowRuns {
  import opened Wrappers
  import opened Workflows
  import opened Metrics
  import opened Readings
  import opened Operations
  import opened WorkflowCollecting
  import opened MetricsPage
  import Totals

  method Perform(c: WorkflowCollector, op: Operation, clock: Clock)
    requires c.Valid()
    modifies c, c.registry
    ensures c.Valid() && c.workflows == Apply(old(c.workflows), op)
    ensures c.collectDetails ==> c.collectedAt == Stamped(old(c.collectedAt), op, clock)
  {
    match op
    case Add(wf) => c.AddWorkflow(wf, clock);
    case Delete(wf) => c.DeleteWorkflow(wf);
    case Replace(wfs) => c.ReplaceWorkflows(wfs, clock);
  }

  /**
   * After any run of operations the gauges agree with the cache the operations define, each workflow
   * collected at the reading of the clock in the last operation that brought it.
   */
  method PerformAll(c: WorkflowCollector, ops: seq<Operation>, clocks: seq<Clock>)
    requires c.Valid() && |clocks| == |ops|
    modifies c, c.registry
    ensures c.Valid() && c.workflows == ApplyAll(old(c.workflows), ops)
    ensures c.collectDetails ==> c.collectedAt == StampedAll(old(c.collectedAt), ops, clocks)
    ensures c.collectDetails ==>
      forall k :: k in c.workflows ==> Shows(c.registry.gauges, c.workflows[k], c.collectedAt[k])
  {
    for i := 0 to |ops|
      invariant c.Valid() && c.workflows == ApplyAll(old(c.workflows), ops[..i])
      invariant c.collectDetails ==> c.collectedAt == StampedAll(old(c.collectedAt), ops[..i], clocks[..i])
    {
      assert ops[..i + 1][..i] == ops[..i] && clocks[..i + 1][..i] == clocks[..i];
      Perform(c, ops[i], clocks[i]);
    }
    assert ops[..|ops|] == ops && clocks[..|ops|] == clocks;
    if c.collectDetails {
      forall k | k in c.workflows ensures Shows(c.registry.gauges, c.workflows[k], c.collectedAt[k]) {
        CachedAreShown(c.registry.gauges, c.workflows, c.collectedAt, k);
      }
    }
  }

  /** Two collectors that differ only in the detail flag, fed the same run, publish the same aggregates. */
  method PerformTwice(on: WorkflowCollector, off: WorkflowCollector, ops: seq<Operation>, clocks: seq<Clock>)
    requires on.Valid() && off.Valid() && on != off && on.registry != off.registry && |clocks| == |ops|
    requires on.collectDetails && !off.collectDetails && on.workflows == off.workflows
    modifies on, on.registry, off, off.registry
    ensures on.Valid() && off.Valid() && on.workflows == off.workflows
    ensures SameAggregates(on.registry.gauges, off.registry.gauges)
    ensures forall s :: s in off.registry.gauges ==> s.Aggregate()
  {
    PerformAll(on, ops, clocks);
    PerformAll(off, ops, clocks);
    Totals.DetailsUnobservable(on.registry.gauges, off.registry.gauges, on.workflows, on.collectedAt, off.collectedAt);
  }

  /**
   * A fresh collector that is handed the contents of an old one's cache, in any order and at the same
   * clock readings, publishes the same gauges; without details the clock does not matter.
   */
  method Rebuild(c: WorkflowCollector, contents: seq<Option<Workflow>>, clock: Clock)
    returns (rebuilt: WorkflowCollector)
    requires c.Valid() && Filed(contents) == c.workflows
    requires c.collectDetails ==> forall k :: k in c.collectedAt ==> clock(k) == c.collectedAt[k]
    ensures fresh(rebuilt) && fresh(rebuilt.registry) && rebuilt.Valid() && rebuilt.collectDetails == c.collectDetails
    ensures rebuilt.workflows == c.workflows && rebuilt.registry.gauges == c.registry.gauges
  {
    var registry := new Registry();
    rebuilt := new WorkflowCollector(c.collectDetails, registry);
    rebuilt.ReplaceWorkflows(contents, clock);
    Totals.HistoryIndependence(rebuilt.registry.gauges, c.registry.gauges, c.workflows, c.collectedAt, c.collectDetails);
  }

  /**
   * No history in the gauges: a collector that has gone through a whole run, and a fresh one that is
   * handed the resulting cache, in any order, at the clock readings of the run, publish the same gauges.
   */
  method RunAndRebuild(details: bool, ops: seq<Operation>, clocks: seq<Clock>, contents: seq<Option<Workflow>>,
                       clock: Clock)
    returns (ran: WorkflowCollector, rebuilt: WorkflowCollector)
    requires |clocks| == |ops| && Filed(contents) == ApplyAll(map[], ops)
    requires var at := StampedAll(map[], ops, clocks); forall k :: k in at ==> clock(k) == at[k]
    ensures fresh(ran) && fresh(rebuilt) && ran.Valid() && rebuilt.Valid()
    ensures ran.collectDetails == rebuilt.collectDetails == details
    ensures ran.workflows == rebuilt.workflows == ApplyAll(map[], ops)
    ensures ran.registry.gauges == rebuilt.registry.gauges
  {
    var registry := new Registry();
    ran := new WorkflowCollector(details, registry);
    PerformAll(ran, ops, clocks);
    rebuilt := Rebuild(ran, contents, clock);
  }
}
