/**
 * What a reader of the published gauges can rely on. Every statement here is about any gauges
 * that agree with a cache, which is what each collector operation leaves behind.
 */
module Totals {
  import opened Wrappers
  import opened Workflows
  import opened Metrics
  import opened Readings
  import opened Sums

  function Shown(g: Gauges, s: Series): int { if s in g then g[s] else 0 }

  /** A query selector: one gauge vector, with the labels it fixes. */
  datatype Selector =
    | CountOf(ns: Option<string>)
    | TotalOf(ns: Option<string>, phases: Option<set<string>>)
    | StatusPhaseOf(namespace: string, phase: string)
    | NodePhaseOf(namespace: string, name: string)
  {
    predicate Matches(s: Series)
    {
      match this
      case CountOf(ns) => s.Count? && (ns.Some? ==> s.namespace == ns.value)
      case TotalOf(ns, phases) =>
        s.StatusTotal? && (ns.Some? ==> s.namespace == ns.value) && (phases.Some? ==> s.phase in phases.value)
      case StatusPhaseOf(ns, phase) => s.StatusPhase? && s.namespace == ns && s.phase == phase
      case NodePhaseOf(ns, name) => s.NodePhase? && s.namespace == ns && s.name == name
    }
  }

  ghost function Selected(g: Gauges, sel: Selector): set<Series>
  {
    set s | s in g && sel.Matches(s)
  }

  /** The query sum(vector{labels}). */
  ghost function SumOf(g: Gauges, sel: Selector): int
  {
    Sum(Selected(g, sel), s => Shown(g, s))
  }

  /** The aggregate series a workflow is counted in. */
  function CountedAs(sel: Selector, wf: Workflow): Series
  {
    if sel.CountOf? then Count(wf.namespace) else StatusTotal(wf.namespace, wf.phase)
  }

  /** The cached workflows a selector over the aggregates speaks of. */
  ghost function Population(cache: Cache, sel: Selector): set<string>
  {
    set k | k in cache && sel.Matches(CountedAs(sel, cache[k]))
  }

  lemma AggregateReading(g: Gauges, cache: Cache, s: Series)
    requires AggregatesAgree(g, cache) && s.Aggregate()
    ensures s in g <==> Shown(g, s) != 0
    ensures s.Count? ==> Shown(g, s) == |InNamespace(cache, s.namespace)|
    ensures s.StatusTotal? ==> Shown(g, s) == |InNamespacePhase(cache, s.namespace, s.phase)|
  {}

  /** Any sum over the aggregates is a head count of the cached workflows it selects. */
  lemma SumCountsWorkflows(g: Gauges, cache: Cache, sel: Selector)
    requires AggregatesAgree(g, cache) && (sel.CountOf? || sel.TotalOf?)
    ensures SumOf(g, sel) == |Population(cache, sel)|
  {
    var f := (k: string) => if k in cache then CountedAs(sel, cache[k]) else Count("");
    var people := Population(cache, sel);
    var series := Selected(g, sel);
    forall s | s in series ensures Shown(g, s) == |Class(people, f, s)| {
      AggregateReading(g, cache, s);
      if s.Count? {
        assert Class(people, f, s) == InNamespace(cache, s.namespace);
      } else {
        assert Class(people, f, s) == InNamespacePhase(cache, s.namespace, s.phase);
      }
    }
    forall k | k in people ensures f(k) in series {
      var s := f(k);
      AggregateReading(g, cache, s);
      if s.Count? {
        assert k in InNamespace(cache, s.namespace);
      } else {
        assert k in InNamespacePhase(cache, s.namespace, s.phase);
      }
    }
    CountByClass(people, f, series, s => Shown(g, s));
  }

  /** Conservation: the phase totals of a namespace add up to its count, and the counts to the cache. */
  lemma Conservation(g: Gauges, cache: Cache, ns: string)
    requires AggregatesAgree(g, cache)
    ensures SumOf(g, TotalOf(Some(ns), None)) == Shown(g, Count(ns))
    ensures SumOf(g, CountOf(None)) == |cache|
    ensures SumOf(g, TotalOf(None, None)) == |cache|
  {
    SumCountsWorkflows(g, cache, TotalOf(Some(ns), None));
    AggregateReading(g, cache, Count(ns));
    assert Population(cache, TotalOf(Some(ns), None)) == InNamespace(cache, ns);
    SumCountsWorkflows(g, cache, CountOf(None));
    assert Population(cache, CountOf(None)) == cache.Keys;
    SumCountsWorkflows(g, cache, TotalOf(None, None));
    assert Population(cache, TotalOf(None, None)) == cache.Keys;
  }

  const FAILURES: set<string> := {"Failed", "Error"}

  /** The query sum(vector{labels}) of the rules: over no series at all it has no result. */
  ghost function SumQuery(g: Gauges, sel: Selector): Option<int>
  {
    if Selected(g, sel) == {} then None else Some(SumOf(g, sel))
  }

  /**
   * The recording rules' failure ratio: failed and errored over the count, at least 1. A quotient has a
   * result only where both operands have one.
   */
  ghost function FailureRatio(g: Gauges, ns: Option<string>): Option<real>
  {
    var failures, count := SumQuery(g, TotalOf(ns, Some(FAILURES))), SumQuery(g, CountOf(ns));
    if failures.None? || count.None? then None
    else Some(failures.value as real / (if count.value < 1 then 1 else count.value) as real)
  }

  /** The workflows of a namespace, or of the cluster, that failed or errored. */
  ghost function FailedIn(cache: Cache, ns: Option<string>): set<string>
  {
    set k | k in cache && (ns.Some? ==> cache[k].namespace == ns.value)
            && (cache[k].phase == "Failed" || cache[k].phase == "Error")
  }

  ghost function AllIn(cache: Cache, ns: Option<string>): set<string>
  {
    set k | k in cache && (ns.Some? ==> cache[k].namespace == ns.value)
  }

  /** Over the aggregates, a query has a result exactly when it selects some cached workflow. */
  lemma QueryCountsWorkflows(g: Gauges, cache: Cache, sel: Selector)
    requires AggregatesAgree(g, cache) && (sel.CountOf? || sel.TotalOf?)
    ensures SumQuery(g, sel) == if Population(cache, sel) == {} then None else Some(|Population(cache, sel)|)
  {
    SumCountsWorkflows(g, cache, sel);
    if s :| s in Selected(g, sel) {
      AggregateReading(g, cache, s);
      var people := if s.Count? then InNamespace(cache, s.namespace) else InNamespacePhase(cache, s.namespace, s.phase);
      var k :| k in people;
      assert CountedAs(sel, cache[k]) == s && k in Population(cache, sel);
    }
    assert Selected(g, sel) == {} ==> SumOf(g, sel) == 0;
  }

  /**
   * The failure ratio of a namespace, or of the cluster, is recorded exactly when some workflow there
   * failed or errored; it is then the fraction of the workflows there that did, above 0 and at most 1.
   */
  lemma FailureRatioBounded(g: Gauges, cache: Cache, ns: Option<string>)
    requires AggregatesAgree(g, cache)
    ensures FailureRatio(g, ns).Some? <==> FailedIn(cache, ns) != {}
    ensures FailureRatio(g, ns).Some? ==>
      && |AllIn(cache, ns)| > 0
      && FailureRatio(g, ns).value == |FailedIn(cache, ns)| as real / |AllIn(cache, ns)| as real
      && 0.0 < FailureRatio(g, ns).value <= 1.0
  {
    var bad, all := FailedIn(cache, ns), AllIn(cache, ns);
    QueryCountsWorkflows(g, cache, TotalOf(ns, Some(FAILURES)));
    QueryCountsWorkflows(g, cache, CountOf(ns));
    assert Population(cache, TotalOf(ns, Some(FAILURES))) == bad && Population(cache, CountOf(ns)) == all;
    if k :| k in bad {
      assert k in all;
      SubsetSize(bad, all);
      Fraction(|bad|, |all|);
    }
  }

  lemma {:induction false} SubsetSize<T>(xs: set<T>, ys: set<T>)
    requires xs <= ys
    ensures |xs| <= |ys|
  {
    assert ys == xs + (ys - xs);
  }

  lemma Fraction(a: nat, b: nat)
    requires 0 < a <= b
    ensures 0.0 < a as real / b as real <= 1.0
  {}

  // ----- detail against aggregate -----

  lemma StatusPhaseReading(g: Gauges, cache: Cache, at: map<string, Time>, key: string, phase: string)
    requires DetailsAgree(g, cache, at) && key in cache && phase in PHASES
    ensures var s := StatusPhase(cache[key].namespace, cache[key].name, phase);
      s in g && g[s] == if cache[key].phase == phase then 1 else 0
  {
    var s := StatusPhase(cache[key].namespace, cache[key].name, phase);
    assert Lookup(g, s) == Reading(s, cache, at, true);
  }

  lemma StatusPhaseHasOwner(g: Gauges, cache: Cache, at: map<string, Time>, s: Series)
    requires DetailsAgree(g, cache, at) && s in g && s.StatusPhase?
    ensures var key := Key(s.namespace, s.name);
      key in cache && cache[key].namespace == s.namespace && cache[key].name == s.name && s.phase in PHASES
  {
    assert Lookup(g, s) == Reading(s, cache, at, true);
  }

  /** For each listed phase the per-workflow indicator adds up to the namespace total. */
  lemma StatusPhaseSumsToTotal(g: Gauges, cache: Cache, at: map<string, Time>, ns: string, phase: string)
    requires Agrees(g, cache, at, true) && phase in PHASES
    ensures SumOf(g, StatusPhaseOf(ns, phase)) == Shown(g, StatusTotal(ns, phase))
  {
    var keys := InNamespace(cache, ns);
    var series := Selected(g, StatusPhaseOf(ns, phase));
    var f := (k: string) => if k in cache then StatusPhase(ns, cache[k].name, phase) else Count("");
    var here := (k: string) => if k in InNamespacePhase(cache, ns, phase) then 1 else 0;
    forall k | k in keys ensures f(k) in series && here(k) == Shown(g, f(k)) {
      StatusPhaseReading(g, cache, at, k, phase);
    }
    forall k, l | k in keys && l in keys && f(k) == f(l) ensures k == l {
      assert k == Key(ns, cache[k].name) && l == Key(ns, cache[l].name);
    }
    forall s | s in series ensures exists k :: k in keys && f(k) == s {
      StatusPhaseHasOwner(g, cache, at, s);
      assert f(Key(s.namespace, s.name)) == s;
    }
    SumImage(keys, series, f, s => Shown(g, s), here);
    SumIndicator(keys, here);
    assert Class(keys, here, 1) == InNamespacePhase(cache, ns, phase);
    AggregateReading(g, cache, StatusTotal(ns, phase));
  }

  /** The node total of a workflow is the sum of its node phases; both exist, or neither does. */
  lemma NodeTotalsAgree(g: Gauges, cache: Cache, at: map<string, Time>, key: string)
    requires DetailsAgree(g, cache, at) && key in cache
    ensures var wf := cache[key];
      && SumOf(g, NodePhaseOf(wf.namespace, wf.name)) == Shown(g, NodeTotal(wf.namespace, wf.name))
      && (NodeTotal(wf.namespace, wf.name) in g <==> wf.nodes.Some?)
      && (wf.nodes.None? ==> Selected(g, NodePhaseOf(wf.namespace, wf.name)) == {})
  {
    var wf := cache[key];
    var sel := NodePhaseOf(wf.namespace, wf.name);
    assert Lookup(g, NodeTotal(wf.namespace, wf.name)) ==
      Reading(NodeTotal(wf.namespace, wf.name), cache, at, true);
    forall s | s in Selected(g, sel) ensures wf.nodes.Some? && s.phase in wf.nodes.value.Values {
      assert Lookup(g, s) == Reading(s, cache, at, true);
    }
    if wf.nodes.Some? {
      NodePhasesPartition(g, cache, at, key, wf, wf.nodes.value);
    }
  }

  lemma NodePhasesPartition(g: Gauges, cache: Cache, at: map<string, Time>, key: string, wf: Workflow,
                            nodes: map<string, string>)
    requires DetailsAgree(g, cache, at) && key in cache && cache[key] == wf && wf.nodes == Some(nodes)
    ensures SumOf(g, NodePhaseOf(wf.namespace, wf.name)) == |nodes|
  {
    var series := Selected(g, NodePhaseOf(wf.namespace, wf.name));
    var f := (n: string) => NodePhase(wf.namespace, wf.name, if n in nodes then nodes[n] else "");
    forall s | s in series ensures Shown(g, s) == |Class(nodes.Keys, f, s)| {
      assert Lookup(g, s) == Reading(s, cache, at, true);
      assert Class(nodes.Keys, f, s) == InPhase(nodes, s.phase);
    }
    forall n | n in nodes.Keys ensures f(n) in series {
      assert nodes[n] in nodes.Values;
      assert Lookup(g, f(n)) == Reading(f(n), cache, at, true);
    }
    CountByClass(nodes.Keys, f, series, s => Shown(g, s));
  }

  // ----- no history in the gauges -----

  /**
   * The cache and the collection times determine the gauges, so neither the operations that led
   * there nor the order in which maps were walked can be seen in them.
   */
  lemma HistoryIndependence(g: Gauges, h: Gauges, cache: Cache, at: map<string, Time>, details: bool)
    requires Agrees(g, cache, at, details) && Agrees(h, cache, at, details)
    ensures g == h
  {
    forall s: Series ensures Lookup(g, s) == Lookup(h, s) {
      assert s.Aggregate() ==> Lookup(g, s) == Reading(s, cache, map[], false);
    }
    SameReadings(g, h);
  }

  /** Aggregates published with details on and off are the same, and off owns no detail series. */
  lemma DetailsUnobservable(on: Gauges, off: Gauges, cache: Cache, at: map<string, Time>, other: map<string, Time>)
    requires Agrees(on, cache, at, true) && Agrees(off, cache, other, false)
    ensures SameAggregates(on, off)
    ensures forall s :: s in off ==> s.Aggregate()
    ensures off == map s | s in on && s.Aggregate() :: on[s]
  {}

  /** Collecting and then deleting a workflow with no series of its own leaves the registry as it was. */
  lemma DeleteUndoesCollect(g: Gauges, collected: Gauges, deleted: Gauges, wf: Workflow, now: Time)
    requires forall s: Series :: s.Owned(wf.namespace, wf.name) ==> s !in g
    requires Collected(g, collected, wf, now) && Deleted(collected, deleted, wf)
    ensures deleted == g
    ensures forall s: Series :: !s.Owned(wf.namespace, wf.name) ==> Lookup(collected, s) == Lookup(g, s)
  {
    forall s ensures Lookup(deleted, s) == Lookup(g, s) {
      FootprintCovers(s, wf, now);
      assert Lookup(collected, s) ==
        if DetailReading(s, wf, now).Some? then DetailReading(s, wf, now) else Lookup(g, s);
      if InFootprint(s, wf) {
        assert s.Owned(wf.namespace, wf.name);
      }
    }
    SameReadings(deleted, g);
    forall s: Series | !s.Owned(wf.namespace, wf.name) ensures Lookup(collected, s) == Lookup(g, s) {
      assert DetailReading(s, wf, now).None?;
    }
  }
}
