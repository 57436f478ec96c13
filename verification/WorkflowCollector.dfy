/** The workflow collector: a cache of live workflows and the gauges kept in step with it. */
module WorkflowCollecting {
  import opened Wrappers
  import opened Workflows
  import opened Metrics
  import opened Readings
  import opened Operations
  import opened MetricsPage

  class WorkflowCollector {
    const registry: Registry
    const collectDetails: bool
    var workflows: Cache
    var lastNamespaces: set<string>
    var lastNamespacePhases: map<string, set<string>>
    ghost var collectedAt: map<string, Time>  // the clock reading each cached workflow was collected at

    ghost predicate Valid()
      reads this, registry
    {
      && Agrees(registry.gauges, workflows, collectedAt, collectDetails)
      && lastNamespaces == Namespaces(workflows)
      && lastNamespacePhases == PhaseDomains(workflows)
    }

    constructor (collectDetails: bool, registry: Registry)
      requires registry.gauges == map[]
      ensures Valid() && workflows == map[] && collectedAt == map[]
      ensures this.registry == registry && this.collectDetails == collectDetails
    {
      this.registry := registry;
      this.collectDetails := collectDetails;
      workflows, lastNamespaces, lastNamespacePhases := map[], {}, map[];
      collectedAt := map[];
    }

    method AddWorkflow(wf: Option<Workflow>, clock: Clock)
      requires Valid()
      modifies this, registry
      ensures Valid()
      ensures wf.None? ==> workflows == old(workflows) && collectedAt == old(collectedAt)
      ensures wf.Some? ==> workflows == old(workflows)[KeyOf(wf.value) := wf.value]
      ensures wf.Some? && !collectDetails ==> collectedAt == old(collectedAt)
      ensures wf.Some? && collectDetails ==>
        && collectedAt == old(collectedAt)[KeyOf(wf.value) := clock(KeyOf(wf.value))]
        && Shows(registry.gauges, wf.value, clock(KeyOf(wf.value)))
    {
      if wf.None? { return; }
      var key := KeyOf(wf.value);
      var previous := if key in workflows then Some(workflows[key]) else None;
      workflows := workflows[key := wf.value];

      if !collectDetails {
        UpdateAggregatedMetrics(old(workflows));
        AgreesAgain(old(registry.gauges), registry.gauges, workflows, collectedAt, false);
        return;
      }

      if previous.Some? {
        DeleteWorkflowSeries(previous.value);
      }
      DisplacedAgrees(old(registry.gauges), registry.gauges, key, old(workflows), collectedAt);
      ghost var others, at := old(workflows) - {key}, collectedAt - {key};
      assert workflows == others[key := wf.value] && at[key := clock(key)] == collectedAt[key := clock(key)];
      StillAgrees(old(registry.gauges), registry.gauges, old(workflows));
      CollectWorkflowMetrics(wf.value, clock(key), others, at, old(workflows));
      CachedAreShown(registry.gauges, workflows, collectedAt, key);
    }

    /** Publishes one workflow on top of the others, then the totals. */
    method CollectWorkflowMetrics(wf: Workflow, now: Time, ghost others: Cache, ghost at: map<string, Time>,
                                  ghost was: Cache)
      requires collectDetails && DetailsAgree(registry.gauges, others, at)
      requires KeyOf(wf) !in others && workflows == others[KeyOf(wf) := wf]
      requires AggregatesAgree(registry.gauges, was)
      requires lastNamespaces == Namespaces(was) && lastNamespacePhases == PhaseDomains(was)
      modifies registry, this`lastNamespaces, this`lastNamespacePhases, this`collectedAt
      ensures Valid() && collectedAt == at[KeyOf(wf) := now]
    {
      ghost var before := registry.gauges;
      CollectWorkflowSeries(wf, now);
      CollectedAgrees(before, registry.gauges, wf, now, others, at);
      StillAgrees(before, registry.gauges, was);
      collectedAt := at[KeyOf(wf) := now];
      ghost var collected := registry.gauges;
      UpdateAggregatedMetrics(was);
      AgreesAgain(collected, registry.gauges, workflows, collectedAt, true);
    }

    method DeleteWorkflow(wf: Option<Workflow>)
      requires Valid()
      modifies this, registry
      ensures Valid()
      ensures wf.None? ==> workflows == old(workflows) && collectedAt == old(collectedAt)
      ensures wf.Some? ==> workflows == old(workflows) - {KeyOf(wf.value)}
      ensures wf.Some? ==>
        collectedAt == if collectDetails then old(collectedAt) - {KeyOf(wf.value)} else old(collectedAt)
    {
      if wf.None? { return; }
      var key := KeyOf(wf.value);
      var cached := if key in workflows then Some(workflows[key]) else None;
      workflows := workflows - {key};
      var target := if cached.Some? then cached.value else wf.value;
      if collectDetails {
        ghost var before := registry.gauges;
        DeleteWorkflowSeries(target);
        DeletedAgrees(before, registry.gauges, target, old(workflows), collectedAt);
        collectedAt := collectedAt - {key};
        StillAgrees(before, registry.gauges, old(workflows));
      }
      ghost var purged := registry.gauges;
      UpdateAggregatedMetrics(old(workflows));
      AgreesAgain(purged, registry.gauges, workflows, collectedAt, collectDetails);
    }

    method ReplaceWorkflows(wfs: seq<Option<Workflow>>, clock: Clock)
      requires Valid()
      modifies this, registry
      ensures Valid() && workflows == Filed(wfs)
      ensures !collectDetails ==> collectedAt == old(collectedAt)
      ensures collectDetails ==>
        && collectedAt == (map k | k in workflows :: clock(k))
        && forall k :: k in workflows ==> Shows(registry.gauges, workflows[k], clock(k))
    {
      var next: Cache := map[];
      for i := 0 to |wfs|
        invariant next == Filed(wfs[..i]) && WellKeyed(next)
      {
        assert wfs[..i + 1][..i] == wfs[..i];
        if wfs[i].None? { continue; }
        next := next[KeyOf(wfs[i].value) := wfs[i].value];
      }
      assert wfs[..|wfs|] == wfs;

      var previous := workflows;
      workflows := next;

      if collectDetails {
        DeleteAll(previous, collectedAt);
        CollectAll(next, clock);
        StillAgrees(old(registry.gauges), registry.gauges, old(workflows));
      }
      ghost var rebuilt := registry.gauges;
      UpdateAggregatedMetrics(old(workflows));
      AgreesAgain(rebuilt, registry.gauges, workflows, collectedAt, collectDetails);
      if collectDetails {
        forall k | k in workflows ensures Shows(registry.gauges, workflows[k], clock(k)) {
          CachedAreShown(registry.gauges, workflows, collectedAt, k);
        }
      }
    }

    /** Deletes the series of every workflow of the previous cache, in any order. */
    method DeleteAll(previous: Cache, ghost at: map<string, Time>)
      requires DetailsAgree(registry.gauges, previous, at)
      modifies registry
      ensures DetailsAgree(registry.gauges, map[], map[])
      ensures SameAggregates(old(registry.gauges), registry.gauges)
    {
      var todo := previous.Keys;
      ghost var left, leftAt := previous, at;
      while todo != {}
        invariant left.Keys == todo && (forall k :: k in left ==> k in previous && left[k] == previous[k])
        invariant DetailsAgree(registry.gauges, left, leftAt)
        invariant SameAggregates(old(registry.gauges), registry.gauges)
        decreases todo
      {
        var k :| k in todo;
        todo := todo - {k};
        ghost var before := registry.gauges;
        DeleteWorkflowSeries(previous[k]);
        DeletedAgrees(before, registry.gauges, previous[k], left, leftAt);
        left, leftAt := left - {k}, leftAt - {k};
      }
      assert left == map[] && leftAt == map[];
    }

    /** Publishes the series of every workflow of the next cache, in any order. */
    method CollectAll(next: Cache, clock: Clock)
      requires DetailsAgree(registry.gauges, map[], map[]) && WellKeyed(next)
      modifies registry, this`collectedAt
      ensures DetailsAgree(registry.gauges, next, collectedAt) && collectedAt == map k | k in next :: clock(k)
      ensures SameAggregates(old(registry.gauges), registry.gauges)
    {
      var todo := next.Keys;
      collectedAt := map[];
      assert next - todo == map[];
      while todo != {}
        invariant todo <= next.Keys
        invariant DetailsAgree(registry.gauges, next - todo, collectedAt)
        invariant forall k :: k in collectedAt ==> collectedAt[k] == clock(k)
        invariant SameAggregates(old(registry.gauges), registry.gauges)
        decreases todo
      {
        var k :| k in todo;
        DoneOneMore(next, todo, k);
        ghost var before := registry.gauges;
        CollectWorkflowSeries(next[k], clock(k));
        CollectedAgrees(before, registry.gauges, next[k], clock(k), next - todo, collectedAt);
        collectedAt := collectedAt[k := clock(k)];
        todo := todo - {k};
      }
      assert next - todo == next;
    }

    /** Publishes the detail series of one workflow; `now` is what time.Since reads from the clock. */
    method CollectWorkflowSeries(wf: Workflow, now: Time)
      modifies registry
      ensures Collected(old(registry.gauges), registry.gauges, wf, now)
      ensures (forall s: Series :: s.Owned(wf.namespace, wf.name) ==> s !in old(registry.gauges)) ==>
        Shows(registry.gauges, wf, now)
    {
      ghost var g0 := registry.gauges;
      CollectStatusPhases(wf, now);
      ghost var g1 := registry.gauges;
      CollectInfo(wf, now);
      ghost var g2 := registry.gauges;
      CollectedJoin(g0, g1, g2, wf, now, 0, 1, 2);
      CollectTimes(wf, now);
      ghost var g3 := registry.gauges;
      CollectedJoin(g0, g2, g3, wf, now, 0, 2, 5);
      CollectDuration(wf, now);
      ghost var g4 := registry.gauges;
      CollectedJoin(g0, g3, g4, wf, now, 0, 5, 6);
      CollectNodeMetrics(wf, now);
      CollectedJoin(g0, g4, registry.gauges, wf, now, 0, 6, 8);
      if forall s: Series :: s.Owned(wf.namespace, wf.name) ==> s !in old(registry.gauges) {
        CollectedIsShown(g0, registry.gauges, wf, now);
      }
    }

    method CollectStatusPhases(wf: Workflow, ghost now: Time)
      modifies registry
      ensures CollectedPart(old(registry.gauges), registry.gauges, wf, now, 0, 1)
    {
      for i := 0 to |PHASES|
        invariant forall s ::
          Lookup(registry.gauges, s) ==
          if s.StatusPhase? && s.Owned(wf.namespace, wf.name) && s.phase in PHASES[..i]
          then DetailReading(s, wf, now) else Lookup(old(registry.gauges), s)
      {
        var value := 0;
        if PHASES[i] == wf.phase {
          value := 1;
        }
        registry.Set(StatusPhase(wf.namespace, wf.name, PHASES[i]), value);
        assert PHASES[..i + 1] == PHASES[..i] + [PHASES[i]];
      }
      assert PHASES[..|PHASES|] == PHASES;
    }

    method CollectInfo(wf: Workflow, ghost now: Time)
      modifies registry
      ensures CollectedPart(old(registry.gauges), registry.gauges, wf, now, 1, 2)
    {
      registry.Set(Info(wf.namespace, wf.name, wf.uid, ServiceAccountLabel(wf), PriorityLabel(wf)), 1);
    }

    method CollectTimes(wf: Workflow, ghost now: Time)
      modifies registry
      ensures CollectedPart(old(registry.gauges), registry.gauges, wf, now, 2, 5)
    {
      if wf.created.Some? {
        registry.Set(CreatedTime(wf.namespace, wf.name), Unix(wf.created.value));
      }
      assert CollectedPart(old(registry.gauges), registry.gauges, wf, now, 2, 3);
      label created:
      if wf.started.Some? {
        registry.Set(StartedTime(wf.namespace, wf.name), Unix(wf.started.value));
      }
      assert CollectedPart(old@created(registry.gauges), registry.gauges, wf, now, 3, 4);
      label started:
      if wf.finished.Some? {
        registry.Set(FinishedTime(wf.namespace, wf.name), Unix(wf.finished.value));
      }
      assert CollectedPart(old@started(registry.gauges), registry.gauges, wf, now, 4, 5);
      CollectedJoin(old@created(registry.gauges), old@started(registry.gauges), registry.gauges, wf, now, 3, 4, 5);
      CollectedJoin(old(registry.gauges), old@created(registry.gauges), registry.gauges, wf, now, 2, 3, 5);
    }

    method CollectDuration(wf: Workflow, now: Time)
      modifies registry
      ensures CollectedPart(old(registry.gauges), registry.gauges, wf, now, 5, 6)
      ensures DurationSeconds(wf.namespace, wf.name, wf.phase) !in old(registry.gauges) ==>
        ShowsDuration(registry.gauges, wf, now)
    {
      if wf.started.Some? {
        var duration := 0;
        if wf.finished.Some? {
          duration := Sub(wf.finished.value, wf.started.value);
        } else if wf.phase == "Running" {
          duration := Sub(now, wf.started.value);
        }
        if duration > 0 {
          registry.Set(DurationSeconds(wf.namespace, wf.name, wf.phase), duration);
        }
      }
    }

    method CollectNodeMetrics(wf: Workflow, ghost now: Time)
      modifies registry
      ensures CollectedPart(old(registry.gauges), registry.gauges, wf, now, 6, 8)
    {
      if wf.nodes.None? { return; }
      var nodes := wf.nodes.value;
      registry.Set(NodeTotal(wf.namespace, wf.name), |nodes|);
      assert CollectedPart(old(registry.gauges), registry.gauges, wf, now, 6, 7);
      ghost var total := registry.gauges;
      var nodePhaseCount := CountNodePhases(nodes);
      PublishNodePhases(wf, nodePhaseCount);
      assert CollectedPart(total, registry.gauges, wf, now, 7, 8);
      CollectedJoin(old(registry.gauges), total, registry.gauges, wf, now, 6, 7, 8);
    }

    method PublishNodePhases(wf: Workflow, nodePhaseCount: map<string, int>)
      modifies registry
      ensures forall s ::
        Lookup(registry.gauges, s) ==
        if s.NodePhase? && s.Owned(wf.namespace, wf.name) && s.phase in nodePhaseCount
        then Some(nodePhaseCount[s.phase]) else Lookup(old(registry.gauges), s)
    {
      var phases := nodePhaseCount.Keys;
      while phases != {}
        invariant phases <= nodePhaseCount.Keys
        invariant forall s ::
          Lookup(registry.gauges, s) ==
          if s.NodePhase? && s.Owned(wf.namespace, wf.name) && s.phase in nodePhaseCount.Keys - phases
          then Some(nodePhaseCount[s.phase]) else Lookup(old(registry.gauges), s)
        decreases phases
      {
        var phase :| phase in phases;
        registry.Set(NodePhase(wf.namespace, wf.name, phase), nodePhaseCount[phase]);
        phases := phases - {phase};
      }
    }

    /** Deletes the label sets of one workflow from every detail vector. */
    method DeleteWorkflowSeries(wf: Workflow)
      modifies registry
      ensures Deleted(old(registry.gauges), registry.gauges, wf)
    {
      ghost var g0 := registry.gauges;
      DeleteStatusPhases(wf);
      ghost var g1 := registry.gauges;
      registry.Delete(Info(wf.namespace, wf.name, wf.uid, ServiceAccountLabel(wf), PriorityLabel(wf)));
      ghost var g2 := registry.gauges;
      assert DeletedPart(g1, g2, wf, 1, 2);
      DeletedJoin(g0, g1, g2, wf, 0, 1, 2);
      DeleteTimes(wf);
      ghost var g3 := registry.gauges;
      DeletedJoin(g0, g2, g3, wf, 0, 2, 5);
      registry.Delete(DurationSeconds(wf.namespace, wf.name, wf.phase));
      ghost var g4 := registry.gauges;
      assert DeletedPart(g3, g4, wf, 5, 6);
      DeletedJoin(g0, g3, g4, wf, 0, 5, 6);
      DeleteNodeMetrics(wf);
      DeletedJoin(g0, g4, registry.gauges, wf, 0, 6, 8);
    }

    method DeleteStatusPhases(wf: Workflow)
      modifies registry
      ensures DeletedPart(old(registry.gauges), registry.gauges, wf, 0, 1)
    {
      for i := 0 to |PHASES|
        invariant forall s ::
          Lookup(registry.gauges, s) ==
          if s.StatusPhase? && s.Owned(wf.namespace, wf.name) && s.phase in PHASES[..i]
          then None else Lookup(old(registry.gauges), s)
      {
        registry.Delete(StatusPhase(wf.namespace, wf.name, PHASES[i]));
        assert PHASES[..i + 1] == PHASES[..i] + [PHASES[i]];
      }
      assert PHASES[..|PHASES|] == PHASES;
    }

    method DeleteTimes(wf: Workflow)
      modifies registry
      ensures DeletedPart(old(registry.gauges), registry.gauges, wf, 2, 5)
    {
      registry.Delete(CreatedTime(wf.namespace, wf.name));
      assert DeletedPart(old(registry.gauges), registry.gauges, wf, 2, 3);
      label created:
      registry.Delete(StartedTime(wf.namespace, wf.name));
      assert DeletedPart(old@created(registry.gauges), registry.gauges, wf, 3, 4);
      label started:
      registry.Delete(FinishedTime(wf.namespace, wf.name));
      assert DeletedPart(old@started(registry.gauges), registry.gauges, wf, 4, 5);
      DeletedJoin(old@created(registry.gauges), old@started(registry.gauges), registry.gauges, wf, 3, 4, 5);
      DeletedJoin(old(registry.gauges), old@created(registry.gauges), registry.gauges, wf, 2, 3, 5);
    }

    method DeleteNodeMetrics(wf: Workflow)
      modifies registry
      ensures DeletedPart(old(registry.gauges), registry.gauges, wf, 6, 8)
    {
      registry.Delete(NodeTotal(wf.namespace, wf.name));
      assert DeletedPart(old(registry.gauges), registry.gauges, wf, 6, 7);
      ghost var total := registry.gauges;
      if wf.nodes.Some? {
        var nodePhases := NodePhasesOf(wf.nodes.value);
        var todo := nodePhases;
        while todo != {}
          invariant todo <= nodePhases
          invariant forall s ::
            Lookup(registry.gauges, s) ==
            if s.NodePhase? && s.Owned(wf.namespace, wf.name) && s.phase in nodePhases - todo
            then None else Lookup(total, s)
          decreases todo
        {
          var phase :| phase in todo;
          registry.Delete(NodePhase(wf.namespace, wf.name, phase));
          todo := todo - {phase};
        }
      }
      assert DeletedPart(total, registry.gauges, wf, 7, 8);
      DeletedJoin(old(registry.gauges), total, registry.gauges, wf, 6, 7, 8);
    }

    /** Recounts the cache, publishes the totals and deletes the ones that went stale. */
    method UpdateAggregatedMetrics(ghost was: Cache)
      requires AggregatesAgree(registry.gauges, was)
      requires lastNamespaces == Namespaces(was) && lastNamespacePhases == PhaseDomains(was)
      modifies registry, this`lastNamespaces, this`lastNamespacePhases
      ensures AggregatesAgree(registry.gauges, workflows)
      ensures SameDetails(old(registry.gauges), registry.gauges)
      ensures lastNamespaces == Namespaces(workflows)
      ensures lastNamespacePhases == PhaseDomains(workflows)
    {
      var namespaceCounts, namespacePhaseCount, currentNamespaces, currentNamespacePhases := Tally(workflows);
      var staleNamespaces := DiffNamespaces(lastNamespaces, currentNamespaces);
      var staleNamespacePhases := DiffNamespacePhases(lastNamespacePhases, currentNamespacePhases);
      lastNamespaces := currentNamespaces;
      lastNamespacePhases := currentNamespacePhases;
      PublishCounts(namespaceCounts, staleNamespaces);
      ghost var mid := registry.gauges;
      PublishTotals(namespacePhaseCount, staleNamespacePhases);
      RecountAgrees(old(registry.gauges), mid, registry.gauges, namespaceCounts, namespacePhaseCount,
                    staleNamespaces, staleNamespacePhases, workflows, was);
    }

    method PublishCounts(counts: map<string, int>, stale: set<string>)
      requires stale !! counts.Keys
      modifies registry
      ensures CountsPublished(old(registry.gauges), registry.gauges, counts, stale)
    {
      var todo := counts.Keys;
      while todo != {}
        invariant todo <= counts.Keys
        invariant forall s ::
          Lookup(registry.gauges, s) ==
          if s.Count? && s.namespace in counts.Keys - todo then Some(counts[s.namespace])
          else Lookup(old(registry.gauges), s)
        decreases todo
      {
        var ns :| ns in todo;
        registry.Set(Count(ns), counts[ns]);
        todo := todo - {ns};
      }
      todo := stale;
      label counted:
      while todo != {}
        invariant todo <= stale
        invariant forall s ::
          Lookup(registry.gauges, s) ==
          if s.Count? && s.namespace in stale - todo then None
          else Lookup(old@counted(registry.gauges), s)
        decreases todo
      {
        var ns :| ns in todo;
        registry.Delete(Count(ns));
        todo := todo - {ns};
      }
    }

    method PublishTotals(counts: map<string, map<string, int>>, stale: map<string, set<string>>)
      requires forall ns, p :: ns in counts && p in counts[ns] ==> !Has(stale, ns, p)
      modifies registry
      ensures TotalsPublished(old(registry.gauges), registry.gauges, counts, stale)
    {
      var todo := counts.Keys;
      while todo != {}
        invariant todo <= counts.Keys
        invariant forall s ::
          Lookup(registry.gauges, s) ==
          if s.StatusTotal? && s.namespace in counts.Keys - todo && s.phase in counts[s.namespace]
          then Some(counts[s.namespace][s.phase]) else Lookup(old(registry.gauges), s)
        decreases todo
      {
        var ns :| ns in todo;
        todo := todo - {ns};
        PublishPhases(ns, counts[ns]);
      }
      todo := stale.Keys;
      label counted:
      while todo != {}
        invariant todo <= stale.Keys
        invariant forall s ::
          Lookup(registry.gauges, s) ==
          if s.StatusTotal? && s.namespace in stale.Keys - todo && s.phase in stale[s.namespace]
          then None else Lookup(old@counted(registry.gauges), s)
        decreases todo
      {
        var ns :| ns in todo;
        todo := todo - {ns};
        DeletePhases(ns, stale[ns]);
      }
    }

    method PublishPhases(ns: string, counts: map<string, int>)
      modifies registry
      ensures forall s ::
        Lookup(registry.gauges, s) ==
        if s.StatusTotal? && s.namespace == ns && s.phase in counts then Some(counts[s.phase])
        else Lookup(old(registry.gauges), s)
    {
      var todo := counts.Keys;
      while todo != {}
        invariant todo <= counts.Keys
        invariant forall s ::
          Lookup(registry.gauges, s) ==
          if s.StatusTotal? && s.namespace == ns && s.phase in counts.Keys - todo then Some(counts[s.phase])
          else Lookup(old(registry.gauges), s)
        decreases todo
      {
        var p :| p in todo;
        registry.Set(StatusTotal(ns, p), counts[p]);
        todo := todo - {p};
      }
    }

    method DeletePhases(ns: string, phases: set<string>)
      modifies registry
      ensures forall s ::
        Lookup(registry.gauges, s) ==
        if s.StatusTotal? && s.namespace == ns && s.phase in phases then None
        else Lookup(old(registry.gauges), s)
    {
      var todo := phases;
      while todo != {}
        invariant todo <= phases
        invariant forall s ::
          Lookup(registry.gauges, s) ==
          if s.StatusTotal? && s.namespace == ns && s.phase in phases - todo then None
          else Lookup(old(registry.gauges), s)
        decreases todo
      {
        var p :| p in todo;
        registry.Delete(StatusTotal(ns, p));
        todo := todo - {p};
      }
    }
  }

  /** The counting loop over the cache. */
  method Tally(workflows: Cache) returns (counts: map<string, int>, phaseCounts: map<string, map<string, int>>,
                                          namespaces: set<string>, phases: map<string, set<string>>)
    ensures Tallied(workflows, counts, phaseCounts)
    ensures namespaces == Namespaces(workflows) && phases == PhaseDomains(workflows)
  {
    counts, phaseCounts, namespaces, phases := map[], map[], {}, map[];
    var todo := workflows.Keys;
    assert workflows - todo == map[];
    while todo != {}
      invariant todo <= workflows.Keys
      invariant Tallied(workflows - todo, counts, phaseCounts)
      invariant namespaces == Namespaces(workflows - todo) && phases == PhaseDomains(workflows - todo)
      decreases todo
    {
      var k :| k in todo;
      var wf := workflows[k];
      var phaseCount := if wf.namespace in phaseCounts then phaseCounts[wf.namespace] else map[];
      var domain := if wf.namespace in phases then phases[wf.namespace] else {};
      DoneOneMore(workflows, todo, k);
      OneMoreNamespace(workflows - todo, k, wf);
      OneMoreDomain(workflows - todo, k, wf, phases, domain);
      TallyStep(workflows - todo, k, wf, counts, phaseCounts, phaseCount);
      counts := Bump(counts, wf.namespace);
      namespaces := namespaces + {wf.namespace};
      phaseCounts := phaseCounts[wf.namespace := Bump(phaseCount, wf.phase)];
      phases := phases[wf.namespace := domain + {wf.phase}];
      todo := todo - {k};
    }
    assert workflows - todo == workflows;
  }

  /** The namespaces that were published and no longer are. */
  method DiffNamespaces(previous: set<string>, current: set<string>) returns (stale: set<string>)
    ensures stale == previous - current
  {
    stale := {};
    var todo := previous;
    while todo != {}
      invariant todo <= previous && stale == previous - todo - current
      decreases todo
    {
      var ns :| ns in todo;
      todo := todo - {ns};
      if ns in current { continue; }
      stale := stale + {ns};
    }
  }

  /** The namespace and phase pairs that were published and no longer are. */
  method DiffNamespacePhases(previous: map<string, set<string>>, current: map<string, set<string>>)
    returns (stale: map<string, set<string>>)
    ensures StalePairs(stale, previous, current)
  {
    stale := map[];
    var todo := previous.Keys;
    while todo != {}
      invariant todo <= previous.Keys
      invariant forall ns, p ::
        Has(stale, ns, p) <==> ns !in todo && Has(previous, ns, p) && !Has(current, ns, p)
      decreases todo
    {
      var ns :| ns in todo;
      todo := todo - {ns};
      var left := previous[ns];
      while left != {}
        invariant left <= previous[ns]
        invariant forall m, p ::
          Has(stale, m, p) <==>
          m !in todo && (m == ns ==> p !in left) && Has(previous, m, p) && !Has(current, m, p)
        decreases left
      {
        var p :| p in left;
        left := left - {p};
        if Has(current, ns, p) { continue; }
        var more := stale[ns := (if ns in stale then stale[ns] else {}) + {p}];
        HasOneMore(stale, ns, p, more);
        stale := more;
      }
    }
  }

  lemma HasOneMore(phases: map<string, set<string>>, ns: string, phase: string, more: map<string, set<string>>)
    requires more == phases[ns := (if ns in phases then phases[ns] else {}) + {phase}]
    ensures forall m, p :: Has(more, m, p) <==> Has(phases, m, p) || (m == ns && p == phase)
  {}

  method CountNodePhases(nodes: map<string, string>) returns (counts: map<string, int>)
    ensures NodesTallied(nodes, counts)
  {
    counts := map[];
    var todo := nodes.Keys;
    assert nodes - todo == map[];
    while todo != {}
      invariant todo <= nodes.Keys && NodesTallied(nodes - todo, counts)
      decreases todo
    {
      var n :| n in todo;
      DoneOneMore(nodes, todo, n);
      OneMoreNode(nodes - todo, n, nodes[n], counts, Bump(counts, nodes[n]));
      counts := Bump(counts, nodes[n]);
      todo := todo - {n};
    }
    assert nodes - todo == nodes;
  }

  /** The set of phases among the nodes, as the deletion gathers it. */
  method NodePhasesOf(nodes: map<string, string>) returns (phases: set<string>)
    ensures phases == nodes.Values
  {
    phases := {};
    var todo := nodes.Keys;
    assert nodes - todo == map[];
    while todo != {}
      invariant todo <= nodes.Keys && phases == (nodes - todo).Values
      decreases todo
    {
      var n :| n in todo;
      DoneOneMore(nodes, todo, n);
      OneMoreValue(nodes - todo, n, nodes[n]);
      phases := phases + {nodes[n]};
      todo := todo - {n};
    }
    assert nodes - todo == nodes;
  }

  /** With the version under a key deleted, if there was one, the gauges agree for all the others. */
  lemma DisplacedAgrees(before: Gauges, after: Gauges, key: string, cache: Cache, at: map<string, Time>)
    requires DetailsAgree(before, cache, at)
    requires if key in cache then Deleted(before, after, cache[key]) else after == before
    ensures DetailsAgree(after, cache - {key}, at - {key}) && SameAggregates(before, after)
  {
    if key in cache {
      DeletedAgrees(before, after, cache[key], cache, at);
    } else {
      assert cache - {key} == cache && at - {key} == at;
    }
  }
}
