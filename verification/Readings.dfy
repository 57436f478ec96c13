/**
 * What the gauges ought to show, stated series by series: for a label tuple, which reading
 * does the current set of workflows call for? Nothing here says in which order, or by which
 * updates, a collector gets there.
 */
module Readings {
  import opened Wrappers
  import opened Workflows
  import opened Metrics

  type Cache = map<string, Workflow>

  /** Every object is filed under its own key. */
  ghost predicate WellKeyed(cache: Cache)
  {
    forall k :: k in cache ==> k == KeyOf(cache[k])
  }

  // ----- one workflow -----

  /** The elapsed time of a workflow looked at when the clock shows `now`; 0 when it has none. */
  function Elapsed(wf: Workflow, now: Time): int
  {
    if wf.started.None? then 0
    else if wf.finished.Some? then Sub(wf.finished.value, wf.started.value)
    else if wf.phase == "Running" then Sub(now, wf.started.value)
    else 0
  }

  function InPhase(nodes: map<string, string>, phase: string): set<string>
  {
    set n | n in nodes && nodes[n] == phase
  }

  /** The reading of series `s` that workflow `wf`, collected at `now`, calls for. */
  function DetailReading(s: Series, wf: Workflow, now: Time): Option<int>
  {
    if !s.Owned(wf.namespace, wf.name) then None else
    match s
    case StatusPhase(_, _, phase) =>
      if phase in PHASES then Some(if phase == wf.phase then 1 else 0) else None
    case Info(_, _, uid, account, priority) =>
      if uid == wf.uid && account == ServiceAccountLabel(wf) && priority == PriorityLabel(wf)
      then Some(1) else None
    case CreatedTime(_, _) => if wf.created.Some? then Some(Unix(wf.created.value)) else None
    case StartedTime(_, _) => if wf.started.Some? then Some(Unix(wf.started.value)) else None
    case FinishedTime(_, _) => if wf.finished.Some? then Some(Unix(wf.finished.value)) else None
    case DurationSeconds(_, _, phase) =>
      if phase == wf.phase && Elapsed(wf, now) > 0 then Some(Elapsed(wf, now)) else None
    case NodeTotal(_, _) => if wf.nodes.Some? then Some(|wf.nodes.value|) else None
    case NodePhase(_, _, phase) =>
      if wf.nodes.Some? && phase in wf.nodes.value.Values
      then Some(|InPhase(wf.nodes.value, phase)|) else None
    case _ => None
  }

  /** The label sets that are deleted on behalf of `wf`. */
  predicate InFootprint(s: Series, wf: Workflow)
  {
    s.Owned(wf.namespace, wf.name) &&
    match s
    case StatusPhase(_, _, phase) => phase in PHASES
    case Info(_, _, uid, account, priority) =>
      uid == wf.uid && account == ServiceAccountLabel(wf) && priority == PriorityLabel(wf)
    case DurationSeconds(_, _, phase) => phase == wf.phase
    case NodePhase(_, _, phase) => wf.nodes.Some? && phase in wf.nodes.value.Values
    case _ => true
  }

  /** Whatever the clock said when a workflow was collected, deleting it reaches all it published. */
  lemma FootprintCovers(s: Series, wf: Workflow, now: Time)
    ensures DetailReading(s, wf, now).Some? ==> InFootprint(s, wf)
  {}

  // ----- the whole cache -----

  ghost function InNamespace(cache: Cache, ns: string): set<string>
  {
    set k | k in cache && cache[k].namespace == ns
  }

  ghost function InNamespacePhase(cache: Cache, ns: string, phase: string): set<string>
  {
    set k | k in cache && cache[k].namespace == ns && cache[k].phase == phase
  }

  function Namespaces(cache: Cache): set<string>
  {
    set k | k in cache :: cache[k].namespace
  }

  function PhasesIn(cache: Cache, ns: string): set<string>
  {
    set k | k in cache && cache[k].namespace == ns :: cache[k].phase
  }

  function NonZero(n: nat): Option<int> { if n == 0 then None else Some(n) }

  /** The reading of any series, given the cached workflows and when each was last collected. */
  ghost function Reading(s: Series, cache: Cache, at: map<string, Time>, details: bool): Option<int>
  {
    match s
    case Count(ns) => NonZero(|InNamespace(cache, ns)|)
    case StatusTotal(ns, phase) => NonZero(|InNamespacePhase(cache, ns, phase)|)
    case _ =>
      var key := Key(s.namespace, s.name);
      if details && key in cache && key in at then DetailReading(s, cache[key], at[key]) else None
  }

  /** The detail half of the agreement, for a collector that publishes details. */
  ghost predicate DetailsAgree(gauges: Gauges, cache: Cache, at: map<string, Time>)
  {
    && WellKeyed(cache)
    && at.Keys == cache.Keys
    && forall s: Series :: !s.Aggregate() ==> Lookup(gauges, s) == Reading(s, cache, at, true)
  }

  /** The aggregate half of the agreement. */
  ghost predicate AggregatesAgree(gauges: Gauges, cache: Cache)
  {
    forall s: Series :: s.Aggregate() ==> Lookup(gauges, s) == Reading(s, cache, map[], false)
  }

  /** A collector that does not publish details owns no detail series. */
  ghost predicate NoDetails(gauges: Gauges)
  {
    forall s: Series :: !s.Aggregate() ==> Lookup(gauges, s) == None
  }

  /** The gauges show exactly what the cache calls for: nothing missing, nothing left over. */
  ghost predicate Agrees(gauges: Gauges, cache: Cache, at: map<string, Time>, details: bool)
  {
    && WellKeyed(cache)
    && AggregatesAgree(gauges, cache)
    && if details then DetailsAgree(gauges, cache, at) else NoDetails(gauges)
  }

  /** The same, in one line: every series shows the reading the cache calls for. */
  lemma AgreesPointwise(gauges: Gauges, cache: Cache, at: map<string, Time>, details: bool)
    requires WellKeyed(cache) && (details ==> at.Keys == cache.Keys)
    ensures Agrees(gauges, cache, at, details) <==>
            forall s :: Lookup(gauges, s) == Reading(s, cache, at, details)
  {}

  // ----- the two primitive updates, by their effect on every series -----

  /** `after` is `before` with everything `wf` publishes at `now` written over it. */
  ghost predicate Collected(before: Gauges, after: Gauges, wf: Workflow, now: Time)
  {
    forall s ::
      Lookup(after, s) ==
      if DetailReading(s, wf, now).Some? then DetailReading(s, wf, now) else Lookup(before, s)
  }

  /** `after` is `before` with the footprint of `wf` taken out. */
  ghost predicate Deleted(before: Gauges, after: Gauges, wf: Workflow)
  {
    forall s ::
      Lookup(after, s) == if InFootprint(s, wf) then None else Lookup(before, s)
  }

  ghost predicate SameDetails(g: Gauges, h: Gauges)
  {
    forall s: Series :: !s.Aggregate() ==> Lookup(g, s) == Lookup(h, s)
  }

  ghost predicate SameAggregates(g: Gauges, h: Gauges)
  {
    forall s: Series :: s.Aggregate() ==> Lookup(g, s) == Lookup(h, s)
  }

  /** Deleting a workflow's footprint takes exactly that workflow out of the agreement. */
  lemma DeletedAgrees(before: Gauges, after: Gauges, wf: Workflow, cache: Cache, at: map<string, Time>)
    requires DetailsAgree(before, cache, at) && Deleted(before, after, wf)
    requires KeyOf(wf) in cache ==> cache[KeyOf(wf)] == wf
    ensures DetailsAgree(after, cache - {KeyOf(wf)}, at - {KeyOf(wf)}) && SameAggregates(before, after)
  {}

  /** Collecting a workflow that is not accounted for adds exactly that workflow to the agreement. */
  lemma CollectedAgrees(before: Gauges, after: Gauges, wf: Workflow, now: Time, cache: Cache, at: map<string, Time>)
    requires DetailsAgree(before, cache, at) && Collected(before, after, wf, now)
    requires KeyOf(wf) !in cache
    ensures DetailsAgree(after, cache[KeyOf(wf) := wf], at[KeyOf(wf) := now]) && SameAggregates(before, after)
  {}

  /** Membership in a map of sets, Go's map[string]map[string]struct{}. */
  predicate Has(phases: map<string, set<string>>, ns: string, phase: string)
  {
    ns in phases && phase in phases[ns]
  }

  // ----- the remembered label domains of the aggregates -----

  /** The phases seen in each namespace that has a workflow. */
  function PhaseDomains(cache: Cache): map<string, set<string>>
  {
    map ns | ns in Namespaces(cache) :: PhasesIn(cache, ns)
  }

  lemma CountsNonZero(cache: Cache, ns: string, phase: string)
    ensures |InNamespace(cache, ns)| != 0 <==> ns in Namespaces(cache)
    ensures |InNamespacePhase(cache, ns, phase)| != 0 <==> ns in Namespaces(cache) && phase in PhasesIn(cache, ns)
  {
    if ns in Namespaces(cache) {
      var k :| k in cache && cache[k].namespace == ns;
      assert k in InNamespace(cache, ns);
    } else {
      assert InNamespace(cache, ns) == {};
    }
    if phase in PhasesIn(cache, ns) {
      var k :| k in cache && cache[k].namespace == ns && cache[k].phase == phase;
      assert k in InNamespacePhase(cache, ns, phase);
    } else {
      assert InNamespacePhase(cache, ns, phase) == {};
    }
  }

  lemma StillAgrees(g: Gauges, h: Gauges, cache: Cache)
    requires SameAggregates(g, h) && AggregatesAgree(g, cache)
    ensures AggregatesAgree(h, cache)
  {}

  /** New aggregates over unchanged details complete the agreement. */
  lemma AgreesAgain(before: Gauges, after: Gauges, cache: Cache, at: map<string, Time>, details: bool)
    requires WellKeyed(cache) && AggregatesAgree(after, cache) && SameDetails(before, after)
    requires if details then DetailsAgree(before, cache, at) else NoDetails(before)
    ensures Agrees(after, cache, at, details)
  {}

  // ----- tallying one workflow at a time -----

  ghost predicate Tallied(cache: Cache, counts: map<string, int>, phaseCounts: map<string, map<string, int>>)
  {
    && counts.Keys == Namespaces(cache)
    && phaseCounts.Keys == Namespaces(cache)
    && (forall ns :: ns in counts ==> counts[ns] == |InNamespace(cache, ns)|)
    && (forall ns :: ns in phaseCounts ==> PhasesTallied(cache, ns, phaseCounts[ns]))
  }

  ghost predicate PhasesTallied(cache: Cache, ns: string, phaseCount: map<string, int>)
  {
    && phaseCount.Keys == PhasesIn(cache, ns)
    && forall p :: p in phaseCount ==> phaseCount[p] == |InNamespacePhase(cache, ns, p)|
  }

  lemma OneMoreNamespace(seen: Cache, key: string, wf: Workflow)
    requires key !in seen
    ensures Namespaces(seen[key := wf]) == Namespaces(seen) + {wf.namespace}
  {
    var next := seen[key := wf];
    forall ns ensures ns in Namespaces(next) <==> ns in Namespaces(seen) + {wf.namespace} {
      if ns == wf.namespace {
        assert next[key].namespace == ns;
      } else if ns in Namespaces(seen) {
        var k :| k in seen && seen[k].namespace == ns;
        assert next[k].namespace == ns;
      }
    }
  }

  lemma OneMorePhase(seen: Cache, key: string, wf: Workflow, ns: string)
    requires key !in seen
    ensures PhasesIn(seen[key := wf], ns) == PhasesIn(seen, ns) + if ns == wf.namespace then {wf.phase} else {}
  {
    var next := seen[key := wf];
    forall p ensures p in PhasesIn(next, ns) <==> p in PhasesIn(seen, ns) || (ns == wf.namespace && p == wf.phase) {
      if ns == wf.namespace && p == wf.phase {
        assert next[key].namespace == ns && next[key].phase == p;
      }
      if p in PhasesIn(seen, ns) {
        var k :| k in seen && seen[k].namespace == ns && seen[k].phase == p;
        assert next[k].namespace == ns && next[k].phase == p;
      }
    }
  }

  lemma OneMoreCount(seen: Cache, key: string, wf: Workflow, ns: string)
    requires key !in seen
    ensures |InNamespace(seen[key := wf], ns)| == |InNamespace(seen, ns)| + if ns == wf.namespace then 1 else 0
  {
    var before, after := InNamespace(seen, ns), InNamespace(seen[key := wf], ns);
    if ns == wf.namespace {
      assert after == before + {key};
    } else {
      assert after == before;
    }
  }

  lemma OneMorePhaseCount(seen: Cache, key: string, wf: Workflow, ns: string, p: string)
    requires key !in seen
    ensures |InNamespacePhase(seen[key := wf], ns, p)| ==
      |InNamespacePhase(seen, ns, p)| + if ns == wf.namespace && p == wf.phase then 1 else 0
  {
    var before, after := InNamespacePhase(seen, ns, p), InNamespacePhase(seen[key := wf], ns, p);
    if ns == wf.namespace && p == wf.phase {
      assert after == before + {key};
    } else {
      assert after == before;
    }
  }

  /** Counting one more workflow keeps both tallies exact. */
  lemma TallyNamespace(seen: Cache, key: string, wf: Workflow, counts: map<string, int>, next: map<string, int>)
    requires key !in seen && counts.Keys == Namespaces(seen)
    requires forall ns :: ns in counts ==> counts[ns] == |InNamespace(seen, ns)|
    requires next == counts[wf.namespace := (if wf.namespace in counts then counts[wf.namespace] else 0) + 1]
    ensures next.Keys == Namespaces(seen[key := wf])
    ensures forall ns :: ns in next ==> next[ns] == |InNamespace(seen[key := wf], ns)|
  {
    OneMoreNamespace(seen, key, wf);
    CountsNonZero(seen, wf.namespace, "");
    forall ns | ns in next ensures next[ns] == |InNamespace(seen[key := wf], ns)| {
      OneMoreCount(seen, key, wf, ns);
    }
  }

  lemma TallyPhase(seen: Cache, key: string, wf: Workflow, ns: string, count: map<string, int>, next: map<string, int>)
    requires key !in seen && PhasesTallied(seen, ns, count)
    requires next ==
      if ns == wf.namespace then count[wf.phase := (if wf.phase in count then count[wf.phase] else 0) + 1] else count
    ensures PhasesTallied(seen[key := wf], ns, next)
  {
    OneMorePhase(seen, key, wf, ns);
    CountsNonZero(seen, ns, wf.phase);
    forall p | p in next ensures next[p] == |InNamespacePhase(seen[key := wf], ns, p)| {
      OneMorePhaseCount(seen, key, wf, ns, p);
    }
  }

  lemma NothingTallied(seen: Cache, ns: string)
    requires ns !in Namespaces(seen)
    ensures PhasesTallied(seen, ns, map[])
  {}

  lemma TallyPhases(seen: Cache, key: string, wf: Workflow, counts: map<string, map<string, int>>,
                    count: map<string, int>, next: map<string, int>, all: map<string, map<string, int>>)
    requires key !in seen && counts.Keys == Namespaces(seen)
    requires forall ns :: ns in counts ==> PhasesTallied(seen, ns, counts[ns])
    requires count == if wf.namespace in counts then counts[wf.namespace] else map[]
    requires next == count[wf.phase := (if wf.phase in count then count[wf.phase] else 0) + 1]
    requires all == counts[wf.namespace := next]
    ensures all.Keys == Namespaces(seen[key := wf])
    ensures forall ns :: ns in all ==> PhasesTallied(seen[key := wf], ns, all[ns])
  {
    OneMoreNamespace(seen, key, wf);
    if wf.namespace !in counts {
      NothingTallied(seen, wf.namespace);
    }
    forall ns | ns in all ensures PhasesTallied(seen[key := wf], ns, all[ns]) {
      if ns == wf.namespace {
        TallyPhase(seen, key, wf, ns, count, next);
      } else {
        TallyPhase(seen, key, wf, ns, counts[ns], counts[ns]);
      }
    }
  }

  lemma OneMoreDomain(seen: Cache, key: string, wf: Workflow, phases: map<string, set<string>>, domain: set<string>)
    requires key !in seen && phases == PhaseDomains(seen)
    requires domain == if wf.namespace in phases then phases[wf.namespace] else {}
    ensures phases[wf.namespace := domain + {wf.phase}] == PhaseDomains(seen[key := wf])
  {
    OneMoreNamespace(seen, key, wf);
    var next := phases[wf.namespace := domain + {wf.phase}];
    forall ns | ns in next ensures next[ns] == PhasesIn(seen[key := wf], ns) {
      OneMorePhase(seen, key, wf, ns);
      if ns !in Namespaces(seen) {
        NothingTallied(seen, ns);
      }
    }
  }

  function Bump(counts: map<string, int>, key: string): map<string, int>
  {
    counts[key := (if key in counts then counts[key] else 0) + 1]
  }

  /** One turn of the counting loop. */
  lemma TallyStep(seen: Cache, key: string, wf: Workflow, counts: map<string, int>,
                  phaseCounts: map<string, map<string, int>>, phaseCount: map<string, int>)
    requires key !in seen && Tallied(seen, counts, phaseCounts)
    requires phaseCount == if wf.namespace in phaseCounts then phaseCounts[wf.namespace] else map[]
    ensures Tallied(seen[key := wf], Bump(counts, wf.namespace), phaseCounts[wf.namespace := Bump(phaseCount, wf.phase)])
  {
    TallyNamespace(seen, key, wf, counts, Bump(counts, wf.namespace));
    TallyPhases(seen, key, wf, phaseCounts, phaseCount, Bump(phaseCount, wf.phase),
                phaseCounts[wf.namespace := Bump(phaseCount, wf.phase)]);
  }

  /** Taking a key off the to-do set adds its entry to the part already done. */
  lemma DoneOneMore<V>(m: map<string, V>, todo: set<string>, k: string)
    requires k in todo && k in m
    ensures m - (todo - {k}) == (m - todo)[k := m[k]]
    ensures k !in m - todo
  {}

  // ----- publishing a recount -----

  ghost predicate CountsPublished(before: Gauges, after: Gauges, counts: map<string, int>, stale: set<string>)
  {
    forall s ::
      Lookup(after, s) ==
      if s.Count? && s.namespace in counts then Some(counts[s.namespace])
      else if s.Count? && s.namespace in stale then None else Lookup(before, s)
  }

  ghost predicate TotalsPublished(before: Gauges, after: Gauges,
                                  counts: map<string, map<string, int>>, stale: map<string, set<string>>)
  {
    forall s ::
      Lookup(after, s) ==
      if s.StatusTotal? && s.namespace in counts && s.phase in counts[s.namespace]
      then Some(counts[s.namespace][s.phase])
      else if s.StatusTotal? && Has(stale, s.namespace, s.phase) then None else Lookup(before, s)
  }

  ghost predicate StalePairs(stale: map<string, set<string>>, previous: map<string, set<string>>,
                             current: map<string, set<string>>)
  {
    forall ns, p :: Has(stale, ns, p) <==> Has(previous, ns, p) && !Has(current, ns, p)
  }

  lemma DomainsHold(cache: Cache, ns: string, phase: string)
    ensures Has(PhaseDomains(cache), ns, phase) <==> |InNamespacePhase(cache, ns, phase)| != 0
  {
    CountsNonZero(cache, ns, phase);
  }

  /** A recount, published over the old totals with the stale ones deleted, agrees with the cache. */
  lemma RecountAgrees(before: Gauges, mid: Gauges, after: Gauges,
                      counts: map<string, int>, phaseCounts: map<string, map<string, int>>,
                      stale: set<string>, stalePhases: map<string, set<string>>, cache: Cache, was: Cache)
    requires AggregatesAgree(before, was) && Tallied(cache, counts, phaseCounts)
    requires stale == Namespaces(was) - Namespaces(cache)
    requires StalePairs(stalePhases, PhaseDomains(was), PhaseDomains(cache))
    requires CountsPublished(before, mid, counts, stale)
    requires TotalsPublished(mid, after, phaseCounts, stalePhases)
    ensures AggregatesAgree(after, cache) && SameDetails(before, after)
  {
    forall s: Series | s.Count? ensures Lookup(after, s) == Reading(s, cache, map[], false) {
      CountsNonZero(cache, s.namespace, "");
      CountsNonZero(was, s.namespace, "");
      assert Lookup(mid, s) == Lookup(after, s);
      assert Lookup(before, s) == Reading(s, was, map[], false);
    }
    forall s: Series | s.StatusTotal? ensures Lookup(after, s) == Reading(s, cache, map[], false) {
      CountsNonZero(cache, s.namespace, s.phase);
      DomainsHold(cache, s.namespace, s.phase);
      DomainsHold(was, s.namespace, s.phase);
      assert Lookup(before, s) == Lookup(mid, s);
      assert Lookup(before, s) == Reading(s, was, map[], false);
      if s.namespace in phaseCounts {
        assert PhasesTallied(cache, s.namespace, phaseCounts[s.namespace]);
      }
    }
    forall s: Series | !s.Aggregate() ensures Lookup(after, s) == Lookup(before, s) {
      assert Lookup(mid, s) == Lookup(after, s);
    }
  }

  // ----- counting one node at a time -----

  ghost predicate NodesTallied(nodes: map<string, string>, counts: map<string, int>)
  {
    && counts.Keys == nodes.Values
    && forall p :: p in counts ==> counts[p] == |InPhase(nodes, p)|
  }

  lemma OneMoreValue(seen: map<string, string>, n: string, phase: string)
    requires n !in seen
    ensures seen[n := phase].Values == seen.Values + {phase}
  {
    var next := seen[n := phase];
    forall p ensures p in next.Values <==> p in seen.Values + {phase} {
      if p == phase {
        assert next[n] == phase;
      } else if p in seen.Values {
        var m :| m in seen && seen[m] == p;
        assert next[m] == p;
      }
    }
  }

  lemma OneMoreInPhase(seen: map<string, string>, n: string, phase: string, p: string)
    requires n !in seen
    ensures |InPhase(seen[n := phase], p)| == |InPhase(seen, p)| + if p == phase then 1 else 0
  {
    var before, after := InPhase(seen, p), InPhase(seen[n := phase], p);
    if p == phase {
      assert after == before + {n};
    } else {
      assert after == before;
    }
  }

  lemma OneMoreNode(seen: map<string, string>, n: string, phase: string, counts: map<string, int>, next: map<string,
                    int>)
    requires n !in seen && NodesTallied(seen, counts)
    requires next == counts[phase := (if phase in counts then counts[phase] else 0) + 1]
    ensures NodesTallied(seen[n := phase], next)
  {
    OneMoreValue(seen, n, phase);
    if phase !in counts {
      assert InPhase(seen, phase) == {};
    }
    forall p | p in next ensures next[p] == |InPhase(seen[n := phase], p)| {
      OneMoreInPhase(seen, n, phase, p);
    }
  }

  // ----- the same two updates, vector by vector -----

  /** The order in which the detail vectors of a workflow are written. */
  function Rank(s: Series): nat
  {
    match s
    case StatusPhase(_, _, _) => 0
    case Info(_, _, _, _, _) => 1
    case CreatedTime(_, _) => 2
    case StartedTime(_, _) => 3
    case FinishedTime(_, _) => 4
    case DurationSeconds(_, _, _) => 5
    case NodeTotal(_, _) => 6
    case NodePhase(_, _, _) => 7
    case _ => 8
  }

  /** The vectors of rank `from` up to `to` have been collected. */
  ghost predicate CollectedPart(before: Gauges, after: Gauges, wf: Workflow, now: Time, from: nat, to: nat)
  {
    forall s ::
      Lookup(after, s) ==
      if from <= Rank(s) < to && DetailReading(s, wf, now).Some?
      then DetailReading(s, wf, now) else Lookup(before, s)
  }

  ghost predicate DeletedPart(before: Gauges, after: Gauges, wf: Workflow, from: nat, to: nat)
  {
    forall s ::
      Lookup(after, s) ==
      if from <= Rank(s) < to && InFootprint(s, wf) then None else Lookup(before, s)
  }

  lemma CollectedJoin(a: Gauges, b: Gauges, c: Gauges, wf: Workflow, now: Time, from: nat, mid: nat, to: nat)
    requires from <= mid <= to
    requires CollectedPart(a, b, wf, now, from, mid) && CollectedPart(b, c, wf, now, mid, to)
    ensures CollectedPart(a, c, wf, now, from, to)
  {}

  lemma DeletedJoin(a: Gauges, b: Gauges, c: Gauges, wf: Workflow, from: nat, mid: nat, to: nat)
    requires from <= mid <= to
    requires DeletedPart(a, b, wf, from, mid) && DeletedPart(b, c, wf, mid, to)
    ensures DeletedPart(a, c, wf, from, to)
  {}
}
