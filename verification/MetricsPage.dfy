/**
 * What a cached workflow looks like in the gauges, once more and vector by vector, in numbers and text:
 * the meaning that `Readings` has to have for someone who reads the metrics page.
 */
module MetricsPage {
  import opened Wrappers
  import opened Workflows
  import opened Metrics
  import opened Readings
  import opened Decimal

  /** A gauge of whole seconds for a time in nanoseconds; none for a time that is not set. */
  predicate ShowsTime(g: Gauges, s: Series, t: Option<Time>)
  {
    && (s in g <==> t.Some?)
    && (t.Some? && s in g ==> 1_000_000_000 * g[s] <= t.value < 1_000_000_000 * (g[s] + 1))
  }

  /** A gauge of the elapsed time between two clock readings, if it is positive; 2^63 - 1 is the most it shows. */
  predicate ShowsElapsed(g: Gauges, s: Series, from: Time, to: Time)
  {
    && (s in g <==> to > from)
    && (s in g ==> g[s] == if to - from > 0x7FFF_FFFF_FFFF_FFFF then 0x7FFF_FFFF_FFFF_FFFF else to - from)
  }

  /** A finished workflow shows how long it took, a running one how long it has been going, any other nothing. */
  predicate ShowsDuration(g: Gauges, wf: Workflow, now: Time)
  {
    var s := DurationSeconds(wf.namespace, wf.name, wf.phase);
    if wf.started.Some? && wf.finished.Some? then ShowsElapsed(g, s, wf.started.value, wf.finished.value)
    else if wf.started.Some? && wf.phase == "Running" then ShowsElapsed(g, s, wf.started.value, now)
    else s !in g
  }

  ghost predicate ShowsPhases(g: Gauges, wf: Workflow)
  {
    forall p ::
      var s := StatusPhase(wf.namespace, wf.name, p);
      && (s in g <==> p == "Pending" || p == "Running" || p == "Succeeded" || p == "Failed" || p == "Error")
      && (s in g ==> g[s] == if p == wf.phase then 1 else 0)
  }

  ghost predicate ShowsInfo(g: Gauges, wf: Workflow)
  {
    forall uid, account, priority ::
      var s := Info(wf.namespace, wf.name, uid, account, priority);
      && (s in g <==>
            && uid == wf.uid
            && account == (if wf.serviceAccountName == "" then "default" else wf.serviceAccountName)
            && priority == (if wf.priority.None? then "0" else Itoa(wf.priority.value)))
      && (s in g ==> g[s] == 1)
  }

  ghost predicate ShowsNodes(g: Gauges, wf: Workflow)
  {
    var total := NodeTotal(wf.namespace, wf.name);
    && (total in g <==> wf.nodes.Some?)
    && (total in g && wf.nodes.Some? ==> g[total] == |wf.nodes.value|)
    && forall p ::
         var s := NodePhase(wf.namespace, wf.name, p);
         && (s in g <==> wf.nodes.Some? && exists n :: n in wf.nodes.value && wf.nodes.value[n] == p)
         && (s in g && wf.nodes.Some? ==> g[s] == |set n | n in wf.nodes.value && wf.nodes.value[n] == p|)
  }

  /** All detail series of a workflow. */
  ghost predicate Shows(g: Gauges, wf: Workflow, now: Time)
  {
    && ShowsTime(g, CreatedTime(wf.namespace, wf.name), wf.created)
    && ShowsTime(g, StartedTime(wf.namespace, wf.name), wf.started)
    && ShowsTime(g, FinishedTime(wf.namespace, wf.name), wf.finished)
    && ShowsDuration(g, wf, now)
    && (forall p :: p != wf.phase ==> DurationSeconds(wf.namespace, wf.name, p) !in g)
    && ShowsPhases(g, wf) && ShowsInfo(g, wf) && ShowsNodes(g, wf)
  }

  /** The gauges have, of the series of `wf`, exactly the readings it calls for at `now`. */
  ghost predicate HasReadings(g: Gauges, wf: Workflow, now: Time)
  {
    forall s: Series :: s.Owned(wf.namespace, wf.name) ==> Lookup(g, s) == DetailReading(s, wf, now)
  }

  lemma TimesShown(g: Gauges, wf: Workflow, now: Time)
    requires HasReadings(g, wf, now)
    ensures ShowsTime(g, CreatedTime(wf.namespace, wf.name), wf.created)
    ensures ShowsTime(g, StartedTime(wf.namespace, wf.name), wf.started)
    ensures ShowsTime(g, FinishedTime(wf.namespace, wf.name), wf.finished)
    ensures ShowsDuration(g, wf, now)
    ensures forall p :: p != wf.phase ==> DurationSeconds(wf.namespace, wf.name, p) !in g
  {
    assert Lookup(g, CreatedTime(wf.namespace, wf.name)) == DetailReading(CreatedTime(wf.namespace, wf.name), wf, now);
    assert Lookup(g, StartedTime(wf.namespace, wf.name)) == DetailReading(StartedTime(wf.namespace, wf.name), wf, now);
    assert Lookup(g, FinishedTime(wf.namespace, wf.name)) == DetailReading(FinishedTime(wf.namespace, wf.name), wf, now);
    forall p ensures
      var s := DurationSeconds(wf.namespace, wf.name, p);
      Lookup(g, s) == DetailReading(s, wf, now)
    {}
  }

  lemma PhasesShown(g: Gauges, wf: Workflow, now: Time)
    requires HasReadings(g, wf, now)
    ensures ShowsPhases(g, wf)
  {
    forall p ensures
      Lookup(g, StatusPhase(wf.namespace, wf.name, p)) == DetailReading(StatusPhase(wf.namespace, wf.name, p), wf, now)
    {}
    assert PHASES[0] == "Pending" && PHASES[1] == "Running" && PHASES[2] == "Succeeded";
    assert PHASES[3] == "Failed" && PHASES[4] == "Error";
  }

  lemma InfoShown(g: Gauges, wf: Workflow, now: Time)
    requires HasReadings(g, wf, now)
    ensures ShowsInfo(g, wf)
  {
    forall uid, account, priority ensures
      var s := Info(wf.namespace, wf.name, uid, account, priority);
      Lookup(g, s) == DetailReading(s, wf, now)
    {}
  }

  lemma NodesShown(g: Gauges, wf: Workflow, now: Time)
    requires HasReadings(g, wf, now)
    ensures ShowsNodes(g, wf)
  {
    assert Lookup(g, NodeTotal(wf.namespace, wf.name)) == DetailReading(NodeTotal(wf.namespace, wf.name), wf, now);
    forall p ensures
      Lookup(g, NodePhase(wf.namespace, wf.name, p)) == DetailReading(NodePhase(wf.namespace, wf.name, p), wf, now)
    {}
    if wf.nodes.Some? {
      forall p ensures InPhase(wf.nodes.value, p) == set n | n in wf.nodes.value && wf.nodes.value[n] == p {}
    }
  }

  lemma AllShown(g: Gauges, wf: Workflow, now: Time)
    requires HasReadings(g, wf, now)
    ensures Shows(g, wf, now)
  {
    TimesShown(g, wf, now);
    PhasesShown(g, wf, now);
    InfoShown(g, wf, now);
    NodesShown(g, wf, now);
  }

  /** Whenever gauges and cache agree, every cached workflow is shown as of when it was last collected. */
  lemma CachedAreShown(g: Gauges, cache: Cache, at: map<string, Time>, key: string)
    requires DetailsAgree(g, cache, at) && key in cache
    ensures Shows(g, cache[key], at[key])
  {
    var wf := cache[key];
    forall s: Series | s.Owned(wf.namespace, wf.name) ensures Lookup(g, s) == DetailReading(s, wf, at[key]) {
      assert Lookup(g, s) == Reading(s, cache, at, true);
    }
    AllShown(g, wf, at[key]);
  }

  /** And nothing else is: every detail series belongs to a cached workflow. */
  lemma OnlyCachedAreShown(g: Gauges, cache: Cache, at: map<string, Time>, s: Series)
    requires DetailsAgree(g, cache, at) && s in g && !s.Aggregate()
    ensures exists key :: key in cache && cache[key].namespace == s.namespace && cache[key].name == s.name
  {
    assert Lookup(g, s) == Reading(s, cache, at, true);
    var key := Key(s.namespace, s.name);
    assert cache[key].namespace == s.namespace;
  }

  /** Collecting a workflow that has no series yet shows it. */
  lemma CollectedIsShown(before: Gauges, after: Gauges, wf: Workflow, now: Time)
    requires Collected(before, after, wf, now)
    requires forall s: Series :: s.Owned(wf.namespace, wf.name) ==> s !in before
    ensures Shows(after, wf, now)
  {
    forall s: Series | s.Owned(wf.namespace, wf.name) ensures Lookup(after, s) == DetailReading(s, wf, now) {
      assert Lookup(before, s) == None;
    }
    AllShown(after, wf, now);
  }
}
