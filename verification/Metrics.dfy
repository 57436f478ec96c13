/** The exporter's workflow gauge vectors. A series is one label tuple of one vector. */
module Metrics {
  import opened Wrappers

  datatype Series =
    | StatusTotal(namespace: string, phase: string)
    | StatusPhase(namespace: string, name: string, phase: string)
    | Count(namespace: string)
    | DurationSeconds(namespace: string, name: string, phase: string)
    | CreatedTime(namespace: string, name: string)
    | StartedTime(namespace: string, name: string)
    | FinishedTime(namespace: string, name: string)
    | NodeTotal(namespace: string, name: string)
    | NodePhase(namespace: string, name: string, phase: string)
    | Info(namespace: string, name: string, uid: string, serviceAccount: string, priority: string)
  {
    /** Aggregate series carry no workflow name. */
    predicate Aggregate() { StatusTotal? || Count? }

    /** A detail series of the workflow with these labels. */
    predicate Owned(ns: string, n: string)
    {
      !Aggregate() && namespace == ns && name == n
    }
  }

  type Gauges = map<Series, int>

  function Lookup(gauges: Gauges, s: Series): Option<int>
  {
    if s in gauges then Some(gauges[s]) else None
  }

  /** Gauges that show the same reading for every series are the same gauges. */
  lemma SameReadings(g: Gauges, h: Gauges)
    requires forall s :: Lookup(g, s) == Lookup(h, s)
    ensures g == h
  {
    forall s ensures s in g <==> s in h {
      assert Lookup(g, s) == Lookup(h, s);
    }
    forall s | s in g ensures g[s] == h[s] {
      assert Lookup(g, s) == Lookup(h, s);
    }
  }

  /** The process-wide registry the collectors publish to. */
  class Registry {
    var gauges: Gauges

    constructor ()
      ensures gauges == map[]
    {
      gauges := map[];
    }

    /** WithLabelValues(..).Set(v) */
    method Set(s: Series, v: int)
      modifies this
      ensures gauges == old(gauges)[s := v]
    {
      gauges := gauges[s := v];
    }

    /** DeleteLabelValues(..) */
    method Delete(s: Series)
      modifies this
      ensures gauges == old(gauges) - {s}
    {
      gauges := gauges - {s};
    }
  }
}
