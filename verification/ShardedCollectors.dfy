/** Sharded collectors of one store lose nothing and count nothing twice. */
module ShardedCollectors {
  import opened Wrappers
  import opened Workflows
  import opened Metrics
  import opened Readings
  import opened Events
  import opened Sums
  import opened Totals
  import opened Sharding

  /** A StatefulSet of exporters: the namespace they watch, their number, and their base name. */
  datatype Deployment = Deployment(target: string, total: int, base: string)
  {
    predicate Valid() { 2 <= total <= Decimal.MAX_INT64 && Divides(total) }
  }

  /** The matcher that replica `i` builds for itself; it filters events and listings alike. */
  ghost function Matcher(d: Deployment, i: nat): string -> bool
    requires d.Valid()
  {
    var replica := Replica(d.target, d.total, d.base, i);
    if replica.Ok? then replica.value.matcher else (ns: string) => false
  }

  /** The matcher of a single unsharded exporter with the same scope. */
  ghost function WholeMatcher(target: string): string -> bool
  {
    BuildNamespaceMatcher(target, 1, 0, Err("")).value.matcher
  }

  /** What replica `i` caches of a store: all that its reconcile lets through. */
  ghost function ShardOf(store: Cache, d: Deployment, i: nat): Cache
    requires d.Valid()
  {
    Filtered(store, Matcher(d, i))
  }

  ghost function WholeOf(store: Cache, target: string): Cache
  {
    Filtered(store, WholeMatcher(target))
  }

  /** Every object is namespaced, as the exporter's are. */
  predicate NamespacedStore(store: Cache)
  {
    forall k :: k in store ==> store[k].namespace != ""
  }

  predicate Namespaced(es: seq<Event>)
  {
    forall i :: 0 <= i < |es| ==> SlashFree(es[i].wf.namespace) && es[i].wf.namespace != ""
  }

  lemma {:induction false} ReplayNamespaced(es: seq<Event>)
    requires Namespaced(es)
    ensures NamespacedStore(Replay(map[], es))
    decreases |es|
  {
    if es != [] {
      ReplayNamespaced(es[..|es| - 1]);
    }
  }

  /**
   * The two ways into a cache agree: a replica that filters a history of events ends with what it would
   * list of the store that the history leads to.
   */
  lemma EventsAndListingsAgree(es: seq<Event>, d: Deployment, i: nat)
    requires Namespaced(es) && d.Valid()
    ensures NamespacedStore(Replay(map[], es))
    ensures Replay(map[], Admitted(es, Matcher(d, i))) == ShardOf(Replay(map[], es), d, i)
    ensures Replay(map[], Admitted(es, WholeMatcher(d.target))) == WholeOf(Replay(map[], es), d.target)
  {
    ReplayNamespaced(es);
    ReplayAdmitted(es, Matcher(d, i));
    ReplayAdmitted(es, WholeMatcher(d.target));
  }

  /** A replica's cache is the part of the unsharded cache in its own namespaces. */
  lemma ShardIs(store: Cache, d: Deployment, i: nat)
    requires NamespacedStore(store) && d.Valid() && i < d.total
    ensures ShardOf(store, d, i) == Filtered(WholeOf(store, d.target), ns => NamespaceShard(ns, d.total) == i)
  {
    ReplicaIs(d.target, d.total, d.base, i);
  }

  /** The shards' caches are disjoint, and together they are the unsharded cache. */
  lemma ShardsPartitionStore(store: Cache, d: Deployment, k: string)
    requires NamespacedStore(store) && d.Valid()
    ensures forall i: nat, j: nat :: i < d.total && j < d.total && i != j ==>
      !(k in ShardOf(store, d, i) && k in ShardOf(store, d, j))
    ensures forall wf ::
      At(WholeOf(store, d.target), k) == Some(wf) <==>
      exists i: nat :: i < d.total && At(ShardOf(store, d, i), k) == Some(wf)
  {
    var whole := WholeOf(store, d.target);
    forall i: nat | i < d.total
      ensures At(ShardOf(store, d, i), k) ==
        if k in whole && NamespaceShard(whole[k].namespace, d.total) == i then Some(whole[k]) else None
    {
      ShardIs(store, d, i);
    }
    if k in whole {
      var home: nat := NamespaceShard(whole[k].namespace, d.total);
      assert At(ShardOf(store, d, home), k) == Some(whole[k]);
    }
  }

  function Below(n: nat): (r: set<int>)
    ensures forall i :: i in r <==> 0 <= i < n
  {
    if n == 0 then {} else Below(n - 1) + {n - 1}
  }

  /** What the replicas show for a series, added up. */
  ghost function Together(gs: seq<Gauges>, s: Series): int
  {
    Sum(Below(|gs|), (i: int) => if 0 <= i < |gs| then Shown(gs[i], s) else 0)
  }

  /** For each aggregate series, the replicas' readings add up to what one unsharded exporter shows. */
  lemma ShardsSumToWhole(store: Cache, d: Deployment, gs: seq<Gauges>, g: Gauges, s: Series)
    requires NamespacedStore(store) && d.Valid() && |gs| == d.total && s.Aggregate()
    requires forall i :: 0 <= i < |gs| ==> AggregatesAgree(gs[i], ShardOf(store, d, i))
    requires AggregatesAgree(g, WholeOf(store, d.target))
    ensures Together(gs, s) == Shown(g, s)
  {
    var shards := Below(|gs|);
    var f := (i: int) => if 0 <= i < |gs| then Shown(gs[i], s) else 0;
    var home := NamespaceShard(s.namespace, d.total);
    forall i | i in shards ensures f(i) == if i == home then Shown(g, s) else 0 {
      ShardShows(store, d, i, gs[i], g, s);
    }
    SumSingle(shards, f, home);
    SumCong(shards, f, (i: int) => if 0 <= i < |gs| then Shown(gs[i], s) else 0);
  }

  lemma ShardShows(store: Cache, d: Deployment, i: nat, gi: Gauges, g: Gauges, s: Series)
    requires NamespacedStore(store) && d.Valid() && i < d.total && s.Aggregate()
    requires AggregatesAgree(gi, ShardOf(store, d, i)) && AggregatesAgree(g, WholeOf(store, d.target))
    ensures Shown(gi, s) == if i == NamespaceShard(s.namespace, d.total) then Shown(g, s) else 0
  {
    var whole, part := WholeOf(store, d.target), ShardOf(store, d, i);
    ShardIs(store, d, i);
    AggregateReading(gi, part, s);
    AggregateReading(g, whole, s);
    if i == NamespaceShard(s.namespace, d.total) {
      assert InNamespace(part, s.namespace) == InNamespace(whole, s.namespace);
      assert s.StatusTotal? ==>
        InNamespacePhase(part, s.namespace, s.phase) == InNamespacePhase(whole, s.namespace, s.phase);
    } else {
      assert InNamespace(part, s.namespace) == {};
      assert s.StatusTotal? ==> InNamespacePhase(part, s.namespace, s.phase) == {};
    }
  }
}
