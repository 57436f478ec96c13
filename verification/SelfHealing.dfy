/** A full reconcile repairs the cache, however many workers there are and whatever went wrong before. */
module SelfHealing {
  import opened Wrappers
  import opened Workflows
  import opened Readings
  import opened Operations
  import opened Events
  import opened Protocol
  import HandlingOrder
  import Convergence

  /** An event that says about its key what the store says. */
  predicate Current(store: Cache, e: Event)
  {
    if e.Upsert? then At(store, KeyOf(e.wf)) == Some(e.wf) else KeyOf(e.wf) !in store
  }

  predicate AllCurrent(store: Cache, es: seq<Event>)
  {
    forall i :: 0 <= i < |es| ==> Current(store, es[i])
  }

  /** Nothing on its way to the cache contradicts the store; true in particular of nothing at all. */
  ghost predicate NothingStale(s: System)
  {
    && AllCurrent(s.store, s.pending) && AllCurrent(s.store, s.queue)
    && forall t :: t in s.threads && Holding(s.threads[t]) ==> Current(s.store, s.threads[t].job.e)
  }

  /** Nothing at all is on its way: no notification, no queued event, no event in a worker's hand. */
  ghost predicate NothingOnItsWay(s: System)
  {
    s.pending == [] && s.queue == [] && forall t :: t in s.threads ==> !Holding(s.threads[t])
  }

  /** From the listing on: nothing stale, a listing in hand is the store, and `healed` caches are too. */
  ghost predicate Healing(s: System, store: Cache, healed: bool, admits: string -> bool)
  {
    && s.store == store && NothingStale(s)
    && (Reconciler in s.threads && ListingInHand(s.threads[Reconciler]) ==>
          Filed(s.threads[Reconciler].job.wfs) == Filtered(store, admits))
    && (healed ==> s.collector.cache == Filtered(store, admits))
  }

  lemma ListingHeals(s: System, wfs: seq<Option<Workflow>>, s': System, admits: string -> bool)
    requires Safe(s, admits) && Step(s, Listed(wfs), s', admits) && NothingStale(s)
    ensures Healing(s', s.store, false, admits)
  {
    HandlingOrder.ListingRebuilds(wfs, Filtered(s.store, admits));
  }

  /** Applying a current event to the filtered store changes nothing. */
  lemma CurrentIsIdle(store: Cache, e: Event, admits: string -> bool)
    requires NamedCache(store) && Named(e) && admits(e.wf.namespace) && Current(store, e)
    ensures Apply(Filtered(store, admits), OperationOf(e)) == Filtered(store, admits)
  {}

  lemma WorkHealing(s: System, t: Thread, s': System, store: Cache, healed: bool, admits: string -> bool)
    requires Safe(s, admits) && Step(s, Worked(t), s', admits) && Healing(s, store, healed, admits)
    ensures Healing(s', store, healed, admits)
    ensures t == Reconciler && s.threads[t].sec.Entered? ==> Healing(s', store, true, admits)
  {
    HandlingOrder.WorkEffect(s, t, s', admits);
    var job := s.threads[t].job;
    assert JobFits(t, s.threads[t], admits);
    if Holding(s.threads[t]) {
      CurrentIsIdle(store, job.e, admits);
    }
  }

  lemma StepHealing(s: System, l: Label, s': System, store: Cache, healed: bool, admits: string -> bool)
    requires Safe(s, admits) && Step(s, l, s', admits) && !l.Changed?
    requires Healing(s, store, healed, admits)
    ensures Healing(s', store, healed, admits)
    ensures l == Worked(Reconciler) && s.threads[Reconciler].sec.Entered? ==> Healing(s', store, true, admits)
  {
    match l
    case Worked(t) => WorkHealing(s, t, s', store, healed, admits);
    case Listed(wfs) => ListingHeals(s, wfs, s', admits);
    case Resynced(key) =>
      assert Apply(s.store, OperationOf(Upsert(s.store[key]))) == s.store;
    case _ =>
  }

  lemma {:induction false} RunHealing(ss: seq<System>, ls: seq<Label>, j: nat, k: nat, i: nat, admits: string -> bool)
    requires Run(ss, ls, admits) && Safe(ss[0], admits) && j < i < |ss| && j < k
    requires ls[j].Listed? && NothingStale(ss[j])
    requires Convergence.Quiescent(ls, j, i) && Convergence.Replaces(ss, ls, k)
    ensures Healing(ss[i], ss[j].store, k < i, admits)
    decreases i
  {
    RunSafe(ss, ls, i - 1, admits);
    assert StepAt(ss, ls, i - 1, admits);
    if i == j + 1 {
      ListingHeals(ss[j], ls[j].wfs, ss[i], admits);
    } else {
      RunHealing(ss, ls, j, k, i - 1, admits);
      StepHealing(ss[i - 1], ls[i - 1], ss[i], ss[j].store, k < i - 1, admits);
    }
  }

  /**
   * Self-healing, with any number of workers. Suppose that when a reconcile lists (step j) nothing
   * stale is on its way, however wrong the cache may be by then. Once it replaces the cache (step k),
   * the cache is the filtered store at every later step up to the next store change, and whenever the
   * mutex is free the gauges show exactly the filtered store.
   */
  lemma ReconcileHeals(ss: seq<System>, ls: seq<Label>, workers: nat, j: nat, k: nat, i: nat, admits: string -> bool)
    requires Run(ss, ls, admits) && Initial(ss[0], workers) && j < k < i < |ss|
    requires ls[j].Listed? && NothingStale(ss[j])
    requires Convergence.Quiescent(ls, j, i) && Convergence.Replaces(ss, ls, k)
    ensures var s := ss[i]; var c := s.collector;
      && s.store == ss[j].store && c.cache == Filtered(s.store, admits)
      && (s.mutex.None? ==> Readings.Agrees(c.gauges, Filtered(s.store, admits), c.at, c.details))
  {
    InitiallySafe(ss[0], workers, admits);
    RunHealing(ss, ls, j, k, i, admits);
    RunSafe(ss, ls, i, admits);
  }

  /** The plain case: a listing taken when nothing at all is on its way. */
  lemma NothingIsNotStale(s: System)
    requires NothingOnItsWay(s)
    ensures NothingStale(s)
  {}
}
