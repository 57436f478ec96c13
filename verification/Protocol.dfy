/**
 * The workflow informer as a transition system: the informer's store and its in-order
 * notifications, the namespace filter, the FIFO queue, any number of workers, the full reconcile,
 * and the mutex all collector operations run under.
 */
module Protocol {
  import opened Wrappers
  import opened Workflows
  import opened Readings
  import opened Operations
  import opened Events
  import opened CriticalSection

  datatype Thread = Worker(id: nat) | Reconciler

  /**
   * What a goroutine has in hand: an event from the queue, or a listing of the store. The place of an
   * event in the history is recorded with it but never consulted.
   */
  datatype Job = Handle(e: Event, place: nat) | Rebuild(wfs: seq<Option<Workflow>>)

  function OperationFor(job: Job): Operation
  {
    match job
    case Handle(e, _) => OperationOf(e)
    case Rebuild(wfs) => Replace(wfs)
  }

  datatype Activity =
    | Idle
    | Waiting(job: Job)                // before reconcileMu.Lock returns
    | Inside(job: Job, sec: Section)   // holding reconcileMu

  /** What has happened so far. Steps record it and never consult it. */
  datatype History = History(
    admitted: seq<Event>,              // the notifications that the filter lets through, as they arose
    taken: nat,                        // how many of them have been taken from the queue
    order: seq<nat>,                   // the places of those handled, in the order of their cache writes
    log: seq<Operation>,               // all collector operations, in the order of their cache writes
    listed: nat,                       // notifications admitted before the latest listing
    base: nat,                         // the same, for the listing that last replaced the cache
    since: nat)                        // events handled before that replacement

  datatype System = System(
    store: Cache,
    pending: seq<Event>,               // notifications not yet delivered to the handlers
    queue: seq<Event>,
    threads: map<Thread, Activity>,
    mutex: Option<Thread>,
    collector: Collector,
    history: History)

  datatype Label =
    | Changed(e: Event)
    | Resynced(key: string)
    | Delivered
    | Got(t: Thread)
    | Listed(wfs: seq<Option<Workflow>>)
    | Acquired(t: Thread)
    | Worked(t: Thread)
    | Released(t: Thread)

  function Admit(es: seq<Event>, e: Event, admits: string -> bool): seq<Event>
  {
    if admits(e.wf.namespace) then es + [e] else es
  }

  /** The store changes, or repeats itself on a resync, and a notification is queued for delivery. */
  function Notify(s: System, e: Event, admits: string -> bool): System
  {
    s.(store := Apply(s.store, OperationOf(e)), pending := s.pending + [e], history := Arose(s.history, e, admits))
  }

  function Arose(h: History, e: Event, admits: string -> bool): History
  {
    h.(admitted := Admit(h.admitted, e, admits))
  }

  /** The cache write of a job. */
  function Wrote(h: History, job: Job): History
  {
    if job.Handle? then h.(log := h.log + [OperationFor(job)], order := h.order + [job.place])
    else h.(log := h.log + [OperationFor(job)], base := h.listed, since := |h.order|)
  }

  /** A listing names every object of the store that passes the filter once, in any order. */
  ghost predicate Lists(wfs: seq<Option<Workflow>>, cache: Cache)
  {
    && (forall i :: 0 <= i < |wfs| ==> wfs[i].Some? && At(cache, KeyOf(wfs[i].value)) == wfs[i])
    && (forall k :: k in cache ==> Some(cache[k]) in wfs)
  }

  ghost predicate Work(s: System, t: Thread, s': System)
    requires t in s.threads && s.threads[t].Inside?
  {
    var job, sec := s.threads[t].job, s.threads[t].sec;
    exists sec' ::
      && SectionStep(s.collector, sec, s'.collector, sec')
      && s' == s.(collector := s'.collector,
                  threads := s.threads[t := Inside(job, sec')],
                  history := if sec.Entered? then Wrote(s.history, job) else s.history)
  }

  ghost predicate Step(s: System, l: Label, s': System, admits: string -> bool)
  {
    match l
    case Changed(e) =>
      && Named(e) && (e.Remove? ==> KeyOf(e.wf) in s.store)
      && s' == Notify(s, e, admits)
    case Resynced(key) =>
      && key in s.store
      && s' == Notify(s, Upsert(s.store[key]), admits)
    case Delivered =>
      && s.pending != []
      && s' == s.(pending := s.pending[1..], queue := Admit(s.queue, s.pending[0], admits))
    case Got(t) =>
      && t.Worker? && t in s.threads && s.threads[t].Idle? && s.queue != []
      && s' == s.(queue := s.queue[1..], threads := s.threads[t := Waiting(Handle(s.queue[0], s.history.taken))],
                  history := s.history.(taken := s.history.taken + 1))
    case Listed(wfs) =>
      && Reconciler in s.threads && s.threads[Reconciler].Idle?
      && Lists(wfs, Filtered(s.store, admits))
      && s' == s.(threads := s.threads[Reconciler := Waiting(Rebuild(wfs))], 
                  history := s.history.(listed := |s.history.admitted|))
    case Acquired(t) =>
      && t in s.threads && s.threads[t].Waiting? && s.mutex.None?
      && s' == s.(mutex := Some(t),
                  threads := s.threads[t := Inside(s.threads[t].job, Entered(OperationFor(s.threads[t].job)))])
    case Worked(t) =>
      && t in s.threads && s.threads[t].Inside?
      && Work(s, t, s')
    case Released(t) =>
      && t in s.threads && s.threads[t].Inside? && s.threads[t].sec.Finished?
      && s' == s.(mutex := None, threads := s.threads[t := Idle])
  }

  ghost predicate Initial(s: System, workers: nat)
  {
    && s.store == map[] && s.pending == [] && s.queue == []
    && s.threads == (map t: Thread | t in Crew(workers) :: Idle)
    && s.mutex == None
    && s.collector == Collector(s.collector.details, map[], {}, map[], map[])
    && s.history == History([], 0, [], [], 0, 0, 0)
  }

  function Crew(workers: nat): set<Thread>
  {
    if workers == 0 then {Reconciler} else Crew(workers - 1) + {Worker(workers - 1)}
  }

  ghost predicate StepAt(ss: seq<System>, ls: seq<Label>, i: nat, admits: string -> bool)
  {
    i < |ls| && i + 1 < |ss| && Step(ss[i], ls[i], ss[i + 1], admits)
  }

  /** A finite run: states, and the step taken from each to the next. */
  ghost predicate Run(ss: seq<System>, ls: seq<Label>, admits: string -> bool)
  {
    && |ss| == |ls| + 1
    && forall i :: 0 <= i < |ls| ==> StepAt(ss, ls, i, admits)
  }

  // ----- what every run keeps -----

  /** The goroutine has taken an event and not applied it to the cache yet. */
  predicate Holding(a: Activity)
  {
    match a
    case Waiting(Handle(_, _)) => true
    case Inside(Handle(_, _), Entered(_)) => true
    case _ => false
  }

  /** The reconciler has a listing that has not replaced the cache yet. */
  predicate ListingInHand(a: Activity)
  {
    match a
    case Waiting(Rebuild(_)) => true
    case Inside(Rebuild(_), Entered(_)) => true
    case _ => false
  }

  predicate Deliverable(e: Event, admits: string -> bool)
  {
    Named(e) && admits(e.wf.namespace)
  }

  predicate AllDeliverable(es: seq<Event>, admits: string -> bool)
  {
    forall i :: 0 <= i < |es| ==> Deliverable(es[i], admits)
  }

  ghost predicate JobFits(t: Thread, a: Activity, admits: string -> bool)
  {
    && (t.Worker? && !a.Idle? ==> a.job.Handle? && Deliverable(a.job.e, admits))
    && (t.Reconciler? && !a.Idle? ==> a.job.Rebuild?)
    && (a.Inside? && a.sec.Entered? ==> a.sec.op == OperationFor(a.job))
  }

  ghost predicate Safe(s: System, admits: string -> bool)
  {
    && NamedCache(s.store) && AllNamed(s.pending) && AllDeliverable(s.queue, admits)
    && (forall t :: t in s.threads ==> JobFits(t, s.threads[t], admits))
    && (forall t :: t in s.threads ==> (s.threads[t].Inside? <==> s.mutex == Some(t)))
    && (s.mutex.Some? ==> s.mutex.value in s.threads && SectionOk(s.collector, s.threads[s.mutex.value].sec))
    && (s.mutex.None? ==> InStep(s.collector))
    && s.collector.cache == ApplyAll(map[], s.history.log)
  }

  lemma InitiallySafe(s: System, workers: nat, admits: string -> bool)
    requires Initial(s, workers)
    ensures Safe(s, admits)
  {}

  lemma StepSafe(s: System, l: Label, s': System, admits: string -> bool)
    requires Safe(s, admits) && Step(s, l, s', admits)
    ensures Safe(s', admits)
  {
    match l
    case Changed(e) => FilterStep(s.store, e, admits);
    case Resynced(key) => FilterStep(s.store, Upsert(s.store[key]), admits);
    case Worked(t) => WorkSafe(s, t, s', admits);
    case _ =>
  }

  lemma WorkSafe(s: System, t: Thread, s': System, admits: string -> bool)
    requires Safe(s, admits) && t in s.threads && s.threads[t].Inside? && Work(s, t, s')
    ensures Safe(s', admits)
  {
    var job, sec := s.threads[t].job, s.threads[t].sec;
    var sec' :| SectionStep(s.collector, sec, s'.collector, sec') && s'.threads == s.threads[t := Inside(job, sec')];
    SectionStepOk(s.collector, sec, s'.collector, sec');
    if sec.Entered? {
      assert s'.history.log[..|s.history.log|] == s.history.log;
    }
  }

  lemma {:induction false} RunSafe(ss: seq<System>, ls: seq<Label>, i: nat, admits: string -> bool)
    requires Run(ss, ls, admits) && Safe(ss[0], admits) && i < |ss|
    ensures Safe(ss[i], admits)
  {
    if i > 0 {
      RunSafe(ss, ls, i - 1, admits);
      assert StepAt(ss, ls, i - 1, admits);
      StepSafe(ss[i - 1], ls[i - 1], ss[i], admits);
    }
  }

  /**
   * The mutex makes the collector linear: with any number of workers and the reconciler
   * interleaving gauge write by gauge write, whenever the mutex is free the gauges show exactly
   * what the operations so far, taken one after the other in the order they got the lock, call for.
   */
  lemma MutexLinearises(ss: seq<System>, ls: seq<Label>, workers: nat, i: nat, admits: string -> bool)
    requires Run(ss, ls, admits) && Initial(ss[0], workers) && i < |ss| && ss[i].mutex.None?
    ensures var c := ss[i].collector;
      c.cache == ApplyAll(map[], ss[i].history.log) && Agrees(c.gauges, ApplyAll(map[], ss[i].history.log), c.at, c.details)
  {
    InitiallySafe(ss[0], workers, admits);
    RunSafe(ss, ls, i, admits);
  }

  /** Never two goroutines inside. */
  lemma MutualExclusion(ss: seq<System>, ls: seq<Label>, workers: nat, i: nat, t: Thread, u: Thread,
                        admits: string -> bool)
    requires Run(ss, ls, admits) && Initial(ss[0], workers) && i < |ss|
    requires t in ss[i].threads && ss[i].threads[t].Inside? && u in ss[i].threads && ss[i].threads[u].Inside?
    ensures t == u
  {
    InitiallySafe(ss[0], workers, admits);
    RunSafe(ss, ls, i, admits);
  }
}
