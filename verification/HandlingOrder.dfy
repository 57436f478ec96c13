/**
 * The account behind the cache, for any number of workers: which notifications are on their way,
 * which have been handled and in what order, and what the cache owes to them.
 */
module HandlingOrder {
  import opened Wrappers
  import opened Workflows
  import opened Readings
  import opened Operations
  import opened Events
  import opened CriticalSection
  import opened Protocol

  // ----- listings -----

  /** Whatever order the store is listed in, filing the listing rebuilds the filtered store. */
  lemma ListingRebuilds(wfs: seq<Option<Workflow>>, cache: Cache)
    requires Lists(wfs, cache) && WellKeyed(cache)
    ensures Filed(wfs) == cache
  {
    forall k ensures At(Filed(wfs), k) == At(cache, k) {
      FiledAt(wfs, cache, k);
      if k in cache {
        assert Some(cache[k]) in wfs;
      }
    }
    SameEntries(Filed(wfs), cache);
  }

  lemma {:induction false} FiledAt(wfs: seq<Option<Workflow>>, cache: Cache, k: string)
    requires forall i :: 0 <= i < |wfs| ==> wfs[i].Some? && At(cache, KeyOf(wfs[i].value)) == wfs[i]
    requires WellKeyed(cache)
    ensures k in Filed(wfs) ==> k in cache && Filed(wfs)[k] == cache[k]
    ensures k in cache && Some(cache[k]) in wfs ==> k in Filed(wfs)
    decreases |wfs|
  {
    if wfs != [] {
      var n := |wfs| - 1;
      FiledAt(wfs[..n], cache, k);
      assert wfs == wfs[..n] + [wfs[n]];
    }
  }

  // ----- the events at given places of a history -----

  predicate InRange(places: seq<nat>, n: nat)
  {
    forall i :: 0 <= i < |places| ==> places[i] < n
  }

  function Picked(es: seq<Event>, places: seq<nat>): seq<Event>
    requires InRange(places, |es|)
  {
    seq(|places|, i requires 0 <= i < |places| => es[places[i]])
  }

  lemma PickedOne(es: seq<Event>, places: seq<nat>, p: nat)
    requires InRange(places, |es|) && p < |es|
    ensures InRange(places + [p], |es|) && Picked(es, places + [p]) == Picked(es, places) + [es[p]]
  {}

  lemma PickedGrows(es: seq<Event>, e: Event, places: seq<nat>)
    requires InRange(places, |es|)
    ensures Picked(es + [e], places) == Picked(es, places)
  {}

  // ----- the account -----

  /** The history makes sense of itself. */
  ghost predicate Sound(h: History)
  {
    && h.taken <= |h.admitted| && h.listed <= |h.admitted| && h.base <= |h.admitted|
    && h.since <= |h.order| && InRange(h.order, h.taken)
  }

  /** The filtered store as it was at the listing that last replaced the cache (empty before the first). */
  ghost function ListedStore(h: History): Cache
    requires Sound(h)
  {
    Replay(map[], h.admitted[..h.base])
  }

  /** The events handled since that replacement, in the order they were handled. */
  ghost function HandledSince(h: History): seq<Event>
    requires Sound(h)
  {
    Picked(h.admitted, h.order[h.since..])
  }

  /** The store is what its history says, and a listing in hand is what the store was when listed. */
  ghost predicate StoreTracked(store: Cache, threads: map<Thread, Activity>, h: History, admits: string -> bool)
    requires Sound(h)
  {
    && Filtered(store, admits) == Replay(map[], h.admitted)
    && (Reconciler in threads && ListingInHand(threads[Reconciler]) ==>
          Filed(threads[Reconciler].job.wfs) == Replay(map[], h.admitted[..h.listed]))
  }

  /** Notifications reach the workers in the order they arose. */
  ghost predicate QueueTracked(pending: seq<Event>, queue: seq<Event>, h: History, admits: string -> bool)
    requires Sound(h)
  {
    queue + Admitted(pending, admits) == h.admitted[h.taken..]
  }

  ghost predicate Holds(threads: map<Thread, Activity>, t: Thread, p: nat)
  {
    t in threads && Holding(threads[t]) && threads[t].job.place == p
  }

  /** Every notification taken from the queue is in one hand, or has been handled, and not twice. */
  ghost predicate HandsTracked(threads: map<Thread, Activity>, h: History)
    requires Sound(h)
  {
    && (forall t :: t in threads && Holding(threads[t]) ==> HandTracked(threads[t].job, h))
    && (forall t, u, p :: Holds(threads, t, p) && Holds(threads, u, p) ==> t == u)
    && (forall i, j :: 0 <= i < j < |h.order| ==> h.order[i] != h.order[j])
    && (forall p: nat :: p < h.taken ==> Accounted(threads, h.order, p))
  }

  /** The notification at place `p` has been handled, or is in some hand. */
  ghost predicate Accounted(threads: map<Thread, Activity>, order: seq<nat>, p: nat)
  {
    p in order || exists t :: Holds(threads, t, p)
  }

  ghost predicate HandTracked(job: Job, h: History)
    requires Sound(h) && job.Handle?
  {
    job.place < h.taken && job.place !in h.order && h.admitted[job.place] == job.e
  }

  /** The cache is the last listing with the events handled since replayed over it. */
  ghost predicate CacheTracked(cache: Cache, h: History)
    requires Sound(h)
  {
    cache == Replay(ListedStore(h), HandledSince(h))
  }

  ghost predicate AccountTracked(s: System, admits: string -> bool)
  {
    && Sound(s.history)
    && StoreTracked(s.store, s.threads, s.history, admits)
    && QueueTracked(s.pending, s.queue, s.history, admits)
    && HandsTracked(s.threads, s.history)
    && CacheTracked(s.collector.cache, s.history)
  }

  ghost predicate Tracked(s: System, admits: string -> bool)
  {
    Safe(s, admits) && AccountTracked(s, admits)
  }

  lemma InitiallyTracked(s: System, workers: nat, admits: string -> bool)
    requires Initial(s, workers)
    ensures Tracked(s, admits)
  {
    InitiallySafe(s, workers, admits);
  }

  // ----- a notification arises -----

  lemma AdmittedOne(es: seq<Event>, e: Event, admits: string -> bool)
    ensures Admitted(es + [e], admits) == Admit(Admitted(es, admits), e, admits)
  {}

  lemma ArisenCache(h: History, e: Event, admits: string -> bool)
    requires Sound(h)
    ensures Sound(Arose(h, e, admits))
    ensures ListedStore(Arose(h, e, admits)) == ListedStore(h)
    ensures HandledSince(Arose(h, e, admits)) == HandledSince(h)
  {
    PickedGrows(h.admitted, e, h.order[h.since..]);
    assert (h.admitted + [e])[..h.base] == h.admitted[..h.base];
  }

  lemma ArisenHands(threads: map<Thread, Activity>, h: History, e: Event, admits: string -> bool)
    requires Sound(h) && HandsTracked(threads, h)
    ensures Sound(Arose(h, e, admits)) && HandsTracked(threads, Arose(h, e, admits))
  {
    forall t | t in threads && Holding(threads[t]) ensures HandTracked(threads[t].job, Arose(h, e, admits)) {
      assert HandTracked(threads[t].job, h);
    }
  }

  lemma ArisenStore(store: Cache, threads: map<Thread, Activity>, h: History, e: Event, admits: string -> bool)
    requires Sound(h) && StoreTracked(store, threads, h, admits) && NamedCache(store) && Named(e)
    ensures Sound(Arose(h, e, admits))
    ensures StoreTracked(Apply(store, OperationOf(e)), threads, Arose(h, e, admits), admits)
  {
    FilterStep(store, e, admits);
    if admits(e.wf.namespace) {
      ReplayOne(map[], h.admitted, e);
      assert (h.admitted + [e])[..h.listed] == h.admitted[..h.listed];
    }
  }

  lemma AppendedSuffix<T>(xs: seq<T>, x: T, n: nat)
    requires n <= |xs|
    ensures (xs + [x])[n..] == xs[n..] + [x]
  {}

  lemma Associative<T>(xs: seq<T>, ys: seq<T>, zs: seq<T>)
    ensures xs + (ys + zs) == (xs + ys) + zs
  {}

  lemma ArisenQueue(pending: seq<Event>, queue: seq<Event>, h: History, e: Event, admits: string -> bool)
    requires Sound(h) && QueueTracked(pending, queue, h, admits)
    ensures QueueTracked(pending + [e], queue, Arose(h, e, admits), admits)
  {
    AdmittedOne(pending, e, admits);
    if admits(e.wf.namespace) {
      Associative(queue, Admitted(pending, admits), [e]);
      AppendedSuffix(h.admitted, e, h.taken);
    }
  }

  lemma NotifyTracked(s: System, e: Event, s': System, admits: string -> bool)
    requires AccountTracked(s, admits) && NamedCache(s.store) && Named(e) && s' == Notify(s, e, admits)
    ensures AccountTracked(s', admits)
  {
    ArisenCache(s.history, e, admits);
    ArisenHands(s.threads, s.history, e, admits);
    ArisenStore(s.store, s.threads, s.history, e, admits);
    ArisenQueue(s.pending, s.queue, s.history, e, admits);
  }

  // ----- it is delivered and taken -----

  lemma {:induction false} AdmittedFirst(es: seq<Event>, admits: string -> bool)
    requires es != []
    ensures Admitted(es, admits) == (if admits(es[0].wf.namespace) then [es[0]] else []) + Admitted(es[1..], admits)
    decreases |es|
  {
    var n := |es| - 1;
    if n > 0 {
      var front, first, rest := es[..n], if admits(es[0].wf.namespace) then [es[0]] else [], es[1..];
      AdmittedFirst(front, admits);
      assert front[1..] == rest[..n - 1] && rest[n - 1] == es[n];
      Associative(first, Admitted(rest[..n - 1], admits), if admits(es[n].wf.namespace) then [es[n]] else []);
    } else {
      assert es[..0] == [] && es[1..] == [];
    }
  }

  lemma DeliverTracked(pending: seq<Event>, queue: seq<Event>, h: History, admits: string -> bool)
    requires Sound(h) && QueueTracked(pending, queue, h, admits) && pending != []
    ensures QueueTracked(pending[1..], Admit(queue, pending[0], admits), h, admits)
  {
    AdmittedFirst(pending, admits);
    var next, rest := if admits(pending[0].wf.namespace) then [pending[0]] else [], Admitted(pending[1..], admits);
    Associative(queue, next, rest);
    assert next == [] ==> queue + next == queue;
  }

  lemma TakeTracked(pending: seq<Event>, queue: seq<Event>, h: History, admits: string -> bool)
    requires Sound(h) && QueueTracked(pending, queue, h, admits) && queue != []
    ensures h.taken < |h.admitted| && h.admitted[h.taken] == queue[0]
    ensures QueueTracked(pending, queue[1..], h.(taken := h.taken + 1), admits)
  {
    var all := queue + Admitted(pending, admits);
    assert all[0] == queue[0] && all[1..] == queue[1..] + Admitted(pending, admits);
    assert h.admitted[h.taken..][0] == h.admitted[h.taken];
    assert h.admitted[h.taken..][1..] == h.admitted[h.taken + 1..];
  }

  lemma TakeHands(threads: map<Thread, Activity>, h: History, t: Thread, e: Event)
    requires Sound(h) && HandsTracked(threads, h) && t in threads && !Holding(threads[t])
    requires h.taken < |h.admitted| && h.admitted[h.taken] == e
    ensures HandsTracked(threads[t := Waiting(Handle(e, h.taken))], h.(taken := h.taken + 1))
  {
    var after, h' := threads[t := Waiting(Handle(e, h.taken))], h.(taken := h.taken + 1);
    assert h.taken !in h.order;
    forall u | u in after && Holding(after[u]) ensures HandTracked(after[u].job, h') {
      assert u != t ==> HandTracked(threads[u].job, h);
    }
    forall u, v, p | Holds(after, u, p) && Holds(after, v, p) ensures u == v {
      assert u != t ==> Holds(threads, u, p) && HandTracked(threads[u].job, h);
      assert v != t ==> Holds(threads, v, p) && HandTracked(threads[v].job, h);
    }
    forall p: nat | p < h'.taken ensures Accounted(after, h'.order, p) {
      if p == h.taken {
        assert Holds(after, t, p);
      } else {
        assert Accounted(threads, h.order, p);
        if u :| Holds(threads, u, p) {
          assert Holds(after, u, p);
        }
      }
    }
  }

  lemma GetTracked(s: System, t: Thread, s': System, admits: string -> bool)
    requires AccountTracked(s, admits) && Step(s, Got(t), s', admits)
    ensures AccountTracked(s', admits)
  {
    TakeTracked(s.pending, s.queue, s.history, admits);
    TakeHands(s.threads, s.history, t, s.queue[0]);
  }

  // ----- it is applied -----

  lemma WroteSound(h: History, job: Job)
    requires Sound(h) && job.Handle? && HandTracked(job, h)
    ensures Sound(Wrote(h, job)) && ListedStore(Wrote(h, job)) == ListedStore(h)
    ensures HandledSince(Wrote(h, job)) == HandledSince(h) + [job.e]
  {
    var places := h.order[h.since..];
    assert (h.order + [job.place])[h.since..] == places + [job.place];
    PickedOne(h.admitted, places, job.place);
  }

  /** A worker's cache write replays its event. */
  lemma HandledCache(cache: Cache, h: History, job: Job)
    requires Sound(h) && CacheTracked(cache, h) && job.Handle? && HandTracked(job, h)
    ensures Sound(Wrote(h, job)) && CacheTracked(Apply(cache, OperationFor(job)), Wrote(h, job))
  {
    WroteSound(h, job);
    ReplayOne(ListedStore(h), HandledSince(h), job.e);
  }

  /** The reconciler's cache write starts the account afresh from its listing. */
  lemma ReplacedCache(h: History, job: Job)
    requires Sound(h) && job.Rebuild? && Filed(job.wfs) == Replay(map[], h.admitted[..h.listed])
    ensures Sound(Wrote(h, job)) && CacheTracked(Filed(job.wfs), Wrote(h, job))
  {
    assert HandledSince(Wrote(h, job)) == [];
  }

  /** An event handed over to the cache moves from its hand to the order of handling. */
  lemma HandledHands(threads: map<Thread, Activity>, h: History, t: Thread, a: Activity)
    requires Sound(h) && HandsTracked(threads, h)
    requires t in threads && Holding(threads[t]) && !Holding(a)
    ensures Sound(Wrote(h, threads[t].job)) && HandsTracked(threads[t := a], Wrote(h, threads[t].job))
  {
    var job := threads[t].job;
    var after, h' := threads[t := a], Wrote(h, job);
    assert HandTracked(job, h) && Holds(threads, t, job.place);
    forall u | u in after && Holding(after[u]) ensures HandTracked(after[u].job, h') {
      assert HandTracked(threads[u].job, h) && Holds(threads, u, threads[u].job.place);
    }
    forall u, v, p | Holds(after, u, p) && Holds(after, v, p) ensures u == v {
      assert Holds(threads, u, p) && Holds(threads, v, p);
    }
    forall p: nat | p < h'.taken ensures Accounted(after, h'.order, p) {
      assert Accounted(threads, h.order, p);
      if p == job.place {
        assert h'.order[|h.order|] == p;
      } else if p in h.order {
        assert p in h'.order;
      } else {
        var u :| Holds(threads, u, p);
        assert Holds(after, u, p);
      }
    }
  }

  ghost predicate SameHand(a: Activity, b: Activity)
  {
    if Holding(a) then Holding(b) && b.job == a.job else !Holding(b)
  }

  /** Activities may change as long as the hands stay the same. */
  lemma SameHands(threads: map<Thread, Activity>, after: map<Thread, Activity>, h: History, h': History)
    requires Sound(h) && HandsTracked(threads, h) && after.Keys == threads.Keys
    requires forall t :: t in threads ==> SameHand(threads[t], after[t])
    requires Sound(h') && h'.order == h.order && h'.taken == h.taken && h'.admitted == h.admitted
    ensures HandsTracked(after, h')
  {
    forall t, p ensures Holds(after, t, p) <==> Holds(threads, t, p) {}
    forall p: nat | p < h'.taken ensures Accounted(after, h'.order, p) {
      assert Accounted(threads, h.order, p);
      if t :| Holds(threads, t, p) {
        assert Holds(after, t, p);
      }
    }
    forall t | t in after && Holding(after[t]) ensures HandTracked(after[t].job, h') {
      assert HandTracked(threads[t].job, h);
    }
  }

  // ----- every step keeps it -----

  /** One activity may change as long as its hand stays the same. */
  lemma SameHandsBut(threads: map<Thread, Activity>, t: Thread, a: Activity, h: History, h': History)
    requires Sound(h) && HandsTracked(threads, h) && t in threads && SameHand(threads[t], a)
    requires Sound(h') && h'.order == h.order && h'.taken == h.taken && h'.admitted == h.admitted
    ensures HandsTracked(threads[t := a], h')
  {
    SameHands(threads, threads[t := a], h, h');
  }

  /** What a step inside the section does to the parts of the account. */
  lemma WorkEffect(s: System, t: Thread, s': System, admits: string -> bool)
    requires Safe(s, admits) && Step(s, Worked(t), s', admits)
    ensures var job, entered := s.threads[t].job, s.threads[t].sec.Entered?;
      && t in s'.threads && s'.threads == s.threads[t := s'.threads[t]]
      && s'.threads[t].Inside? && s'.threads[t].job == job && !s'.threads[t].sec.Entered?
      && s' == s.(collector := s'.collector, threads := s'.threads, history := s'.history)
      && s'.history == (if entered then Wrote(s.history, job) else s.history)
      && s'.collector.cache == if entered then Apply(s.collector.cache, OperationFor(job)) else s.collector.cache
  {
    var job, sec := s.threads[t].job, s.threads[t].sec;
    var sec' :| SectionStep(s.collector, sec, s'.collector, sec') && s'.threads == s.threads[t := Inside(job, sec')];
    SectionStepOk(s.collector, sec, s'.collector, sec');
  }

  /** A cache write leaves alone what is known about store and queue. */
  lemma WroteElsewhere(s: System, t: Thread, a: Activity, job: Job, admits: string -> bool)
    requires Sound(s.history) && Sound(Wrote(s.history, job)) && t in s.threads
    requires StoreTracked(s.store, s.threads, s.history, admits) && QueueTracked(s.pending, s.queue, s.history, admits)
    requires !ListingInHand(a)
    ensures StoreTracked(s.store, s.threads[t := a], Wrote(s.history, job), admits)
    ensures QueueTracked(s.pending, s.queue, Wrote(s.history, job), admits)
  {}

  /** The state after goroutine `t` has written the cache. */
  function AfterWrite(s: System, t: Thread, a: Activity, c: Collector): System
    requires t in s.threads && !s.threads[t].Idle?
  {
    s.(collector := c, threads := s.threads[t := a], history := Wrote(s.history, s.threads[t].job))
  }

  lemma HandleTracked(s: System, t: Thread, a: Activity, c: Collector, admits: string -> bool)
    requires AccountTracked(s, admits) && t in s.threads && Holding(s.threads[t])
    requires !Holding(a) && !ListingInHand(a)
    requires c.cache == Apply(s.collector.cache, OperationFor(s.threads[t].job))
    ensures AccountTracked(AfterWrite(s, t, a, c), admits)
  {
    var job := s.threads[t].job;
    assert HandTracked(job, s.history);
    HandledCache(s.collector.cache, s.history, job);
    HandledHands(s.threads, s.history, t, a);
    WroteElsewhere(s, t, a, job, admits);
  }

  lemma ReplaceTracked(s: System, t: Thread, a: Activity, c: Collector, admits: string -> bool)
    requires AccountTracked(s, admits) && t == Reconciler && t in s.threads && ListingInHand(s.threads[t])
    requires !Holding(a) && !ListingInHand(a)
    requires c.cache == Filed(s.threads[t].job.wfs)
    ensures AccountTracked(AfterWrite(s, t, a, c), admits)
  {
    var h, job := s.history, s.threads[t].job;
    ReplacedCache(h, job);
    WroteElsewhere(s, t, a, job, admits);
    SameHandsBut(s.threads, t, a, h, Wrote(h, job));
  }

  /** An activity may change as long as hand and listing stay the same. */
  lemma OtherTracked(s: System, t: Thread, a: Activity, s': System, admits: string -> bool)
    requires AccountTracked(s, admits) && t in s.threads && SameHand(s.threads[t], a)
    requires ListingInHand(a) ==> ListingInHand(s.threads[t]) && a.job == s.threads[t].job
    requires s'.store == s.store && s'.pending == s.pending && s'.queue == s.queue && s'.history == s.history
    requires s'.threads == s.threads[t := a] && s'.collector.cache == s.collector.cache
    ensures AccountTracked(s', admits)
  {
    SameHandsBut(s.threads, t, a, s.history, s.history);
  }

  lemma ListTracked(s: System, wfs: seq<Option<Workflow>>, s': System, admits: string -> bool)
    requires AccountTracked(s, admits) && NamedCache(s.store) && Step(s, Listed(wfs), s', admits)
    ensures AccountTracked(s', admits)
  {
    ListingRebuilds(wfs, Filtered(s.store, admits));
    assert s.history.admitted[..|s.history.admitted|] == s.history.admitted;
    SameHandsBut(s.threads, Reconciler, Waiting(Rebuild(wfs)), s.history, s'.history);
  }

  lemma WorkTracked(s: System, t: Thread, s': System, admits: string -> bool)
    requires Tracked(s, admits) && Step(s, Worked(t), s', admits)
    ensures AccountTracked(s', admits)
  {
    var job, a, c := s.threads[t].job, s'.threads[t], s'.collector;
    WorkEffect(s, t, s', admits);
    assert JobFits(t, s.threads[t], admits);
    if !s.threads[t].sec.Entered? {
      OtherTracked(s, t, a, s', admits);
    } else if job.Handle? {
      HandleTracked(s, t, a, c, admits);
      assert s' == AfterWrite(s, t, a, c);
    } else {
      ReplaceTracked(s, t, a, c, admits);
      assert s' == AfterWrite(s, t, a, c);
    }
  }

  lemma StepTracked(s: System, l: Label, s': System, admits: string -> bool)
    requires Tracked(s, admits) && Step(s, l, s', admits)
    ensures Tracked(s', admits)
  {
    StepSafe(s, l, s', admits);
    match l
    case Changed(e) => NotifyTracked(s, e, s', admits);
    case Resynced(key) => NotifyTracked(s, Upsert(s.store[key]), s', admits);
    case Delivered => DeliverTracked(s.pending, s.queue, s.history, admits);
    case Got(t) => GetTracked(s, t, s', admits);
    case Listed(wfs) => ListTracked(s, wfs, s', admits);
    case Acquired(t) =>
      assert JobFits(t, s.threads[t], admits);
      OtherTracked(s, t, s'.threads[t], s', admits);
    case Released(t) => OtherTracked(s, t, Idle, s', admits);
    case Worked(t) => WorkTracked(s, t, s', admits);
  }

  lemma {:induction false} RunTracked(ss: seq<System>, ls: seq<Label>, workers: nat, i: nat, admits: string -> bool)
    requires Run(ss, ls, admits) && Initial(ss[0], workers) && i < |ss|
    ensures Tracked(ss[i], admits)
  {
    if i == 0 {
      InitiallyTracked(ss[0], workers, admits);
    } else {
      RunTracked(ss, ls, workers, i - 1, admits);
      assert StepAt(ss, ls, i - 1, admits);
      StepTracked(ss[i - 1], ls[i - 1], ss[i], admits);
    }
  }
}
