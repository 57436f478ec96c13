/**
 * Work always ends: every step of a goroutine brings the end of the work closer, and only at rest is
 * there none to take. Two runs show why a drained queue alone does not mean that the cache is right.
 */
module Progress {
  import opened Wrappers
  import opened Workflows
  import opened Metrics
  import opened Readings
  import opened Operations
  import opened Events
  import opened CriticalSection
  import opened Protocol
  import HandlingOrder
  import Convergence
  import SelfHealing

  // ----- inside the critical section -----

  function Stage(sec: Section): nat
  {
    match sec
    case Entered(_) => 5
    case Deleting(_, _, _) => 4
    case Collecting(_, _) => 3
    case Counting => 2
    case Publishing(_, _) => 1
    case Finished => 0
  }

  function WorkflowsLeft(sec: Section): nat
  {
    match sec
    case Deleting(todo, _, _) => |todo|
    case Collecting(todo, _) => |todo|
    case _ => 0
  }

  function WritesLeft(sec: Section): nat
  {
    match sec
    case Deleting(_, labels, _) => |labels|
    case Collecting(_, writes) => |writes|
    case Publishing(writes, stale) => |writes| + |stale|
    case _ => 0
  }

  predicate Closer(sec': Section, sec: Section)
  {
    || Stage(sec') < Stage(sec)
    || (Stage(sec') == Stage(sec) &&
         (|| WorkflowsLeft(sec') < WorkflowsLeft(sec)
          || (WorkflowsLeft(sec') == WorkflowsLeft(sec) && WritesLeft(sec') < WritesLeft(sec))))
  }

  lemma FewerWrites(writes: Gauges, s: Series)
    requires s in writes
    ensures |writes - {s}| < |writes|
  {}

  lemma DeleteCloser(c: Collector, sec: Section, c': Collector, sec': Section)
    requires sec.Deleting? && DeleteStep(c, sec, c', sec')
    ensures Closer(sec', sec)
  {}

  lemma CollectCloser(c: Collector, sec: Section, c': Collector, sec': Section)
    requires sec.Collecting? && CollectStep(c, sec, c', sec')
    ensures Closer(sec', sec)
  {
    if s :| s in sec.writes && sec' == Collecting(sec.todo, sec.writes - {s}) {
      FewerWrites(sec.writes, s);
    }
  }

  lemma PublishCloser(c: Collector, sec: Section, c': Collector, sec': Section)
    requires sec.Publishing? && PublishStep(c, sec, c', sec')
    ensures Closer(sec', sec)
  {
    if s :| s in sec.writes && sec' == Publishing(sec.writes - {s}, sec.stale) {
      FewerWrites(sec.writes, s);
    }
  }

  /** Whatever step is taken inside the section, it brings the end of the section closer. */
  lemma SectionStepCloser(c: Collector, sec: Section, c': Collector, sec': Section)
    requires SectionStep(c, sec, c', sec')
    ensures Closer(sec', sec)
  {
    match sec
    case Deleting(_, _, _) => DeleteCloser(c, sec, c', sec');
    case Collecting(_, _) => CollectCloser(c, sec, c', sec');
    case Publishing(_, _) => PublishCloser(c, sec, c', sec');
    case _ =>
  }

  /** Short of the end there is always a step to take. */
  lemma NextStep(c: Collector, sec: Section) returns (c': Collector, sec': Section)
    requires !sec.Finished?
    ensures SectionStep(c, sec, c', sec')
  {
    match sec
    case Entered(op) =>
      if Ignored(op) {
        c', sec' := c, Finished;
      } else {
        c' := c.(cache := Apply(c.cache, op), at := Forget(c.at, Without(Apply(c.cache, op), Arriving(op)).Keys));
        sec' := if c.details then Deleting(Displaced(c.cache, op), {}, Arriving(op)) else Counting;
      }
    case Deleting(todo, labels, next) =>
      c' := c;
      if s :| s in labels {
        c', sec' := c.(gauges := c.gauges - {s}), Deleting(todo, labels - {s}, next);
      } else if wf :| wf in todo {
        sec' := Deleting(todo - {wf}, Footprint(wf), next);
      } else {
        sec' := Collecting(next, map[]);
      }
    case Collecting(todo, writes) => c', sec' := NextCollect(c, todo, writes);
    case Publishing(writes, stale) =>
      c' := c;
      if s :| s in writes {
        c', sec' := c.(gauges := c.gauges[s := writes[s]]), Publishing(writes - {s}, stale);
      } else if s :| s in stale {
        c', sec' := c.(gauges := c.gauges - {s}), Publishing(writes, stale - {s});
      } else {
        sec' := Finished;
      }
    case Counting =>
      c', sec' := c.(last := Totals(c.cache)), Publishing(TotalWrites(c.cache), c.last - Totals(c.cache));
  }

  lemma NextCollect(c: Collector, todo: set<Workflow>, writes: Gauges) returns (c': Collector, sec': Section)
    ensures CollectStep(c, Collecting(todo, writes), c', sec')
  {
    if s :| s in writes {
      c', sec' := c.(gauges := c.gauges[s := writes[s]]), Collecting(todo, writes - {s});
    } else if wf :| wf in todo {
      var now := 0;
      c', sec' := c.(at := c.at[KeyOf(wf) := now]), Collecting(todo - {wf}, DetailWrites(wf, now));
    } else {
      c', sec' := c, Counting;
    }
  }

  // ----- all work ends -----

  /** The steps the informer takes by itself; the others bring it new work. */
  predicate Internal(l: Label)
  {
    !l.Changed? && !l.Resynced? && !l.Listed?
  }

  function Busy(s: System): set<Thread>
  {
    set t | t in s.threads && !s.threads[t].Idle?
  }

  function InLine(s: System): set<Thread>
  {
    set t | t in s.threads && s.threads[t].Waiting?
  }

  /** How far the goroutine inside has got. */
  function Current(s: System): Section
  {
    if s.mutex.Some? && s.mutex.value in s.threads && s.threads[s.mutex.value].Inside?
    then s.threads[s.mutex.value].sec else Finished
  }

  /** Less is left to do, in lexicographic order. */
  predicate LessToDo(s': System, s: System)
  {
    || |s'.pending| < |s.pending|
    || (|s'.pending| == |s.pending| &&
         (|| |s'.queue| < |s.queue|
          || (|s'.queue| == |s.queue| &&
               (|| |InLine(s')| < |InLine(s)|
                || (|InLine(s')| == |InLine(s)| &&
                     (|Busy(s')| < |Busy(s)| || (|Busy(s')| == |Busy(s)| && Closer(Current(s'), Current(s)))))))))
  }

  lemma WorkLess(s: System, t: Thread, s': System, admits: string -> bool)
    requires Safe(s, admits) && Step(s, Worked(t), s', admits)
    ensures LessToDo(s', s)
  {
    var job, sec := s.threads[t].job, s.threads[t].sec;
    var sec' :| SectionStep(s.collector, sec, s'.collector, sec') && s'.threads == s.threads[t := Inside(job, sec')];
    SectionStepCloser(s.collector, sec, s'.collector, sec');
    assert Busy(s') == Busy(s) && InLine(s') == InLine(s);
    assert Current(s) == sec && Current(s') == sec';
  }

  lemma AcquireLess(s: System, t: Thread, s': System, admits: string -> bool)
    requires Step(s, Acquired(t), s', admits)
    ensures |InLine(s')| < |InLine(s)|
  {
    assert InLine(s) == InLine(s') + {t};
  }

  lemma ReleaseLess(s: System, t: Thread, s': System, admits: string -> bool)
    requires Step(s, Released(t), s', admits)
    ensures |InLine(s')| == |InLine(s)| && |Busy(s')| < |Busy(s)|
  {
    assert InLine(s') == InLine(s);
    assert Busy(s) == Busy(s') + {t};
  }

  /** Every step the informer takes by itself leaves less to do. */
  lemma InternalStepLess(s: System, l: Label, s': System, admits: string -> bool)
    requires Safe(s, admits) && Step(s, l, s', admits) && Internal(l)
    ensures LessToDo(s', s)
  {
    match l
    case Acquired(t) => AcquireLess(s, t, s', admits);
    case Released(t) => ReleaseLess(s, t, s', admits);
    case Worked(t) => WorkLess(s, t, s', admits);
    case _ =>
  }

  /** Step `i` of an infinite run. */
  ghost predicate Goes(run: nat -> System, labels: nat -> Label, i: nat, admits: string -> bool)
  {
    Step(run(i), labels(i), run(i + 1), admits)
  }

  /**
   * No endless work: however its goroutines are scheduled, the informer runs for ever only if it is
   * brought new work again and again, by store changes, resyncs or reconciles.
   */
  lemma {:induction false} NoEndlessWork(run: nat -> System, labels: nat -> Label, n: nat, admits: string -> bool)
    returns (m: nat)
    requires forall i :: Goes(run, labels, i, admits)
    requires Safe(run(n), admits)
    ensures m >= n && !Internal(labels(m))
    decreases |run(n).pending|, |run(n).queue|, |InLine(run(n))|, |Busy(run(n))|,
              Stage(Current(run(n))), WorkflowsLeft(Current(run(n))), WritesLeft(Current(run(n)))
  {
    m := n;
    assert Goes(run, labels, n, admits);
    if Internal(labels(n)) {
      StepSafe(run(n), labels(n), run(n + 1), admits);
      InternalStepLess(run(n), labels(n), run(n + 1), admits);
      m := NoEndlessWork(run, labels, n + 1, admits);
    }
  }

  // ----- reachability -----

  /** A run leads from `s` to `s'`; a `quiet` one brings no new work. */
  ghost predicate Reaches(s: System, s': System, quiet: bool, admits: string -> bool)
  {
    exists ss: seq<System>, ls: seq<Label> :: Leads(ss, ls, s, s', quiet, admits)
  }

  ghost predicate Leads(ss: seq<System>, ls: seq<Label>, s: System, s': System, quiet: bool, admits: string -> bool)
  {
    && Run(ss, ls, admits) && ss[0] == s && ss[|ss| - 1] == s'
    && (quiet ==> forall i :: 0 <= i < |ls| ==> Internal(ls[i]))
  }

  lemma Stays(s: System, quiet: bool, admits: string -> bool)
    ensures Reaches(s, s, quiet, admits)
  {
    assert Leads([s], [], s, s, quiet, admits);
  }

  lemma OneStep(s: System, l: Label, s': System, quiet: bool, admits: string -> bool)
    requires Step(s, l, s', admits) && (quiet ==> Internal(l))
    ensures Reaches(s, s', quiet, admits)
  {
    assert StepAt([s, s'], [l], 0, admits);
    assert Leads([s, s'], [l], s, s', quiet, admits);
  }

  lemma Join(s: System, mid: System, s': System, quiet: bool, admits: string -> bool)
    requires Reaches(s, mid, quiet, admits) && Reaches(mid, s', quiet, admits)
    ensures Reaches(s, s', quiet, admits)
  {
    var ss: seq<System>, ls: seq<Label> :| Leads(ss, ls, s, mid, quiet, admits);
    var tt: seq<System>, ms: seq<Label> :| Leads(tt, ms, mid, s', quiet, admits);
    var uu, ns := ss + tt[1..], ls + ms;
    forall i | 0 <= i < |ns| ensures StepAt(uu, ns, i, admits) {
      if i < |ls| {
        assert StepAt(ss, ls, i, admits);
      } else {
        assert StepAt(tt, ms, i - |ls|, admits);
      }
    }
    assert Leads(uu, ns, s, s', quiet, admits);
  }

  lemma QuietReaches(s: System, s': System, admits: string -> bool)
    requires Reaches(s, s', true, admits)
    ensures Reaches(s, s', false, admits)
  {
    var ss: seq<System>, ls: seq<Label> :| Leads(ss, ls, s, s', true, admits);
    assert Leads(ss, ls, s, s', false, admits);
  }

  lemma ReachesSafe(s: System, s': System, quiet: bool, admits: string -> bool)
    requires Safe(s, admits) && Reaches(s, s', quiet, admits)
    ensures Safe(s', admits)
  {
    var ss: seq<System>, ls: seq<Label> :| Leads(ss, ls, s, s', quiet, admits);
    RunSafe(ss, ls, |ss| - 1, admits);
  }

  // ----- it ends at rest -----

  /** Everything has come to rest: nothing on its way, nobody working, the mutex free. */
  ghost predicate AtRest(s: System)
  {
    && s.pending == [] && s.queue == [] && s.mutex.None?
    && forall t :: t in s.threads ==> s.threads[t].Idle?
  }

  lemma SectionGoesOn(s: System, t: Thread, admits: string -> bool) returns (l: Label, s': System)
    requires Safe(s, admits) && s.mutex == Some(t)
    ensures Internal(l) && Step(s, l, s', admits)
  {
    var job, sec := s.threads[t].job, s.threads[t].sec;
    if sec.Finished? {
      l, s' := Released(t), s.(mutex := None, threads := s.threads[t := Idle]);
    } else {
      var c', sec' := NextStep(s.collector, sec);
      l := Worked(t);
      s' := s.(collector := c', threads := s.threads[t := Inside(job, sec')],
               history := if sec.Entered? then Wrote(s.history, job) else s.history);
      assert Work(s, t, s');
    }
  }

  lemma SomeStep(s: System, admits: string -> bool) returns (l: Label, s': System)
    requires Safe(s, admits) && Worker(0) in s.threads && !AtRest(s)
    ensures Internal(l) && Step(s, l, s', admits)
  {
    if s.mutex.Some? {
      l, s' := SectionGoesOn(s, s.mutex.value, admits);
    } else if t :| t in s.threads && s.threads[t].Waiting? {
      var job := s.threads[t].job;
      l, s' := Acquired(t), s.(mutex := Some(t), threads := s.threads[t := Inside(job, Entered(OperationFor(job)))]);
    } else if s.pending != [] {
      l, s' := Delivered, s.(pending := s.pending[1..], queue := Admit(s.queue, s.pending[0], admits));
    } else {
      l := Got(Worker(0));
      s' := s.(queue := s.queue[1..], threads := s.threads[Worker(0) := Waiting(Handle(s.queue[0], s.history.taken))],
               history := s.history.(taken := s.history.taken + 1));
    }
  }

  /** The informer has nothing to do by itself exactly when everything has come to rest. */
  lemma StuckOnlyAtRest(s: System, admits: string -> bool)
    requires Safe(s, admits) && Worker(0) in s.threads
    ensures AtRest(s) <==> forall l, s' :: Internal(l) ==> !Step(s, l, s', admits)
  {
    if !AtRest(s) {
      var l, s' := SomeStep(s, admits);
    }
  }

  lemma InternalStepKeeps(s: System, l: Label, s': System, admits: string -> bool)
    requires Safe(s, admits) && Step(s, l, s', admits) && Internal(l)
    ensures s'.store == s.store && s'.threads.Keys == s.threads.Keys
  {}

  /** From any safe state, with any number of workers, everything can come to rest without a store change. */
  lemma {:induction false} ComesToRest(s: System, admits: string -> bool) returns (s': System)
    requires Safe(s, admits) && Worker(0) in s.threads
    ensures Reaches(s, s', true, admits) && Safe(s', admits) && AtRest(s')
    ensures s'.store == s.store && s'.threads.Keys == s.threads.Keys
    decreases |s.pending|, |s.queue|, |InLine(s)|, |Busy(s)|,
              Stage(Current(s)), WorkflowsLeft(Current(s)), WritesLeft(Current(s))
  {
    if AtRest(s) {
      Stays(s, true, admits);
      return s;
    }
    var l, next := SomeStep(s, admits);
    StepSafe(s, l, next, admits);
    InternalStepLess(s, l, next, admits);
    InternalStepKeeps(s, l, next, admits);
    s' := ComesToRest(next, admits);
    OneStep(s, l, next, true, admits);
    Join(s, next, s', true, admits);
  }

  // ----- recovery -----

  ghost predicate Recovering(s: System, store: Cache, admits: string -> bool)
  {
    && SelfHealing.Healing(s, store, false, admits) && Reconciler in s.threads
    && (ListingInHand(s.threads[Reconciler]) || s.collector.cache == Filtered(store, admits))
  }

  lemma StepRecovering(s: System, l: Label, s': System, store: Cache, admits: string -> bool)
    requires Safe(s, admits) && Step(s, l, s', admits) && !l.Changed? && Recovering(s, store, admits)
    ensures Recovering(s', store, admits)
  {
    SelfHealing.StepHealing(s, l, s', store, false, admits);
    if s.collector.cache == Filtered(store, admits) {
      SelfHealing.StepHealing(s, l, s', store, true, admits);
    } else {
      assert JobFits(Reconciler, s.threads[Reconciler], admits);
    }
  }

  /**
   * Recovery is inevitable: with any number of workers, take any run that starts with a reconcile
   * listing the store while nothing stale is on its way, and in which the store does not change.
   * Wherever it comes to rest, the cache is the filtered store.
   */
  lemma {:induction false} RestsRecovered(ss: seq<System>, ls: seq<Label>, n: nat, admits: string -> bool)
    requires Run(ss, ls, admits) && Safe(ss[0], admits) && SelfHealing.NothingStale(ss[0])
    requires 1 <= n < |ss| && ls[0].Listed? && Convergence.Quiescent(ls, 0, n)
    ensures Recovering(ss[n], ss[0].store, admits)
    ensures AtRest(ss[n]) ==> ss[n].collector.cache == Filtered(ss[n].store, admits)
    decreases n
  {
    RunSafe(ss, ls, n - 1, admits);
    assert StepAt(ss, ls, n - 1, admits);
    if n == 1 {
      SelfHealing.ListingHeals(ss[0], ls[0].wfs, ss[1], admits);
    } else {
      RestsRecovered(ss, ls, n - 1, admits);
      StepRecovering(ss[n - 1], ls[n - 1], ss[n], ss[0].store, admits);
    }
  }

  lemma RestRecovered(s: System, wfs: seq<Option<Workflow>>, mid: System, s': System, admits: string -> bool)
    requires Safe(s, admits) && SelfHealing.NothingStale(s) && Step(s, Listed(wfs), mid, admits)
    requires Reaches(mid, s', true, admits) && AtRest(s')
    ensures s'.collector.cache == Filtered(s'.store, admits)
  {
    var ss: seq<System>, ls: seq<Label> :| Leads(ss, ls, mid, s', true, admits);
    Prepended(s, Listed(wfs), ss, ls, admits);
    forall i | 0 <= i < |ls| + 1 ensures !([Listed(wfs)] + ls)[i].Changed? {
      assert i > 0 ==> Internal(ls[i - 1]);
    }
    RestsRecovered([s] + ss, [Listed(wfs)] + ls, |ss|, admits);
  }

  lemma Prepended(s: System, l: Label, ss: seq<System>, ls: seq<Label>, admits: string -> bool)
    requires Run(ss, ls, admits) && Step(s, l, ss[0], admits)
    ensures Run([s] + ss, [l] + ls, admits)
  {
    var tt, ms := [s] + ss, [l] + ls;
    forall i | 0 <= i < |ms| ensures StepAt(tt, ms, i, admits) {
      if i > 0 {
        assert StepAt(ss, ls, i - 1, admits);
      }
    }
  }

  lemma {:induction false} SomeListing(cache: Cache) returns (wfs: seq<Option<Workflow>>)
    requires WellKeyed(cache)
    ensures Lists(wfs, cache)
    decreases |cache|
  {
    if k :| k in cache {
      var rest := SomeListing(cache - {k});
      wfs := rest + [Some(cache[k])];
      forall i | 0 <= i < |wfs| ensures wfs[i].Some? && At(cache, KeyOf(wfs[i].value)) == wfs[i] {
        assert i < |rest| ==> At(cache - {k}, KeyOf(rest[i].value)) == rest[i];
      }
      forall l | l in cache ensures Some(cache[l]) in wfs {
        assert l != k ==> Some((cache - {k})[l]) in rest;
        assert wfs[|rest|] == Some(cache[k]);
      }
    } else {
      wfs := [];
    }
  }

  /**
   * And it is always within reach: from every safe state, with any number of workers and however wrong
   * the cache is, the system can come to rest with the filtered store in the cache, without any store
   * change.
   */
  lemma CanRecover(s: System, admits: string -> bool) returns (s': System)
    requires Safe(s, admits) && Worker(0) in s.threads && Reconciler in s.threads
    ensures Reaches(s, s', false, admits) && Safe(s', admits) && AtRest(s')
    ensures s'.store == s.store && s'.collector.cache == Filtered(s.store, admits)
  {
    var rest := ComesToRest(s, admits);
    var wfs := SomeListing(Filtered(s.store, admits));
    var listed := rest.(threads := rest.threads[Reconciler := Waiting(Rebuild(wfs))],
                        history := rest.history.(listed := |rest.history.admitted|));
    assert Step(rest, Listed(wfs), listed, admits);
    StepSafe(rest, Listed(wfs), listed, admits);
    s' := ComesToRest(listed, admits);
    SelfHealing.NothingIsNotStale(rest);
    RestRecovered(rest, wfs, listed, s', admits);
    QuietReaches(s, rest, admits);
    QuietReaches(listed, s', admits);
    OneStep(rest, Listed(wfs), listed, false, admits);
    Join(s, rest, listed, false, admits);
    Join(s, listed, s', false, admits);
  }

  // ----- a drained queue is not enough -----

  /** The goroutine inside can finish its operation and give the mutex back. */
  lemma {:induction false} HolderFinishes(s: System, t: Thread, admits: string -> bool) returns (s': System)
    requires Safe(s, admits) && s.mutex == Some(t)
    ensures Reaches(s, s', true, admits) && Safe(s', admits)
    ensures s' == s.(collector := s'.collector, threads := s.threads[t := Idle], mutex := None, history := s'.history)
    ensures var a := s.threads[t];
      && s'.history == (if a.sec.Entered? then Wrote(s.history, a.job) else s.history)
      && s'.collector.cache ==
         if a.sec.Entered? then Apply(s.collector.cache, OperationFor(a.job)) else s.collector.cache
    decreases Stage(s.threads[t].sec), WorkflowsLeft(s.threads[t].sec), WritesLeft(s.threads[t].sec)
  {
    var job, sec := s.threads[t].job, s.threads[t].sec;
    if sec.Finished? {
      s' := s.(mutex := None, threads := s.threads[t := Idle]);
      OneStep(s, Released(t), s', true, admits);
      StepSafe(s, Released(t), s', admits);
    } else {
      var c', sec' := NextStep(s.collector, sec);
      SectionStepCloser(s.collector, sec, c', sec');
      var next := s.(collector := c', threads := s.threads[t := Inside(job, sec')],
                     history := if sec.Entered? then Wrote(s.history, job) else s.history);
      assert Work(s, t, next);
      HandlingOrder.WorkEffect(s, t, next, admits);
      OneStep(s, Worked(t), next, true, admits);
      StepSafe(s, Worked(t), next, admits);
      s' := HolderFinishes(next, t, admits);
      assert next.threads[t := Idle] == s.threads[t := Idle];
      Join(s, next, s', true, admits);
    }
  }

  lemma GetsIn(s: System, t: Thread, admits: string -> bool) returns (s': System)
    requires t in s.threads && s.threads[t].Waiting? && s.mutex.None? && Safe(s, admits)
    ensures Reaches(s, s', false, admits) && Safe(s', admits)
    ensures var job := s.threads[t].job;
      s' == s.(mutex := Some(t), threads := s.threads[t := Inside(job, Entered(OperationFor(job)))])
  {
    var job := s.threads[t].job;
    s' := s.(mutex := Some(t), threads := s.threads[t := Inside(job, Entered(OperationFor(job)))]);
    OneStep(s, Acquired(t), s', false, admits);
    StepSafe(s, Acquired(t), s', admits);
  }

  /** A goroutine that waits while the mutex is free can run its job to the end. */
  lemma RunsJob(s: System, t: Thread, admits: string -> bool) returns (s': System)
    requires t in s.threads && s.threads[t].Waiting? && s.mutex.None? && Safe(s, admits)
    ensures Reaches(s, s', false, admits) && Safe(s', admits)
    ensures s' == s.(collector := s'.collector, threads := s.threads[t := Idle], history := s'.history)
    ensures s'.collector.cache == Apply(s.collector.cache, OperationFor(s.threads[t].job))
    ensures s'.history == Wrote(s.history, s.threads[t].job)
  {
    var inside := GetsIn(s, t, admits);
    s' := HolderFinishes(inside, t, admits);
    QuietReaches(inside, s', admits);
    assert inside.threads[t := Idle] == s.threads[t := Idle];
    Join(s, inside, s', false, admits);
  }

  /** Of two goroutines in line for the free mutex, either can go first. */
  lemma RunTwoJobs(s: System, t: Thread, u: Thread, admits: string -> bool) returns (s': System)
    requires t != u && t in s.threads && s.threads[t].Waiting? && u in s.threads && s.threads[u].Waiting?
    requires s.mutex.None? && Safe(s, admits)
    ensures Reaches(s, s', false, admits)
    ensures s' == s.(collector := s'.collector, threads := s.threads[t := Idle][u := Idle], history := s'.history)
    ensures s'.collector.cache ==
      Apply(Apply(s.collector.cache, OperationFor(s.threads[t].job)), OperationFor(s.threads[u].job))
  {
    var mid := RunsJob(s, t, admits);
    s' := RunsJob(mid, u, admits);
    Join(s, mid, s', false, admits);
  }

  function Started(crew: set<Thread>): System
  {
    System(map[], [], [], map t: Thread | t in crew :: Idle, None, Collector(false, map[], {}, map[], map[]),
           History([], 0, [], [], 0, 0, 0))
  }

  lemma Arrives(s: System, e: Event, t: Thread, admits: string -> bool) returns (s': System)
    requires Safe(s, admits) && Deliverable(e, admits) && e.Upsert?
    requires s.pending == [] && s.queue == [] && t.Worker? && t in s.threads && s.threads[t].Idle?
    ensures Reaches(s, s', false, admits) && Safe(s', admits)
    ensures s' == s.(store := Apply(s.store, OperationOf(e)),
                     threads := s.threads[t := Waiting(Handle(e, s.history.taken))], history := s'.history)
    ensures s'.history.taken == s.history.taken + 1
  {
    var s1 := Notify(s, e, admits);
    OneStep(s, Changed(e), s1, false, admits);
    var s2 := s1.(pending := [], queue := [e]);
    OneStep(s1, Delivered, s2, false, admits);
    Join(s, s1, s2, false, admits);
    s' := s2.(queue := [], threads := s2.threads[t := Waiting(Handle(e, s.history.taken))],
              history := s2.history.(taken := s.history.taken + 1));
    OneStep(s2, Got(t), s', false, admits);
    Join(s, s2, s', false, admits);
    ReachesSafe(s, s', false, admits);
  }

  /**
   * With a single worker: the store is listed empty, a workflow appears and is handled, and only then
   * does the listing replace the cache. Everything comes to rest with the workflow missing.
   */
  lemma StaleListingWins(wf: Workflow) returns (s: System, s': System)
    requires SlashFree(wf.namespace)
    ensures Initial(s, 1) && Reaches(s, s', false, ns => true) && AtRest(s')
    ensures s'.store == map[KeyOf(wf) := wf] && s'.collector.cache == map[]
  {
    var all := (ns: string) => true;
    s := Started(Crew(1));
    InitiallySafe(s, 1, all);
    assert Crew(1) == Crew(0) + {Worker(0)};
    var s1 := s.(threads := s.threads[Reconciler := Waiting(Rebuild([]))]);
    assert Filtered(s.store, all) == map[];
    OneStep(s, Listed([]), s1, false, all);
    StepSafe(s, Listed([]), s1, all);
    var s2 := Arrives(s1, Upsert(wf), Worker(0), all);
    Join(s, s1, s2, false, all);
    s' := RunTwoJobs(s2, Worker(0), Reconciler, all);
    Join(s, s2, s', false, all);
  }

  lemma CrewOfTwo()
    ensures Crew(2) == {Reconciler, Worker(0), Worker(1)}
  {
    assert Crew(1) == Crew(0) + {Worker(0)};
  }

  lemma BothTaken(older: Workflow, newer: Workflow, admits: string -> bool) returns (s: System, s': System)
    requires SlashFree(older.namespace) && KeyOf(older) == KeyOf(newer) && SlashFree(newer.namespace)
    requires admits(older.namespace) && admits(newer.namespace)
    ensures Initial(s, 2) && Reaches(s, s', false, admits) && Safe(s', admits)
    ensures s'.store == map[KeyOf(newer) := newer] && s'.collector.cache == map[]
    ensures s'.pending == [] && s'.queue == [] && s'.mutex == None
    ensures s'.threads.Keys == {Reconciler, Worker(0), Worker(1)} && s'.threads[Reconciler].Idle?
    ensures s'.threads[Worker(0)] == Waiting(Handle(Upsert(older), 0))
    ensures s'.threads[Worker(1)] == Waiting(Handle(Upsert(newer), 1))
  {
    s := Started(Crew(2));
    InitiallySafe(s, 2, admits);
    CrewOfTwo();
    var s1 := Arrives(s, Upsert(older), Worker(0), admits);
    s' := Arrives(s1, Upsert(newer), Worker(1), admits);
    Join(s, s1, s', false, admits);
  }

  /**
   * With two workers: two versions of a workflow arrive in order, but the second worker is faster.
   * Everything comes to rest with the older version in the cache.
   */
  lemma WorkersReorder(older: Workflow, newer: Workflow) returns (s: System, s': System)
    requires SlashFree(older.namespace) && KeyOf(older) == KeyOf(newer) && SlashFree(newer.namespace)
    ensures Initial(s, 2) && Reaches(s, s', false, ns => true) && AtRest(s')
    ensures s'.store == map[KeyOf(newer) := newer] && s'.collector.cache == map[KeyOf(newer) := older]
  {
    var all := (ns: string) => true;
    var taken: System;
    s, taken := BothTaken(older, newer, all);
    s' := RunTwoJobs(taken, Worker(1), Worker(0), all);
    Join(s, taken, s', false, all);
  }
}
