/**
 * Workers that keep to lanes: of the events of one lane, say those about one object, no two are in
 * the workers' hands at once. Then each lane is handled in the order its events arose.
 */
module Lanes {
  import opened Workflows
  import opened Events
  import opened Protocol
  import opened HandlingOrder

  /** Of each lane, at most one event is in the workers' hands. */
  ghost predicate OneAtATime(s: System, lane: Event -> string)
  {
    forall t, u ::
      (&& t in s.threads && Holding(s.threads[t]) && u in s.threads && Holding(s.threads[u])
       && lane(s.threads[t].job.e) == lane(s.threads[u].job.e)) ==> t == u
  }

  /** Up to step `n` the workers never hold two events of one lane at once. */
  ghost predicate KeepsLanes(ss: seq<System>, n: nat, lane: Event -> string)
  {
    forall i :: 0 <= i <= n && i < |ss| ==> OneAtATime(ss[i], lane)
  }

  /** The lanes that matter: one for each object. */
  function ByKey(e: Event): string { KeyOf(e.wf) }

  predicate SameLane(h: History, p: nat, q: nat, lane: Event -> string)
    requires p < |h.admitted| && q < |h.admitted|
  {
    lane(h.admitted[p]) == lane(h.admitted[q])
  }

  /** All that has been handled of a lane was handled in the order it arose. */
  ghost predicate Ascending(h: History, lane: Event -> string)
    requires Sound(h)
  {
    forall i, j :: 0 <= i < j < |h.order| && SameLane(h, h.order[i], h.order[j], lane) ==> h.order[i] < h.order[j]
  }

  /** That, and no hand is behind. */
  ghost predicate LaneOrdered(threads: map<Thread, Activity>, h: History, lane: Event -> string)
    requires Sound(h)
  {
    && Ascending(h, lane)
    && (forall t :: t in threads && Holding(threads[t]) ==> AfterLane(threads[t].job, h, lane))
  }

  /** What is in hand arose later than all that has been handled of its lane. */
  ghost predicate AfterLane(job: Job, h: History, lane: Event -> string)
    requires Sound(h) && job.Handle?
  {
    forall i :: 0 <= i < |h.order| && lane(h.admitted[h.order[i]]) == lane(job.e) ==> h.order[i] < job.place
  }

  lemma TakenLaneOrdered(threads: map<Thread, Activity>, h: History, t: Thread, e: Event, lane: Event -> string)
    requires Sound(h) && LaneOrdered(threads, h, lane) && h.taken < |h.admitted|
    ensures Sound(h.(taken := h.taken + 1))
    ensures LaneOrdered(threads[t := Waiting(Handle(e, h.taken))], h.(taken := h.taken + 1), lane)
  {
    var after, h' := threads[t := Waiting(Handle(e, h.taken))], h.(taken := h.taken + 1);
    forall u | u in after && Holding(after[u]) ensures AfterLane(after[u].job, h', lane) {
      assert u != t ==> AfterLane(threads[u].job, h, lane);
    }
  }

  lemma HandledLaneOrdered(s: System, t: Thread, a: Activity, lane: Event -> string)
    requires Sound(s.history) && HandsTracked(s.threads, s.history) && LaneOrdered(s.threads, s.history, lane)
    requires OneAtATime(s, lane) && t in s.threads && Holding(s.threads[t]) && !Holding(a)
    ensures Sound(Wrote(s.history, s.threads[t].job))
    ensures LaneOrdered(s.threads[t := a], Wrote(s.history, s.threads[t].job), lane)
  {
    var h, job := s.history, s.threads[t].job;
    var after, h' := s.threads[t := a], Wrote(s.history, job);
    assert HandTracked(job, h) && AfterLane(job, h, lane);
    forall u | u in after && Holding(after[u]) ensures AfterLane(after[u].job, h', lane) {
      assert u != t && AfterLane(s.threads[u].job, h, lane);
    }
  }

  lemma ArisenLaneOrdered(threads: map<Thread, Activity>, h: History, e: Event, lane: Event -> string,
                          admits: string -> bool)
    requires Sound(h) && LaneOrdered(threads, h, lane)
    ensures Sound(Arose(h, e, admits)) && LaneOrdered(threads, Arose(h, e, admits), lane)
  {
    var h' := Arose(h, e, admits);
    forall i, j | 0 <= i < j < |h'.order| && SameLane(h', h'.order[i], h'.order[j], lane) ensures h'.order[i] < h'.order[j] {
      assert SameLane(h, h.order[i], h.order[j], lane);
    }
    forall u | u in threads && Holding(threads[u]) ensures AfterLane(threads[u].job, h', lane) {
      assert AfterLane(threads[u].job, h, lane);
    }
  }

  lemma OtherLaneOrdered(threads: map<Thread, Activity>, h: History, after: map<Thread, Activity>, h': History,
                         lane: Event -> string)
    requires Sound(h) && Sound(h') && LaneOrdered(threads, h, lane)
    requires h'.order == h.order && h'.admitted == h.admitted
    requires after.Keys == threads.Keys && forall t :: t in threads ==> SameHand(threads[t], after[t])
    ensures LaneOrdered(after, h', lane)
  {
    forall i, j | 0 <= i < j < |h'.order| && SameLane(h', h'.order[i], h'.order[j], lane) ensures h'.order[i] < h'.order[j] {
      assert SameLane(h, h.order[i], h.order[j], lane);
    }
    forall u | u in after && Holding(after[u]) ensures AfterLane(after[u].job, h', lane) {
      assert SameHand(threads[u], after[u]) && AfterLane(threads[u].job, h, lane);
    }
  }

  lemma OneLaneOrdered(threads: map<Thread, Activity>, h: History, t: Thread, a: Activity, lane: Event -> string)
    requires Sound(h) && LaneOrdered(threads, h, lane) && t in threads && SameHand(threads[t], a)
    ensures LaneOrdered(threads[t := a], h, lane)
  {
    OtherLaneOrdered(threads, h, threads[t := a], h, lane);
  }

  lemma WorkLaneOrdered(s: System, t: Thread, s': System, lane: Event -> string, admits: string -> bool)
    requires Tracked(s, admits) && Step(s, Worked(t), s', admits) && Sound(s'.history)
    requires LaneOrdered(s.threads, s.history, lane) && OneAtATime(s, lane)
    ensures LaneOrdered(s'.threads, s'.history, lane)
  {
    WorkEffect(s, t, s', admits);
    if Holding(s.threads[t]) {
      HandledLaneOrdered(s, t, s'.threads[t], lane);
    } else {
      OtherLaneOrdered(s.threads, s.history, s'.threads, s'.history, lane);
    }
  }

  /** The steps other than those of a goroutine inside. */
  lemma OutsideLaneOrdered(s: System, l: Label, s': System, lane: Event -> string, admits: string -> bool)
    requires Sound(s.history) && QueueTracked(s.pending, s.queue, s.history, admits)
    requires Step(s, l, s', admits) && Sound(s'.history) && !l.Worked?
    requires LaneOrdered(s.threads, s.history, lane)
    ensures LaneOrdered(s'.threads, s'.history, lane)
  {
    match l
    case Changed(e) => ArisenLaneOrdered(s.threads, s.history, e, lane, admits);
    case Resynced(key) => ArisenLaneOrdered(s.threads, s.history, Upsert(s.store[key]), lane, admits);
    case Got(t) => TakenLaneOrdered(s.threads, s.history, t, s.queue[0], lane);
    case Acquired(t) => OneLaneOrdered(s.threads, s.history, t, s'.threads[t], lane);
    case Released(t) => OneLaneOrdered(s.threads, s.history, t, Idle, lane);
    case Listed(_) => OtherLaneOrdered(s.threads, s.history, s'.threads, s'.history, lane);
    case Delivered =>
  }

  lemma StepLaneOrdered(s: System, l: Label, s': System, lane: Event -> string, admits: string -> bool)
    requires Tracked(s, admits) && Step(s, l, s', admits) && Sound(s'.history)
    requires LaneOrdered(s.threads, s.history, lane) && OneAtATime(s, lane)
    ensures LaneOrdered(s'.threads, s'.history, lane)
  {
    if l.Worked? {
      WorkLaneOrdered(s, l.t, s', lane, admits);
    } else {
      OutsideLaneOrdered(s, l, s', lane, admits);
    }
  }

  lemma NextLaneOrdered(ss: seq<System>, ls: seq<Label>, workers: nat, n: nat, lane: Event -> string,
                        admits: string -> bool)
    requires Run(ss, ls, admits) && Initial(ss[0], workers) && n + 1 < |ss| && OneAtATime(ss[n], lane)
    requires Sound(ss[n].history) && LaneOrdered(ss[n].threads, ss[n].history, lane)
    ensures Sound(ss[n + 1].history) && LaneOrdered(ss[n + 1].threads, ss[n + 1].history, lane)
  {
    RunTracked(ss, ls, workers, n, admits);
    RunTracked(ss, ls, workers, n + 1, admits);
    assert StepAt(ss, ls, n, admits);
    StepLaneOrdered(ss[n], ls[n], ss[n + 1], lane, admits);
  }

  lemma {:induction false} RunLaneOrdered(ss: seq<System>, ls: seq<Label>, workers: nat, n: nat,
                                          lane: Event -> string, admits: string -> bool)
    requires Run(ss, ls, admits) && Initial(ss[0], workers) && n < |ss| && KeepsLanes(ss, n, lane)
    ensures Sound(ss[n].history) && LaneOrdered(ss[n].threads, ss[n].history, lane)
    decreases n
  {
    if n > 0 {
      RunLaneOrdered(ss, ls, workers, n - 1, lane, admits);
      assert OneAtATime(ss[n - 1], lane);
      NextLaneOrdered(ss, ls, workers, n - 1, lane, admits);
    }
  }

  // ----- what keeping lanes means for the last word -----

  lemma PlaceOf(order: seq<nat>, p: nat) returns (j: nat)
    requires p in order
    ensures j < |order| && order[j] == p
  {
    j :| 0 <= j < |order| && order[j] == p;
  }

  /** Nothing about a key arose after the event handled last. */
  lemma NothingLater(h: History, key: string, i: nat, q: nat)
    requires Sound(h) && Ascending(h, ByKey) && q in h.order
    requires i < |HandledSince(h)| && KeyOf(HandledSince(h)[i].wf) == key
    requires forall j :: i < j < |HandledSince(h)| ==> KeyOf(HandledSince(h)[j].wf) != key
    requires h.order[h.since + i] < q < |h.admitted|
    ensures KeyOf(h.admitted[q].wf) != key
  {
    var j := PlaceOf(h.order, q);
    if h.since + i < j {
      assert HandledSince(h)[j - h.since] == h.admitted[q];
    } else {
      assert !SameLane(h, h.order[j], h.order[h.since + i], ByKey);
    }
  }

  /** If lanes are kept and everything has been handled, the event handled last about a key arose last. */
  lemma LastHandledAroseLast(h: History, key: string)
    requires Sound(h) && Ascending(h, ByKey)
    requires forall p: nat :: p < |h.admitted| ==> p in h.order
    requires Touches(HandledSince(h), key)
    ensures LastSaid(HandledSince(h), key) == LastSaid(h.admitted, key)
  {
    var handled := HandledSince(h);
    var i := LastTouch(handled, key);
    LastSaidIs(handled, key, i);
    var p := h.order[h.since + i];
    assert handled[i] == h.admitted[p];
    forall q: nat | p < q < |h.admitted| ensures KeyOf(h.admitted[q].wf) != key {
      NothingLater(h, key, i, q);
    }
    LastSaidIs(h.admitted, key, p);
  }

  // ----- a single worker -----

  lemma {:induction false} CrewStays(ss: seq<System>, ls: seq<Label>, workers: nat, n: nat, admits: string -> bool)
    requires Run(ss, ls, admits) && Initial(ss[0], workers) && n < |ss|
    ensures ss[n].threads.Keys == Crew(workers)
  {
    if n > 0 {
      CrewStays(ss, ls, workers, n - 1, admits);
      assert StepAt(ss, ls, n - 1, admits);
    }
  }

  /** A single worker keeps any lanes. */
  lemma SoloKeepsLanes(ss: seq<System>, ls: seq<Label>, n: nat, lane: Event -> string, admits: string -> bool)
    requires Run(ss, ls, admits) && Initial(ss[0], 1) && n < |ss|
    ensures KeepsLanes(ss, n, lane)
  {
    forall i | 0 <= i <= n ensures OneAtATime(ss[i], lane) {
      RunTracked(ss, ls, 1, i, admits);
      CrewStays(ss, ls, 1, i, admits);
      assert Crew(1) == Crew(0) + {Worker(0)} == {Reconciler, Worker(0)};
      assert Reconciler in ss[i].threads ==> JobFits(Reconciler, ss[i].threads[Reconciler], admits);
    }
  }

  /** Ascending places that leave out none are all the places in order. */
  lemma {:induction false} AscendingIsIdentity(order: seq<nat>, n: nat, i: nat)
    requires forall j, k :: 0 <= j < k < |order| ==> order[j] < order[k]
    requires forall p: nat :: p < n <==> p in order
    ensures i < |order| ==> i < n && order[i] == i
    ensures i < n ==> i < |order|
    decreases i
  {
    if i > 0 {
      AscendingIsIdentity(order, n, i - 1);
    }
    if i < |order| {
      assert order[i] in order;
      if order[i] != i {
        var j := PlaceOf(order, i);
      }
    }
    if i < n {
      var j := PlaceOf(order, i);
    }
  }
}
