/** When does the cache catch up with the informer's store? */
module Convergence {
  import opened Wrappers
  import opened Workflows
  import opened Readings
  import opened Operations
  import opened Events
  import opened Protocol
  import opened HandlingOrder
  import opened Lanes

  // ----- the exact condition, key by key -----

  /**
   * What was done about a key since the replacement leaves there what it should. If events about it
   * have been handled since, the one handled last says what the one that arose last says; if not, then
   * whatever arose about it after the listing (and either overtook the listing or is still on its way)
   * ends with what was listed.
   */
  ghost predicate Settled(h: History, key: string)
    requires Sound(h)
  {
    if Touches(HandledSince(h), key) then LastSaid(HandledSince(h), key) == LastSaid(h.admitted, key)
    else Touches(h.admitted[h.base..], key) ==> LastSaid(h.admitted[h.base..], key) == At(ListedStore(h), key)
  }

  lemma TouchesPicked(es: seq<Event>, places: seq<nat>, key: string)
    requires InRange(places, |es|) && Touches(Picked(es, places), key)
    ensures Touches(es, key)
  {
    var i :| 0 <= i < |places| && KeyOf(Picked(es, places)[i].wf) == key;
    assert KeyOf(es[places[i]].wf) == key;
  }

  /** At each key, the filtered store is the listing with everything that arose after it replayed over it. */
  lemma StoreSinceListing(h: History)
    requires Sound(h)
    ensures Replay(map[], h.admitted) == Replay(ListedStore(h), h.admitted[h.base..])
  {
    assert h.admitted == h.admitted[..h.base] + h.admitted[h.base..];
    ReplayJoin(map[], h.admitted[..h.base], h.admitted[h.base..]);
  }

  lemma RightWhereSettled(h: History, key: string)
    requires Sound(h)
    ensures At(Replay(ListedStore(h), HandledSince(h)), key) == At(Replay(map[], h.admitted), key) <==> Settled(h, key)
  {
    var handled, arisen := HandledSince(h), h.admitted[h.base..];
    ReplayAt(ListedStore(h), handled, key);
    if Touches(handled, key) {
      TouchesPicked(h.admitted, h.order[h.since..], key);
      ReplayAt(map[], h.admitted, key);
    } else {
      StoreSinceListing(h);
      ReplayAt(ListedStore(h), arisen, key);
    }
  }

  /**
   * The exact condition, in every reachable state and with any number of workers: the cache is the
   * filtered store if and only if every key is settled.
   */
  lemma CacheIsStore(ss: seq<System>, ls: seq<Label>, workers: nat, n: nat, admits: string -> bool)
    requires Run(ss, ls, admits) && Initial(ss[0], workers) && n < |ss|
    ensures var s := ss[n];
      && Sound(s.history)
      && (s.collector.cache == Filtered(s.store, admits) <==> forall key :: Settled(s.history, key))
  {
    RunTracked(ss, ls, workers, n, admits);
    var s := ss[n];
    forall key ensures At(s.collector.cache, key) == At(Filtered(s.store, admits), key) <==> Settled(s.history, key) {
      RightWhereSettled(s.history, key);
    }
    if forall key :: Settled(s.history, key) {
      SameEntries(s.collector.cache, Filtered(s.store, admits));
    }
  }

  // ----- nothing is lost, nothing handled twice -----

  /** Nothing that passes the filter is on its way to the cache. */
  ghost predicate Drained(s: System, admits: string -> bool)
  {
    && Admitted(s.pending, admits) == [] && s.queue == []
    && forall t :: t in s.threads ==> !Holding(s.threads[t])
  }

  /** With any number of workers, once drained every admitted notification has been handled exactly once. */
  lemma HandledExactlyOnce(ss: seq<System>, ls: seq<Label>, workers: nat, n: nat, admits: string -> bool)
    requires Run(ss, ls, admits) && Initial(ss[0], workers) && n < |ss| && Drained(ss[n], admits)
    ensures var h := ss[n].history;
      && (forall i, j :: 0 <= i < j < |h.order| ==> h.order[i] != h.order[j])
      && (forall p: nat :: p < |h.admitted| <==> p in h.order)
  {
    RunTracked(ss, ls, workers, n, admits);
    var s := ss[n];
    assert s.history.admitted[s.history.taken..] == [];
    assert s.history.taken == |s.history.admitted|;
    forall p: nat | p < s.history.taken ensures p in s.history.order {
      assert Accounted(s.threads, s.history.order, p);
      assert forall t :: !Holds(s.threads, t, p);
    }
  }

  // ----- the exact condition, if no two workers hold one object's events -----

  /** An event about the key arose after the listing and was handled before the listing replaced the cache. */
  ghost predicate Overtaken(h: History, key: string)
    requires Sound(h)
  {
    Touches(h.admitted[h.base..], key) && !Touches(HandledSince(h), key)
  }

  /**
   * Any number of workers, of which no two ever hold events about one object at once: when everything
   * has been handled, the cache is the filtered store if and only if no event that overtook the listing
   * behind the cache says anything else than the listing.
   */
  lemma DrainedConverges(ss: seq<System>, ls: seq<Label>, workers: nat, n: nat, admits: string -> bool)
    requires Run(ss, ls, admits) && Initial(ss[0], workers) && n < |ss|
    requires KeepsLanes(ss, n, ByKey) && Drained(ss[n], admits)
    ensures var s := ss[n]; var h := s.history;
      && Sound(h)
      && (s.collector.cache == Filtered(s.store, admits) <==>
          forall key :: Overtaken(h, key) ==> LastSaid(h.admitted[h.base..], key) == At(ListedStore(h), key))
  {
    CacheIsStore(ss, ls, workers, n, admits);
    RunLaneOrdered(ss, ls, workers, n, ByKey, admits);
    HandledExactlyOnce(ss, ls, workers, n, admits);
    var h := ss[n].history;
    forall key
      ensures Settled(h, key) <==>
        (Overtaken(h, key) ==> LastSaid(h.admitted[h.base..], key) == At(ListedStore(h), key))
    {
      if Touches(HandledSince(h), key) {
        LastHandledAroseLast(h, key);
      }
    }
  }

  /** If no event overtook the listing, the cache converges. */
  lemma NothingOvertook(ss: seq<System>, ls: seq<Label>, workers: nat, n: nat, admits: string -> bool)
    requires Run(ss, ls, admits) && Initial(ss[0], workers) && n < |ss|
    requires KeepsLanes(ss, n, ByKey) && Drained(ss[n], admits)
    requires var h := ss[n].history; forall i :: 0 <= i < h.since && i < |h.order| ==> h.order[i] < h.base
    ensures ss[n].collector.cache == Filtered(ss[n].store, admits)
  {
    DrainedConverges(ss, ls, workers, n, admits);
    HandledExactlyOnce(ss, ls, workers, n, admits);
    var h := ss[n].history;
    forall key ensures !Overtaken(h, key) {
      if Touches(h.admitted[h.base..], key) {
        var i :| 0 <= i < |h.admitted[h.base..]| && KeyOf(h.admitted[h.base..][i].wf) == key;
        var j := PlaceOf(h.order, h.base + i);
        assert HandledSince(h)[j - h.since] == h.admitted[h.base + i];
      }
    }
  }

  // ----- a single worker -----

  /** With one worker, what has been handled since the replacement is the rest of the history. */
  lemma SoloHandlesInOrder(ss: seq<System>, ls: seq<Label>, n: nat, admits: string -> bool)
    requires Run(ss, ls, admits) && Initial(ss[0], 1) && n < |ss| && Drained(ss[n], admits)
    ensures var h := ss[n].history;
      && Sound(h) && h.since <= |h.admitted|
      && HandledSince(h) == h.admitted[h.since..]
  {
    var h := ss[n].history;
    SoloKeepsLanes(ss, ls, n, e => "", admits);
    RunLaneOrdered(ss, ls, 1, n, e => "", admits);
    HandledExactlyOnce(ss, ls, 1, n, admits);
    forall i: nat ensures i < |h.order| ==> i < |h.admitted| && h.order[i] == i
      ensures i < |h.admitted| ==> i < |h.order|
    {
      AscendingIsIdentity(h.order, |h.admitted|, i);
    }
    assert |h.order| == |h.admitted| by {
      AscendingIsIdentity(h.order, |h.admitted|, |h.order|);
      AscendingIsIdentity(h.order, |h.admitted|, |h.admitted|);
    }
  }

  /**
   * With a single worker, once everything has been handled: the cache is the filtered store if and only
   * if the events handled between the listing and the replacement, where nothing was handled about
   * their object after it, say what the listing says. If there are no such events, it always is.
   */
  lemma SoloConverges(ss: seq<System>, ls: seq<Label>, n: nat, admits: string -> bool)
    requires Run(ss, ls, admits) && Initial(ss[0], 1) && n < |ss| && Drained(ss[n], admits)
    ensures var s := ss[n]; var h := s.history;
      && Sound(h) && h.since <= |h.admitted|
      && (h.since <= h.base ==> s.collector.cache == Filtered(s.store, admits))
      && (s.collector.cache == Filtered(s.store, admits) <==>
          forall key ::
            (&& h.base <= h.since && Touches(h.admitted[h.base..h.since], key)
             && !Touches(h.admitted[h.since..], key)) ==>
              LastSaid(h.admitted[h.base..h.since], key) == At(ListedStore(h), key))
  {
    SoloKeepsLanes(ss, ls, n, ByKey, admits);
    DrainedConverges(ss, ls, 1, n, admits);
    SoloHandlesInOrder(ss, ls, n, admits);
    var h := ss[n].history;
    forall key
      ensures Overtaken(h, key) <==>
        h.base <= h.since && Touches(h.admitted[h.base..h.since], key) && !Touches(h.admitted[h.since..], key)
      ensures Overtaken(h, key) ==> LastSaid(h.admitted[h.base..], key) == LastSaid(h.admitted[h.base..h.since], key)
    {
      if !Touches(h.admitted[h.since..], key) {
        SplitHistory(h.admitted, h.base, h.since, key);
      }
    }
  }

  /** Whether the part of a history from `base` on touches a key, seen from a second cut at `since`. */
  lemma SplitHistory(es: seq<Event>, base: nat, since: nat, key: string)
    requires base <= |es| && since <= |es| && !Touches(es[since..], key)
    ensures Touches(es[base..], key) <==> base <= since && Touches(es[base..since], key)
    ensures base <= since && Touches(es[base..], key) ==> LastSaid(es[base..], key) == LastSaid(es[base..since], key)
  {
    forall i | since <= i < |es| ensures KeyOf(es[i].wf) != key {
      assert es[since..][i - since] == es[i];
    }
    if Touches(es[base..], key) {
      var i := LastTouch(es[base..], key);
      assert es[base..][i] == es[base + i] == es[base..since][i];
      LastSaidIs(es[base..], key, i);
      forall j | i < j < since - base ensures KeyOf(es[base..since][j].wf) != key {
        assert es[base..since][j] == es[base..][j];
      }
      LastSaidIs(es[base..since], key, i);
    }
    if base <= since && Touches(es[base..since], key) {
      var i :| 0 <= i < since - base && KeyOf(es[base..since][i].wf) == key;
      assert es[base..][i] == es[base..since][i];
    }
  }

  // ----- when the store stops changing -----

  /** No store change from step `from` up to step `to`; resyncs may happen. */
  ghost predicate Quiescent(ls: seq<Label>, from: nat, to: nat)
  {
    forall i :: from <= i < to && i < |ls| ==> !ls[i].Changed?
  }

  /** Step `i` is the one in which the reconciler swaps the cache. */
  ghost predicate Replaces(ss: seq<System>, ls: seq<Label>, i: nat)
  {
    && i < |ls| && i < |ss| && ls[i] == Worked(Reconciler)
    && Reconciler in ss[i].threads && ss[i].threads[Reconciler].Inside? && ss[i].threads[Reconciler].sec.Entered?
  }

  /** The latest listing shows the store as it is, and so does the one behind the cache if `replaced`. */
  ghost predicate UpToDate(s: System, store: Cache, replaced: bool, admits: string -> bool)
  {
    && s.store == store && Sound(s.history)
    && Replay(map[], s.history.admitted[..s.history.listed]) == Filtered(store, admits)
    && (replaced ==> ListedStore(s.history) == Filtered(store, admits))
  }

  lemma ListedUpToDate(s: System, wfs: seq<Option<Workflow>>, s': System, admits: string -> bool)
    requires Tracked(s, admits) && Step(s, Listed(wfs), s', admits)
    ensures UpToDate(s', s.store, false, admits)
    ensures UpToDate(s, s.store, true, admits) ==> UpToDate(s', s.store, true, admits)
  {
    assert s.history.admitted[..|s.history.admitted|] == s.history.admitted;
  }

  lemma ResyncedUpToDate(s: System, key: string, store: Cache, replaced: bool, admits: string -> bool)
    requires Tracked(s, admits) && UpToDate(s, store, replaced, admits) && key in s.store
    ensures UpToDate(Notify(s, Upsert(s.store[key]), admits), store, replaced, admits)
  {
    var h, e := s.history, Upsert(s.store[key]);
    assert Apply(s.store, OperationOf(e)) == s.store;
    assert (h.admitted + [e])[..h.base] == h.admitted[..h.base];
    assert (h.admitted + [e])[..h.listed] == h.admitted[..h.listed];
  }

  lemma WorkUpToDate(s: System, t: Thread, s': System, store: Cache, replaced: bool, admits: string -> bool)
    requires Tracked(s, admits) && Sound(s'.history) && Step(s, Worked(t), s', admits)
    requires UpToDate(s, store, replaced, admits)
    ensures UpToDate(s', store, replaced || (t == Reconciler && s.threads[t].sec.Entered?), admits)
  {
    WorkEffect(s, t, s', admits);
    assert JobFits(t, s.threads[t], admits);
  }

  lemma StepUpToDate(s: System, l: Label, s': System, store: Cache, replaced: bool, admits: string -> bool)
    requires Tracked(s, admits) && Tracked(s', admits) && Step(s, l, s', admits) && !l.Changed?
    requires UpToDate(s, store, replaced, admits)
    ensures UpToDate(s', store, replaced, admits)
    ensures l == Worked(Reconciler) && s.threads[Reconciler].sec.Entered? ==> UpToDate(s', store, true, admits)
  {
    match l
    case Listed(wfs) => ListedUpToDate(s, wfs, s', admits);
    case Resynced(key) => ResyncedUpToDate(s, key, store, replaced, admits);
    case Worked(t) => WorkUpToDate(s, t, s', store, replaced, admits);
    case _ =>
  }

  lemma NextUpToDate(ss: seq<System>, ls: seq<Label>, workers: nat, n: nat, store: Cache, replaced: bool,
                     admits: string -> bool)
    requires Run(ss, ls, admits) && Initial(ss[0], workers) && n + 1 < |ss| && !ls[n].Changed?
    requires UpToDate(ss[n], store, replaced, admits)
    ensures UpToDate(ss[n + 1], store, replaced || Replaces(ss, ls, n), admits)
  {
    RunTracked(ss, ls, workers, n, admits);
    RunTracked(ss, ls, workers, n + 1, admits);
    assert StepAt(ss, ls, n, admits);
    StepUpToDate(ss[n], ls[n], ss[n + 1], store, replaced, admits);
  }

  lemma {:induction false} RunUpToDate(ss: seq<System>, ls: seq<Label>, workers: nat, j: nat, k: nat, n: nat,
                                       admits: string -> bool)
    requires Run(ss, ls, admits) && Initial(ss[0], workers) && j < n < |ss|
    requires ls[j].Listed? && Quiescent(ls, j, n) && j < k && Replaces(ss, ls, k)
    ensures UpToDate(ss[n], ss[j].store, k < n, admits)
    decreases n
  {
    if n == j + 1 {
      RunTracked(ss, ls, workers, j, admits);
      assert StepAt(ss, ls, j, admits);
      ListedUpToDate(ss[j], ls[j].wfs, ss[n], admits);
    } else {
      RunUpToDate(ss, ls, workers, j, k, n - 1, admits);
      assert !ls[n - 1].Changed?;
      NextUpToDate(ss, ls, workers, n - 1, ss[j].store, k < n - 1, admits);
    }
  }

  /** A listing that already shows the store as it is agrees with whatever arose after it. */
  lemma ListedRight(h: History, key: string)
    requires Sound(h) && ListedStore(h) == Replay(map[], h.admitted) && Touches(h.admitted[h.base..], key)
    ensures LastSaid(h.admitted[h.base..], key) == At(ListedStore(h), key)
  {
    StoreSinceListing(h);
    ReplayAt(ListedStore(h), h.admitted[h.base..], key);
  }

  /**
   * Convergence. Take any run, with any number of workers of which no two ever hold events about one
   * object at once, in which the store stops changing, a reconcile then lists it (step j) and replaces
   * the cache (step k), whatever workers and deliveries do in between. When everything on its way has
   * been handled the cache is the filtered store, and when the mutex is free the gauges show exactly
   * the filtered store.
   */
  lemma Convergence(ss: seq<System>, ls: seq<Label>, workers: nat, j: nat, k: nat, n: nat, admits: string -> bool)
    requires Run(ss, ls, admits) && Initial(ss[0], workers) && j < k < n < |ss|
    requires ls[j].Listed? && Quiescent(ls, j, n) && Replaces(ss, ls, k)
    requires KeepsLanes(ss, n, ByKey) && Drained(ss[n], admits)
    ensures var s := ss[n]; var c := s.collector;
      && s.store == ss[j].store
      && c.cache == Filtered(s.store, admits)
      && (s.mutex.None? ==> Readings.Agrees(c.gauges, Filtered(s.store, admits), c.at, c.details))
  {
    RunUpToDate(ss, ls, workers, j, k, n, admits);
    RunTracked(ss, ls, workers, n, admits);
    var h := ss[n].history;
    forall key | Overtaken(h, key) ensures LastSaid(h.admitted[h.base..], key) == At(ListedStore(h), key) {
      ListedRight(h, key);
    }
    DrainedConverges(ss, ls, workers, n, admits);
  }

  /** The same for a single worker, which needs no such discipline. */
  lemma SoloConvergence(ss: seq<System>, ls: seq<Label>, j: nat, k: nat, n: nat, admits: string -> bool)
    requires Run(ss, ls, admits) && Initial(ss[0], 1) && j < k < n < |ss|
    requires ls[j].Listed? && Quiescent(ls, j, n) && Replaces(ss, ls, k) && Drained(ss[n], admits)
    ensures var s := ss[n]; var c := s.collector;
      && s.store == ss[j].store
      && c.cache == Filtered(s.store, admits)
      && (s.mutex.None? ==> Readings.Agrees(c.gauges, Filtered(s.store, admits), c.at, c.details))
  {
    SoloKeepsLanes(ss, ls, n, ByKey, admits);
    Convergence(ss, ls, 1, j, k, n, admits);
  }
}
