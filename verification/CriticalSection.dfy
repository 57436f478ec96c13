/**
 * One collector operation as the steps other goroutines could observe: the cache write under the
 * collector's own lock, every single gauge write and deletion after it, and the recount under the
 * collector's lock. Map iteration order and the clock are left open.
 */
module CriticalSection {
  import opened Wrappers
  import opened Workflows
  import opened Metrics
  import opened Readings
  import opened Operations

  /** The collector's fields, the registry, and the clock reading behind each cached workflow. */
  datatype Collector = Collector(
    details: bool,
    cache: Cache,
    last: set<Series>,        // the remembered aggregate label sets
    gauges: Gauges,
    at: map<string, Time>)

  /** How far the goroutine that holds the mutex has got. */
  datatype Section =
    | Entered(op: Operation)
    | Deleting(todo: set<Workflow>, labels: set<Series>, next: set<Workflow>)
    | Collecting(todo: set<Workflow>, writes: Gauges)
    | Counting
    | Publishing(writes: Gauges, stale: set<Series>)
    | Finished

  // ----- what is deleted and written -----

  function Footprint(wf: Workflow): set<Series>
  {
    {Info(wf.namespace, wf.name, wf.uid, ServiceAccountLabel(wf), PriorityLabel(wf)),
     CreatedTime(wf.namespace, wf.name), StartedTime(wf.namespace, wf.name), FinishedTime(wf.namespace, wf.name),
     DurationSeconds(wf.namespace, wf.name, wf.phase), NodeTotal(wf.namespace, wf.name)}
    + (set p | p in PHASES :: StatusPhase(wf.namespace, wf.name, p))
    + (if wf.nodes.Some? then set p | p in wf.nodes.value.Values :: NodePhase(wf.namespace, wf.name, p) else {})
  }

  function DetailWrites(wf: Workflow, now: Time): Gauges
  {
    map s | s in Footprint(wf) && DetailReading(s, wf, now).Some? :: DetailReading(s, wf, now).value
  }

  lemma DetailWritesAre(s: Series, wf: Workflow, now: Time)
    ensures Lookup(DetailWrites(wf, now), s) == DetailReading(s, wf, now)
  {}

  /** The label sets of the aggregates of a cache. */
  function Totals(cache: Cache): set<Series>
  {
    (set k | k in cache :: Count(cache[k].namespace))
    + (set k | k in cache :: StatusTotal(cache[k].namespace, cache[k].phase))
  }

  ghost function TotalWrites(cache: Cache): Gauges
  {
    map s | s in Totals(cache) ::
      if s.Count? then |InNamespace(cache, s.namespace)|
      else if s.StatusTotal? then |InNamespacePhase(cache, s.namespace, s.phase)| else 0
  }

  lemma TotalWritesAre(s: Series, cache: Cache)
    requires s.Aggregate()
    ensures Lookup(TotalWrites(cache), s) == Reading(s, cache, map[], false)
  {
    if s.Count? {
      CountsNonZero(cache, s.namespace, "");
    } else {
      CountsNonZero(cache, s.namespace, s.phase);
      DomainsHold(cache, s.namespace, s.phase);
    }
  }

  // ----- the steps -----

  /** The previous versions a cache write displaces, whose series have to go. */
  function Displaced(cache: Cache, op: Operation): set<Workflow>
  {
    match op
    case Add(wf) => if wf.Some? && KeyOf(wf.value) in cache then {cache[KeyOf(wf.value)]} else {}
    case Delete(wf) =>
      if wf.None? then {} else if KeyOf(wf.value) in cache then {cache[KeyOf(wf.value)]} else {wf.value}
    case Replace(_) => cache.Values
  }

  /** The versions whose series have to be published after a cache write. */
  function Arriving(op: Operation): set<Workflow>
  {
    match op
    case Add(wf) => if wf.Some? then {wf.value} else {}
    case Delete(_) => {}
    case Replace(wfs) => Filed(wfs).Values
  }

  /** The cache without the versions still to be published. */
  function Without(cache: Cache, wfs: set<Workflow>): Cache
  {
    map k | k in cache && cache[k] !in wfs :: cache[k]
  }

  /** Only the clock readings of workflows that stay published are kept. */
  function Forget(at: map<string, Time>, keys: set<string>): map<string, Time>
  {
    map k | k in at && k in keys :: at[k]
  }

  predicate Ignored(op: Operation) { !op.Replace? && op.wf.None? }

  ghost predicate Enter(c: Collector, op: Operation, c': Collector, sec': Section)
  {
    if Ignored(op) then c' == c && sec' == Finished
    else
      && c' == c.(cache := Apply(c.cache, op), at := Forget(c.at, Without(Apply(c.cache, op), Arriving(op)).Keys))
      && sec' == if c.details then Deleting(Displaced(c.cache, op), {}, Arriving(op)) else Counting
  }

  ghost predicate DeleteStep(c: Collector, sec: Section, c': Collector, sec': Section)
    requires sec.Deleting?
  {
    || (exists s :: s in sec.labels && c' == c.(gauges := c.gauges - {s}) && sec' == Deleting(sec.todo, sec.labels - {s}, sec.next))
    || (sec.labels == {} && exists wf ::
          wf in sec.todo && c' == c && sec' == Deleting(sec.todo - {wf}, Footprint(wf), sec.next))
    || (sec.labels == {} && sec.todo == {} && c' == c && sec' == Collecting(sec.next, map[]))
  }

  ghost predicate CollectStep(c: Collector, sec: Section, c': Collector, sec': Section)
    requires sec.Collecting?
  {
    || (exists s :: s in sec.writes && c' == c.(gauges := c.gauges[s := sec.writes[s]])
                    && sec' == Collecting(sec.todo, sec.writes - {s}))
    || (sec.writes == map[] && exists wf, now ::
          wf in sec.todo && c' == c.(at := c.at[KeyOf(wf) := now])
          && sec' == Collecting(sec.todo - {wf}, DetailWrites(wf, now)))
    || (sec.writes == map[] && sec.todo == {} && c' == c && sec' == Counting)
  }

  ghost predicate CountStep(c: Collector, c': Collector, sec': Section)
  {
    && c' == c.(last := Totals(c.cache))
    && sec' == Publishing(TotalWrites(c.cache), c.last - Totals(c.cache))
  }

  ghost predicate PublishStep(c: Collector, sec: Section, c': Collector, sec': Section)
    requires sec.Publishing?
  {
    || (exists s :: s in sec.writes && c' == c.(gauges := c.gauges[s := sec.writes[s]])
                    && sec' == Publishing(sec.writes - {s}, sec.stale))
    || (exists s :: s in sec.stale && c' == c.(gauges := c.gauges - {s}) && sec' == Publishing(sec.writes, sec.stale - {s}))
    || (sec.writes == map[] && sec.stale == {} && c' == c && sec' == Finished)
  }

  /** One step of the goroutine inside the critical section. */
  ghost predicate SectionStep(c: Collector, sec: Section, c': Collector, sec': Section)
  {
    match sec
    case Entered(op) => Enter(c, op, c', sec')
    case Deleting(_, _, _) => DeleteStep(c, sec, c', sec')
    case Collecting(_, _) => CollectStep(c, sec, c', sec')
    case Counting => CountStep(c, c', sec')
    case Publishing(_, _) => PublishStep(c, sec, c', sec')
    case Finished => false
  }

  // ----- what holds between the steps -----

  /** What holds whenever nobody is inside: the gauges agree with the cache. */
  ghost predicate InStep(c: Collector)
  {
    && Agrees(c.gauges, c.cache, c.at, c.details)
    && c.last == Totals(c.cache)
  }

  ghost predicate FromCache(cache: Cache, wfs: set<Workflow>)
  {
    forall wf :: wf in wfs ==> KeyOf(wf) in cache && cache[KeyOf(wf)] == wf
  }

  ghost predicate LastPublished(c: Collector)
  {
    && (forall s :: s in c.last ==> s.Aggregate())
    && forall s: Series :: s.Aggregate() ==> (s in c.gauges <==> s in c.last)
  }

  /** Label sets that are going to be deleted before anything new is written. */
  ghost predicate Doomed(s: Series, todo: set<Workflow>, labels: set<Series>)
  {
    s in labels || exists wf :: wf in todo && InFootprint(s, wf)
  }

  ghost predicate DeletingOk(c: Collector, todo: set<Workflow>, labels: set<Series>, next: set<Workflow>)
  {
    var kept := Without(c.cache, next);
    && c.details && FromCache(c.cache, next) && LastPublished(c)
    && (forall s :: s in labels ==> !s.Aggregate())
    && kept.Keys == c.at.Keys
    && forall s: Series :: !s.Aggregate() ==>
         if Doomed(s, todo, labels) then Reading(s, kept, c.at, true).None?
         else Lookup(c.gauges, s) == Reading(s, kept, c.at, true)
  }

  ghost predicate CollectingOk(c: Collector, todo: set<Workflow>, writes: Gauges)
  {
    var kept := Without(c.cache, todo);
    && c.details && FromCache(c.cache, todo) && LastPublished(c)
    && kept.Keys == c.at.Keys
    && (forall s :: s in writes ==> !s.Aggregate())
    && forall s: Series :: !s.Aggregate() ==>
         Reading(s, kept, c.at, true) == if s in writes then Some(writes[s]) else Lookup(c.gauges, s)
  }

  ghost predicate DetailsDone(c: Collector)
  {
    && WellKeyed(c.cache)
    && if c.details then DetailsAgree(c.gauges, c.cache, c.at) else NoDetails(c.gauges)
  }

  ghost predicate PublishingOk(c: Collector, writes: Gauges, stale: set<Series>)
  {
    && DetailsDone(c) && c.last == Totals(c.cache)
    && writes.Keys !! stale
    && (forall s :: s in writes.Keys + stale ==> s.Aggregate())
    && forall s: Series :: s.Aggregate() ==>
         Reading(s, c.cache, map[], false) ==
         if s in writes then Some(writes[s]) else if s in stale then None else Lookup(c.gauges, s)
  }

  ghost predicate SectionOk(c: Collector, sec: Section)
  {
    && WellKeyed(c.cache)
    && match sec
       case Entered(_) => InStep(c)
       case Deleting(todo, labels, next) => DeletingOk(c, todo, labels, next)
       case Collecting(todo, writes) => CollectingOk(c, todo, writes)
       case Counting => DetailsDone(c) && LastPublished(c)
       case Publishing(writes, stale) => PublishingOk(c, writes, stale)
       case Finished => InStep(c)
  }

  // ----- every step keeps it -----

  lemma {:induction false} FiledWellKeyed(wfs: seq<Option<Workflow>>)
    ensures WellKeyed(Filed(wfs))
    decreases |wfs|
  {
    if wfs != [] {
      FiledWellKeyed(wfs[..|wfs| - 1]);
    }
  }

  lemma ApplyWellKeyed(cache: Cache, op: Operation)
    requires WellKeyed(cache)
    ensures WellKeyed(Apply(cache, op))
  {
    if op.Replace? {
      FiledWellKeyed(op.wfs);
    }
  }

  lemma TotalsAre(c: Collector)
    requires InStep(c)
    ensures LastPublished(c)
  {
    forall s: Series | s.Aggregate() ensures s in c.gauges <==> s in c.last {
      TotalWritesAre(s, c.cache);
      assert Lookup(c.gauges, s) == Reading(s, c.cache, map[], false);
      TotalsAggregate(c.cache, s);
    }
    forall s | s in c.last ensures s.Aggregate() {
      TotalsAggregate(c.cache, s);
    }
  }

  lemma TotalsAggregate(cache: Cache, s: Series)
    ensures s in Totals(cache) ==> s.Aggregate()
    ensures s in Totals(cache) <==> s in TotalWrites(cache)
  {}

  /** What stays published through a cache write. */
  function Kept(cache: Cache, op: Operation): Cache
  {
    match op
    case Add(wf) => if wf.None? then cache else cache - {KeyOf(wf.value)}
    case Delete(wf) => if wf.None? then cache else cache - {KeyOf(wf.value)}
    case Replace(_) => map[]
  }

  lemma KeptIs(cache: Cache, op: Operation)
    requires WellKeyed(cache) && !Ignored(op)
    ensures Without(Apply(cache, op), Arriving(op)) == Kept(cache, op)
    ensures FromCache(Apply(cache, op), Arriving(op))
  {
    ApplyWellKeyed(cache, op);
  }

  lemma DisplacedIs(cache: Cache, op: Operation)
    requires WellKeyed(cache) && !Ignored(op)
    ensures forall k :: k in cache && k !in Kept(cache, op) ==> cache[k] in Displaced(cache, op)
    ensures forall wf :: wf in Displaced(cache, op) ==> KeyOf(wf) !in Kept(cache, op)
  {}

  lemma EnterOk(c: Collector, op: Operation, c': Collector, sec': Section)
    requires InStep(c) && Enter(c, op, c', sec')
    ensures SectionOk(c', sec')
  {
    ApplyWellKeyed(c.cache, op);
    TotalsAre(c);
    if !Ignored(op) && c.details {
      KeptIs(c.cache, op);
      DisplacedIs(c.cache, op);
      var kept := Kept(c.cache, op);
      assert c'.at.Keys == kept.Keys;
      forall s: Series | !s.Aggregate()
        ensures if Doomed(s, sec'.todo, {}) then Reading(s, kept, c'.at, true).None?
                else Lookup(c'.gauges, s) == Reading(s, kept, c'.at, true)
      {
        EnterReading(c, op, s, c'.at);
      }
    }
  }

  lemma EnterReading(c: Collector, op: Operation, s: Series, at: map<string, Time>)
    requires InStep(c) && c.details && !Ignored(op) && !s.Aggregate()
    requires at == Forget(c.at, Kept(c.cache, op).Keys)
    ensures if Doomed(s, Displaced(c.cache, op), {}) then Reading(s, Kept(c.cache, op), at, true).None?
            else Lookup(c.gauges, s) == Reading(s, Kept(c.cache, op), at, true)
  {
    var key := Key(s.namespace, s.name);
    var displaced := Displaced(c.cache, op);
    DisplacedIs(c.cache, op);
    assert Lookup(c.gauges, s) == Reading(s, c.cache, c.at, true);
    if Doomed(s, displaced, {}) {
      var wf :| wf in displaced && InFootprint(s, wf);
      assert key == KeyOf(wf);
    } else if key in c.cache && key !in Kept(c.cache, op) {
      assert c.cache[key] in displaced;
      FootprintCovers(s, c.cache[key], c.at[key]);
    }
  }

  lemma DeleteOk(c: Collector, sec: Section, c': Collector, sec': Section)
    requires sec.Deleting? && SectionOk(c, sec) && DeleteStep(c, sec, c', sec')
    ensures SectionOk(c', sec')
  {
    var kept := Without(c.cache, sec.next);
    if sec'.Collecting? {
      forall s: Series ensures !Doomed(s, sec.todo, sec.labels) {}
    } else {
      forall s: Series | !s.Aggregate()
        ensures if Doomed(s, sec'.todo, sec'.labels) then Reading(s, kept, c.at, true).None?
                else Lookup(c'.gauges, s) == Reading(s, kept, c.at, true)
      {
        DoomedStep(c, sec, c', sec', s);
      }
    }
  }

  /** A label set stops being doomed only by being deleted. */
  lemma DoomedStep(c: Collector, sec: Section, c': Collector, sec': Section, s: Series)
    requires sec.Deleting? && DeleteStep(c, sec, c', sec') && sec'.Deleting?
    ensures Doomed(s, sec'.todo, sec'.labels) ==> Doomed(s, sec.todo, sec.labels)
    ensures Doomed(s, sec.todo, sec.labels) && !Doomed(s, sec'.todo, sec'.labels) ==> s !in c'.gauges
    ensures !Doomed(s, sec.todo, sec.labels) ==> Lookup(c'.gauges, s) == Lookup(c.gauges, s)
  {}

  lemma CollectOk(c: Collector, sec: Section, c': Collector, sec': Section)
    requires sec.Collecting? && SectionOk(c, sec) && CollectStep(c, sec, c', sec')
    ensures SectionOk(c', sec')
  {
    if sec'.Counting? {
      assert Without(c.cache, sec.todo) == c.cache;
    } else if sec.writes == map[] {
      var wf, now :| wf in sec.todo && c' == c.(at := c.at[KeyOf(wf) := now])
        && sec' == Collecting(sec.todo - {wf}, DetailWrites(wf, now));
      PickOk(c, sec, wf, now);
    } else {
      var s :| s in sec.writes && c' == c.(gauges := c.gauges[s := sec.writes[s]])
        && sec' == Collecting(sec.todo, sec.writes - {s});
      WriteOk(c, sec.todo, sec.writes, s);
    }
  }

  lemma WriteOk(c: Collector, todo: set<Workflow>, writes: Gauges, s: Series)
    requires CollectingOk(c, todo, writes) && s in writes
    ensures CollectingOk(c.(gauges := c.gauges[s := writes[s]]), todo, writes - {s})
  {}

  /** Picking the next workflow moves exactly its series from unpublished to being written. */
  lemma PickOk(c: Collector, sec: Section, wf: Workflow, now: Time)
    requires sec.Collecting? && SectionOk(c, sec) && sec.writes == map[] && wf in sec.todo
    ensures CollectingOk(c.(at := c.at[KeyOf(wf) := now]), sec.todo - {wf}, DetailWrites(wf, now))
  {
    var key, at := KeyOf(wf), c.at[KeyOf(wf) := now];
    var before, after := Without(c.cache, sec.todo), Without(c.cache, sec.todo - {wf});
    assert after == before[key := wf] && key !in before;
    forall s: Series | !s.Aggregate()
      ensures Reading(s, after, at, true) ==
        if s in DetailWrites(wf, now) then Some(DetailWrites(wf, now)[s]) else Lookup(c.gauges, s)
    {
      DetailWritesAre(s, wf, now);
      assert Lookup(c.gauges, s) == Reading(s, before, c.at, true);
    }
    forall s | s in DetailWrites(wf, now) ensures !s.Aggregate() {
      DetailWritesAre(s, wf, now);
    }
  }

  lemma CountOk(c: Collector, c': Collector, sec': Section)
    requires SectionOk(c, Counting) && CountStep(c, c', sec')
    ensures SectionOk(c', sec')
  {
    forall s: Series | s.Aggregate()
      ensures Reading(s, c.cache, map[], false) ==
        if s in sec'.writes then Some(sec'.writes[s]) else if s in sec'.stale then None else Lookup(c'.gauges, s)
    {
      TotalWritesAre(s, c.cache);
      TotalsAggregate(c.cache, s);
    }
    forall s | s in sec'.writes.Keys + sec'.stale ensures s.Aggregate() {
      TotalsAggregate(c.cache, s);
    }
  }

  lemma TotalWriteOk(c: Collector, writes: Gauges, stale: set<Series>, s: Series)
    requires PublishingOk(c, writes, stale) && s in writes
    ensures PublishingOk(c.(gauges := c.gauges[s := writes[s]]), writes - {s}, stale)
  {
    assert s in writes.Keys + stale;
  }

  lemma TotalDeletionOk(c: Collector, writes: Gauges, stale: set<Series>, s: Series)
    requires PublishingOk(c, writes, stale) && s in stale
    ensures PublishingOk(c.(gauges := c.gauges - {s}), writes, stale - {s})
  {
    assert s in writes.Keys + stale;
  }

  lemma AllPublished(c: Collector)
    requires PublishingOk(c, map[], {})
    ensures InStep(c)
  {}

  lemma PublishOk(c: Collector, sec: Section, c': Collector, sec': Section)
    requires sec.Publishing? && SectionOk(c, sec) && PublishStep(c, sec, c', sec')
    ensures SectionOk(c', sec')
  {
    if sec'.Finished? {
      AllPublished(c);
    } else if s :| s in sec.writes && c' == c.(gauges := c.gauges[s := sec.writes[s]])
                   && sec' == Publishing(sec.writes - {s}, sec.stale) {
      TotalWriteOk(c, sec.writes, sec.stale, s);
    } else {
      var s :| s in sec.stale && c' == c.(gauges := c.gauges - {s}) && sec' == Publishing(sec.writes, sec.stale - {s});
      TotalDeletionOk(c, sec.writes, sec.stale, s);
    }
  }

  /** Whichever step the goroutine in the section takes, what holds between the steps is kept. */
  lemma SectionStepOk(c: Collector, sec: Section, c': Collector, sec': Section)
    requires SectionOk(c, sec) && SectionStep(c, sec, c', sec')
    ensures SectionOk(c', sec') && c'.details == c.details
    ensures c'.cache == if sec.Entered? then Apply(c.cache, sec.op) else c.cache
    ensures !sec'.Entered?
  {
    match sec
    case Entered(op) => EnterOk(c, op, c', sec');
    case Deleting(_, _, _) => DeleteOk(c, sec, c', sec');
    case Collecting(_, _) => CollectOk(c, sec, c', sec');
    case Counting => CountOk(c, c', sec');
    case Publishing(_, _) => PublishOk(c, sec, c', sec');
    case Finished =>
  }
}
