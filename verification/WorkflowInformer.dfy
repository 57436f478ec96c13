/** The workflow informer's handlers, worker and full reconcile, driving the queue and the collector. */
module WorkflowInforming {
  import opened Wrappers
  import opened Workflows
  import opened Readings
  import opened Operations
  import opened Events
  import opened WorkflowCollecting
  import opened WorkQueues
  import HandlingOrder
  import Retries

  /** What client-go hands over as an untyped object. */
  datatype Object =
    | WorkflowObject(wf: Workflow)
    | FinalStateUnknown(last: Object)
    | OtherObject

  /** A queue item. Every enqueued event carries a pointer of its own, so no two are equal. */
  datatype Item =
    | EventItem(pointer: nat, eventType: string, workflow: Option<Workflow>)
    | ForeignItem(pointer: nat)

  /** The collector operation of a well-formed event. */
  function OperationIn(item: Item): Option<Operation>
  {
    if item.ForeignItem? || item.workflow.None? then None
    else if item.eventType == "add" || item.eventType == "update" then Some(Add(item.workflow))
    else if item.eventType == "delete" then Some(Delete(item.workflow))
    else None
  }

  /** An event whose handler returns an error, every time. */
  predicate Fails(item: Item) { item.EventItem? && OperationIn(item).None? }

  function ApplyItem(cache: Cache, item: Item): Cache
  {
    if OperationIn(item).Some? then Apply(cache, OperationIn(item).value) else cache
  }

  function ApplyItems(cache: Cache, items: seq<Item>): Cache
    decreases |items|
  {
    if items == [] then cache else ApplyItems(ApplyItem(cache, items[0]), items[1..])
  }

  lemma {:induction false} ApplyItemsOne(cache: Cache, items: seq<Item>, item: Item)
    ensures ApplyItems(cache, items + [item]) == ApplyItem(ApplyItems(cache, items), item)
    decreases |items|
  {
    if items == [] {
      assert [item][1..] == [];
    } else {
      assert (items + [item])[1..] == items[1..] + [item];
      ApplyItemsOne(ApplyItem(cache, items[0]), items[1..], item);
    }
  }

  /** What an item brings is collected anew; a failing item brings nothing. */
  function StampedItem(at: map<string, Time>, item: Item, clock: Clock): map<string, Time>
  {
    if OperationIn(item).Some? then Stamped(at, OperationIn(item).value, clock) else at
  }

  /** The object of an add or update notification. */
  function Received(obj: Object): Option<Workflow>
  {
    if obj.WorkflowObject? then Some(obj.wf) else None
  }

  /** The object of a delete notification, which may arrive wrapped. */
  function ReceivedDeleted(obj: Object): Option<Workflow>
  {
    match obj
    case WorkflowObject(wf) => Some(wf)
    case FinalStateUnknown(WorkflowObject(wf)) => Some(wf)
    case _ => None
  }

  /** The informer's store holds exactly these workflows; anything else in it is not a workflow. */
  ghost predicate Enumerates(items: seq<Object>, store: Cache)
  {
    && (forall i :: 0 <= i < |items| && items[i].WorkflowObject? ==> At(store, KeyOf(items[i].wf)) == Some(items[i].wf))
    && (forall k :: k in store ==> WorkflowObject(store[k]) in items)
  }

  /** What the handlers enqueue is what the workers apply: the event of the notification. */
  lemma EnqueuedOperation(item: Item, e: Event)
    requires item.EventItem? && item.workflow == Some(e.wf)
    requires if e.Upsert? then item.eventType in {"add", "update"} else item.eventType == "delete"
    ensures OperationIn(item) == Some(OperationOf(e))
  {}

  /** Past and future handlings of an event, by the retry rules. */
  function HandlingsInAll(handled: seq<Item>, b: Retries.Backlog<Item>, x: Item): int
  {
    multiset(handled)[x] + Retries.HandlingsLeft(b, x, Fails)
  }

  /** They add up to the same all along. */
  ghost predicate Accounted(before: seq<Item>, first: Retries.Backlog<Item>, handled: seq<Item>,
                            b: Retries.Backlog<Item>)
  {
    forall x: Item :: x.EventItem? ==> HandlingsInAll(handled, b, x) == HandlingsInAll(before, first, x)
  }

  /** A move hands an event's handling over from the future to the past. */
  ghost predicate MoveCounted(before: seq<Item>, b: Retries.Backlog<Item>, m: Retries.Move<Item>, handled: seq<Item>)
  {
    forall x: Item :: x.EventItem? ==> multiset(handled)[x] == multiset(before)[x] + Retries.HandledNow(b, m, x)
  }

  lemma MoveAccounted(before: seq<Item>, first: Retries.Backlog<Item>, mid: seq<Item>, b: Retries.Backlog<Item>,
                      m: Retries.Move<Item>, handled: seq<Item>)
    requires Retries.Fit(b, Fails) && Retries.CanMove(b, m)
    requires Accounted(before, first, mid, b) && MoveCounted(mid, b, m, handled)
    ensures Accounted(before, first, handled, Retries.After(b, m, Fails))
  {
    forall x: Item | x.EventItem?
      ensures HandlingsInAll(handled, Retries.After(b, m, Fails), x) == HandlingsInAll(before, first, x)
    {
      Retries.MoveAccount(b, m, Fails, x);
      assert HandlingsInAll(mid, b, x) == HandlingsInAll(before, first, x);
    }
  }

  lemma StillAround(b: Retries.Backlog<Item>, m: Retries.Move<Item>, items: set<Item>)
    requires Retries.CanMove(b, m) && forall x :: Retries.Around(b, x) ==> x in items
    ensures forall x :: Retries.Around(Retries.After(b, m, Fails), x) ==> x in items
  {
    forall x | Retries.Around(Retries.After(b, m, Fails), x) ensures x in items {
      assert Retries.Around(b, x);
    }
  }

  lemma AllAccounted(before: seq<Item>, first: Retries.Backlog<Item>, handled: seq<Item>, b: Retries.Backlog<Item>,
                     x: Item)
    requires Accounted(before, first, handled, b) && Retries.Fresh(first) && x.EventItem?
    requires b.ready == [] && b.delayed == {}
    ensures multiset(handled)[x] == multiset(before)[x] +
      if x !in first.ready then 0 else if Fails(x) then 6 else 1
  {
    assert HandlingsInAll(handled, b, x) == HandlingsInAll(before, first, x);
  }

  class WorkflowInformer {
    const collector: WorkflowCollector
    const queue: WorkQueue<Item>
    const admits: string -> bool
    var nextPointer: nat
    ghost var handled: seq<Item>  // events whose handler has been called

    ghost predicate Valid()
      reads this, collector, collector.registry, queue
    {
      && collector.Valid() && queue.Valid()
      && (forall x :: x in queue.dirty + queue.processing + queue.delayed ==> x.pointer < nextPointer)
      && (forall x :: x in queue.ready ==> x !in queue.delayed)
    }

    constructor (collector: WorkflowCollector, admits: string -> bool)
      requires collector.Valid()
      ensures Valid() && this.collector == collector && this.admits == admits
      ensures fresh(queue) && queue.ready == [] && !queue.shuttingDown && handled == []
    {
      this.collector := collector;
      this.admits := admits;
      queue := new WorkQueue<Item>();
      nextPointer := 0;
      handled := [];
    }

    /** What is still to be done, as the retry rules see it. */
    ghost function Backlog(): Retries.Backlog<Item>
      reads queue
    {
      Retries.Backlog(queue.ready, queue.delayed, queue.failures)
    }

    /** One turn by the retry rules; a queue that is shutting down takes no retries back. */
    ghost function HandledBacklog(before: Retries.Backlog<Item>): Retries.Backlog<Item>
      requires before.ready != []
      reads queue`shuttingDown
    {
      var after := Retries.Handle(before, Fails);
      if queue.shuttingDown then after.(delayed := before.delayed) else after
    }

    method HandleWorkflowEvent(item: Item, clock: Clock) returns (failed: bool)
      requires item.EventItem? && collector.Valid()
      modifies collector, collector.registry, this`handled
      ensures collector.Valid() && handled == old(handled) + [item]
      ensures failed == Fails(item)
      ensures failed <==> item.workflow.None? ||
                          (item.eventType != "add" && item.eventType != "update" && item.eventType != "delete")
      ensures failed ==> collector.workflows == old(collector.workflows)
      ensures !failed ==>
        collector.workflows ==
          if item.eventType == "delete" then old(collector.workflows) - {KeyOf(item.workflow.value)}
          else old(collector.workflows)[KeyOf(item.workflow.value) := item.workflow.value]
      ensures collector.workflows == ApplyItem(old(collector.workflows), item)
      ensures collector.collectDetails ==> collector.collectedAt == StampedItem(old(collector.collectedAt), item, clock)
    {
      handled := handled + [item];
      if item.workflow.None? { return true; }
      if item.eventType == "add" || item.eventType == "update" {
        collector.AddWorkflow(item.workflow, clock);
        return false;
      }
      if item.eventType == "delete" {
        collector.DeleteWorkflow(item.workflow);
        return false;
      }
      return true;
    }

    /** One turn of a worker; it stops only when the queue has shut down and is empty. */
    method ProcessNext(clock: Clock) returns (more: bool)
      requires Valid() && (queue.ready != [] || queue.shuttingDown)
      modifies this, queue, collector, collector.registry
      ensures Valid() && more == (old(queue.ready) != [])
      ensures queue.shuttingDown == old(queue.shuttingDown) && queue.processing == old(queue.processing)
      ensures !more ==> Backlog() == old(Backlog()) && handled == old(handled) && collector.workflows == old(collector.workflows)
      ensures more ==> Backlog() == HandledBacklog(old(Backlog()))
      ensures more ==> collector.workflows == ApplyItem(old(collector.workflows), old(queue.ready)[0])
      ensures more && collector.collectDetails ==>
        collector.collectedAt == StampedItem(old(collector.collectedAt), old(queue.ready)[0], clock)
      ensures more ==> handled == old(handled) + if old(queue.ready)[0].EventItem? then [old(queue.ready)[0]] else []
    {
      ghost var before := Backlog();
      var got := queue.Get();
      if got.None? { return false; }
      assert before.ready == [got.value] + queue.ready;
      if got.value.ForeignItem? {
        Settle(got.value, false, before);
      } else {
        var failed := HandleWorkflowEvent(got.value, clock);
        Settle(got.value, failed, before);
      }
      return true;
    }

    /** Retries a failed item within the bound, forgets any other, and marks it done. */
    method Settle(item: Item, failed: bool, ghost before: Retries.Backlog<Item>)
      requires queue.Valid() && item in queue.processing && item !in queue.dirty && failed == Fails(item)
      requires before.ready == [item] + queue.ready
      requires before.delayed == queue.delayed && before.failures == queue.failures
      modifies queue
      ensures queue.Valid() && queue.ready == old(queue.ready) && queue.dirty == old(queue.dirty)
      ensures queue.processing == old(queue.processing) - {item} && queue.shuttingDown == old(queue.shuttingDown)
      ensures Backlog() == HandledBacklog(before)
    {
      if failed && queue.NumRequeues(item) < Retries.MAX_RETRIES {
        queue.AddRateLimited(item);
      } else {
        queue.Forget(item);
      }
      queue.Done(item);
      assert before.ready[1..] == queue.ready;
    }

    /** A worker after shutdown: it empties the line, in order, and returns. */
    method RunWorker(clock: nat -> Clock)
      requires Valid() && queue.shuttingDown
      modifies this, queue, collector, collector.registry
      ensures Valid() && queue.ready == []
      ensures collector.workflows == ApplyItems(old(collector.workflows), old(queue.ready))
    {
      var more, turns: nat := true, 0;
      while more
        invariant Valid() && queue.shuttingDown
        invariant !more ==> queue.ready == []
        invariant ApplyItems(collector.workflows, queue.ready) == ApplyItems(old(collector.workflows), old(queue.ready))
        decreases more, |queue.ready|
      {
        more := ProcessNext(clock(turns));
        turns := turns + 1;
      }
    }

    /** No arrivals are in progress: what is left to do is in line or waits for its delay. */
    ghost predicate Undisturbed()
      reads this, collector, collector.registry, queue
    {
      Valid() && !queue.shuttingDown && queue.processing == {} && Retries.Fit(Backlog(), Fails)
    }

    /** The delay of a failed item runs out; the item goes to the end of the line. */
    method ComeDue(item: Item)
      requires Undisturbed() && item in queue.delayed
      modifies queue
      ensures Valid() && !queue.shuttingDown && queue.processing == {}
      ensures Backlog() == Retries.Due(old(Backlog()), item)
      ensures ApplyItems(collector.workflows, queue.ready) == old(ApplyItems(collector.workflows, queue.ready))
    {
      ApplyItemsOne(collector.workflows, queue.ready, item);
      queue.Due(item);
    }

    /** A worker's turn, or a delay that runs out. */
    method Move(clock: Clock) returns (ghost move: Retries.Move<Item>)
      requires Undisturbed() && (queue.ready != [] || queue.delayed != {})
      modifies this, queue, collector, collector.registry
      ensures Undisturbed() && Retries.CanMove(old(Backlog()), move)
      ensures Backlog() == Retries.After(old(Backlog()), move, Fails)
      ensures ApplyItems(collector.workflows, queue.ready) == old(ApplyItems(collector.workflows, queue.ready))
      ensures MoveCounted(old(handled), old(Backlog()), move, handled)
    {
      if {
        case queue.ready != [] =>
          move := Retries.Handled;
          var more := ProcessNext(clock);
        case queue.delayed != {} =>
          var x :| x in queue.delayed;
          move := Retries.CameDue(x);
          ComeDue(x);
      }
      Retries.MoveFit(old(Backlog()), move, Fails);
    }

    /** No arrivals: turns of workers and delays that run out come in any order, until nothing is left. */
    method Drain(clock: nat -> Clock)
      requires Valid() && Retries.Fresh(Backlog()) && !queue.shuttingDown && queue.processing == {}
      modifies this, queue, collector, collector.registry
      ensures Valid() && queue.ready == [] && queue.delayed == {} && queue.failures == map[]
      ensures !queue.shuttingDown && queue.processing == {}
      ensures collector.workflows == ApplyItems(old(collector.workflows), old(queue.ready))
      ensures forall x: Item :: x.EventItem? ==>
        multiset(handled)[x] == multiset(old(handled))[x] +
          if x !in old(queue.ready) then 0 else if Fails(x) then 6 else 1
    {
      ghost var items := set x | x in queue.ready;
      ghost var first := Backlog();
      var moves: nat := 0;
      while queue.ready != [] || queue.delayed != {}
        invariant Undisturbed()
        invariant forall x :: Retries.Around(Backlog(), x) ==> x in items
        invariant ApplyItems(collector.workflows, queue.ready) == ApplyItems(old(collector.workflows), old(queue.ready))
        invariant Accounted(old(handled), first, handled, Backlog())
        decreases Retries.AllMovesLeft(Backlog(), Fails, items)
      {
        ghost var before, handledBefore, cached := Backlog(), handled, ApplyItems(collector.workflows, queue.ready);
        ghost var move := Move(clock(moves));
        assert ApplyItems(collector.workflows, queue.ready) == cached;
        moves := moves + 1;
        Retries.AllMovesLeftIsNat(before, Fails, items);
        Retries.MovesDecrease(before, move, Fails, items);
        StillAround(before, move, items);
        MoveAccounted(old(handled), first, handledBefore, before, move, handled);
      }
      forall x: Item | x.EventItem?
        ensures multiset(handled)[x] == multiset(old(handled))[x] +
          if x !in old(queue.ready) then 0 else if Fails(x) then 6 else 1
      {
        AllAccounted(old(handled), first, handled, Backlog(), x);
      }
    }

    /** The store's objects that pass the filter become the collector's cache. */
    method RunFullReconcile(items: seq<Object>, clock: Clock, ghost store: Cache)
      requires Valid() && WellKeyed(store) && Enumerates(items, store)
      modifies collector, collector.registry
      ensures Valid() && collector.workflows == Filtered(store, admits)
      ensures collector.collectDetails ==> collector.collectedAt == map k | k in Filtered(store, admits) :: clock(k)
    {
      var wfs: seq<Option<Workflow>> := [];
      for i := 0 to |items|
        invariant forall j :: 0 <= j < |wfs| ==> wfs[j].Some? && At(Filtered(store, admits), KeyOf(wfs[j].value)) == wfs[j]
        invariant forall j :: 0 <= j < i && items[j].WorkflowObject? && admits(items[j].wf.namespace) ==>
          Some(items[j].wf) in wfs
      {
        if !items[i].WorkflowObject? { continue; }
        if !admits(items[i].wf.namespace) { continue; }
        wfs := wfs + [Some(items[i].wf)];
      }
      HandlingOrder.ListingRebuilds(wfs, Filtered(store, admits));
      collector.ReplaceWorkflows(wfs, clock);
    }

    method Enqueue(eventType: string, wf: Workflow)
      requires Valid()
      modifies queue`ready, queue`dirty, this`nextPointer
      ensures Valid() && nextPointer == old(nextPointer) + 1
      ensures queue.ready == if queue.shuttingDown then old(queue.ready)
        else old(queue.ready) + [EventItem(old(nextPointer), eventType, Some(wf))]
    {
      queue.Add(EventItem(nextPointer, eventType, Some(wf)));
      nextPointer := nextPointer + 1;
    }

    /** An event that passes the filter goes to the end of the line; any other leaves it alone. */
    ghost predicate Lined(before: seq<Item>, pointer: nat, eventType: string, wf: Option<Workflow>)
      reads queue
    {
      queue.ready ==
        if wf.Some? && admits(wf.value.namespace) && !queue.shuttingDown
        then before + [EventItem(pointer, eventType, wf)] else before
    }

    method OnAdd(obj: Object)
      requires Valid()
      modifies queue`ready, queue`dirty, this`nextPointer
      ensures Valid() && Lined(old(queue.ready), old(nextPointer), "add", Received(obj))
    {
      if !obj.WorkflowObject? { return; }
      if !admits(obj.wf.namespace) { return; }
      Enqueue("add", obj.wf);
    }

    method OnUpdate(oldObj: Object, newObj: Object)
      requires Valid()
      modifies queue`ready, queue`dirty, this`nextPointer
      ensures Valid() && Lined(old(queue.ready), old(nextPointer), "update", Received(newObj))
    {
      if !newObj.WorkflowObject? { return; }
      if !admits(newObj.wf.namespace) { return; }
      Enqueue("update", newObj.wf);
    }

    method OnDelete(obj: Object)
      requires Valid()
      modifies queue`ready, queue`dirty, this`nextPointer
      ensures Valid() && Lined(old(queue.ready), old(nextPointer), "delete", ReceivedDeleted(obj))
    {
      var wf: Workflow;
      if obj.WorkflowObject? {
        wf := obj.wf;
      } else {
        if !obj.FinalStateUnknown? { return; }
        if !obj.last.WorkflowObject? { return; }
        wf := obj.last.wf;
      }
      if !admits(wf.namespace) { return; }
      Enqueue("delete", wf);
    }

    /** The informer notifies its handlers of a store change; if it passes the filter, its event is lined up. */
    method Notify(e: Event) returns (ghost item: Item)
      requires Valid()
      modifies queue`ready, queue`dirty, this`nextPointer
      ensures Valid() && OperationIn(item) == Some(OperationOf(e))
      ensures queue.ready ==
        if admits(e.wf.namespace) && !queue.shuttingDown then old(queue.ready) + [item] else old(queue.ready)
    {
      ghost var eventType := "delete";
      if {
        case e.Upsert? =>
          eventType := "add";
          OnAdd(WorkflowObject(e.wf));
        case e.Upsert? =>
          eventType := "update";
          OnUpdate(OtherObject, WorkflowObject(e.wf));
        case e.Remove? => OnDelete(WorkflowObject(e.wf));
        case e.Remove? => OnDelete(FinalStateUnknown(WorkflowObject(e.wf)));
      }
      item := EventItem(old(nextPointer), eventType, Some(e.wf));
      assert Lined(old(queue.ready), old(nextPointer), eventType, Some(e.wf));
      EnqueuedOperation(item, e);
    }

    /**
     * Handlers, filter, queue and worker together: whatever history of store changes the informer is
     * notified of, its collector ends up with the admitted part of it replayed over its cache.
     */
    method Follow(es: seq<Event>, clock: nat -> Clock)
      requires Valid() && queue.ready == [] && queue.delayed == {} && queue.failures == map[]
      requires !queue.shuttingDown && queue.processing == {}
      modifies this, queue, collector, collector.registry
      ensures Valid() && queue.ready == [] && queue.delayed == {} && queue.failures == map[]
      ensures collector.workflows == Replay(old(collector.workflows), Admitted(es, admits))
    {
      for i := 0 to |es|
        invariant Valid() && queue.delayed == {} && queue.failures == map[]
        invariant !queue.shuttingDown && queue.processing == {} && collector.workflows == old(collector.workflows)
        invariant ApplyItems(collector.workflows, queue.ready) == Replay(collector.workflows, Admitted(es[..i], admits))
      {
        assert es[..i + 1][..i] == es[..i];
        if admits(es[i].wf.namespace) {
          ReplayOne(collector.workflows, Admitted(es[..i], admits), es[i]);
        } else {
          assert Admitted(es[..i + 1], admits) == Admitted(es[..i], admits);
        }
        ghost var ready := queue.ready;
        ghost var item := Notify(es[i]);
        ApplyItemsOne(collector.workflows, ready, item);
      }
      assert es[..|es|] == es;
      Drain(clock);
    }
  }
}
