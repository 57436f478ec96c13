/** The pod informer's event filter, event handler and full reconcile, driving the pod collector. */
module PodInforming {
  import opened Wrappers
  import opened RestartLedger
  import opened PodCollecting

  datatype Object = PodObject(pod: Pod) | OtherObject

  predicate IsWorkflowPod(pod: Pod) { WORKFLOW_LABEL in pod.labels }

  function ItemObservations(item: Object, admits: string -> bool): seq<Observation>
  {
    if item.PodObject? && IsWorkflowPod(item.pod) && admits(item.pod.namespace) then Observations(item.pod) else []
  }

  /** What a full reconcile over these objects makes the collector observe. */
  function ReconcileObservations(items: seq<Object>, admits: string -> bool): seq<Observation>
  {
    if items == [] then [] else
      ReconcileObservations(items[..|items| - 1], admits) + ItemObservations(items[|items| - 1], admits)
  }

  /** The pods the collector remembers after a full reconcile over these objects. */
  function ReconciledPods(pods: map<string, Pod>, items: seq<Object>, admits: string -> bool): map<string, Pod>
  {
    if items == [] then pods else
      var front, last := ReconciledPods(pods, items[..|items| - 1], admits), items[|items| - 1];
      if last.PodObject? && IsWorkflowPod(last.pod) && admits(last.pod.namespace)
      then front[PodKey(last.pod) := last.pod] else front
  }

  class PodInformer {
    const collector: PodCollector
    const admits: string -> bool

    constructor (collector: PodCollector, admits: string -> bool)
      ensures this.collector == collector && this.admits == admits
    {
      this.collector := collector;
      this.admits := admits;
    }

    method HandlePodEvent(eventType: string, pod: Option<Pod>) returns (failed: bool)
      modifies collector
      ensures failed <==> pod.None? || (eventType != "add" && eventType != "update" && eventType != "delete")
      ensures failed || !collector.collectContainerStats ==>
        && collector.Accounts() == old(collector.Accounts()) && collector.pods == old(collector.pods)
        && collector.memory == old(collector.memory)
      ensures !failed && eventType != "delete" && collector.collectContainerStats ==>
        && collector.Accounts() == ObserveAll(old(collector.Accounts()), Observations(pod.value))
        && collector.pods == old(collector.pods)[PodKey(pod.value) := pod.value]
        && collector.memory == old(collector.memory)
      ensures !failed && eventType == "delete" && collector.collectContainerStats ==>
        && collector.restartCounters == old(collector.restartCounters) - StateKeys(pod.value)
        && collector.cpu == old(collector.cpu) - MetricLabels(pod.value)
        && collector.memory == old(collector.memory) - MetricLabels(pod.value)
        && collector.pods == old(collector.pods) - {PodKey(pod.value)}
    {
      if pod.None? { return true; }
      if eventType == "add" || eventType == "update" {
        collector.AddPod(pod);
        return false;
      }
      if eventType == "delete" {
        collector.DeletePod(pod);
        return false;
      }
      return true;
    }

    /** Adds every workflow pod of the store that passes the filter; it removes nothing. */
    method RunFullReconcile(items: seq<Object>)
      modifies collector
      ensures collector.collectContainerStats ==>
        && collector.Accounts() == ObserveAll(old(collector.Accounts()), ReconcileObservations(items, admits))
        && collector.pods == ReconciledPods(old(collector.pods), items, admits)
      ensures !collector.collectContainerStats ==>
        collector.Accounts() == old(collector.Accounts()) && collector.pods == old(collector.pods)
      ensures collector.memory == old(collector.memory)
    {
      for i := 0 to |items|
        invariant collector.collectContainerStats ==>
          && collector.Accounts() == ObserveAll(old(collector.Accounts()), ReconcileObservations(items[..i], admits))
          && collector.pods == ReconciledPods(old(collector.pods), items[..i], admits)
        invariant !collector.collectContainerStats ==>
          collector.Accounts() == old(collector.Accounts()) && collector.pods == old(collector.pods)
        invariant collector.memory == old(collector.memory)
      {
        assert items[..i + 1][..i] == items[..i];
        ghost var before := ReconcileObservations(items[..i], admits);
        assert before + [] == before;
        if !items[i].PodObject? { continue; }
        if !IsWorkflowPod(items[i].pod) { continue; }
        if !admits(items[i].pod.namespace) { continue; }
        collector.AddPod(Some(items[i].pod));
        ObserveJoin(old(collector.Accounts()), before, Observations(items[i].pod));
      }
      assert items[..|items|] == items;
    }
  }

  lemma {:induction false} EveryPodObserved(items: seq<Object>, o: Observation, admits: string -> bool)
    ensures o in ReconcileObservations(items, admits) <==>
      exists item :: item in items && o in ItemObservations(item, admits)
    decreases |items|
  {
    if items != [] {
      var n := |items| - 1;
      EveryPodObserved(items[..n], o, admits);
      assert items == items[..n] + [items[n]];
      assert forall item :: item in items <==> item in items[..n] || item == items[n];
    }
  }

  /** The object is a pod with a workflow label, whatever it says, in a namespace that passes the filter. */
  predicate Eligible(item: Object, admits: string -> bool)
  {
    && item.PodObject? && "workflows.argoproj.io/workflow" in item.pod.labels
    && admits(item.pod.namespace)
  }

  /** A reconcile observes what eligible pods report, and nothing else. */
  lemma ReconcileObserves(items: seq<Object>, o: Observation, admits: string -> bool)
    ensures o in ReconcileObservations(items, admits) <==>
      exists item :: item in items && Eligible(item, admits) && o in Observations(item.pod)
  {
    EveryPodObserved(items, o, admits);
    forall item ensures o in ItemObservations(item, admits) <==> Eligible(item, admits) && o in Observations(item.pod) {}
  }

  /** It remembers the eligible pods beside those remembered before. */
  lemma {:induction false} ReconcileRemembers(pods: map<string, Pod>, items: seq<Object>, key: string,
                                              admits: string -> bool)
    ensures key in ReconciledPods(pods, items, admits) <==>
      key in pods || exists item :: item in items && Eligible(item, admits) && PodKey(item.pod) == key
    ensures key in ReconciledPods(pods, items, admits) ==>
      || (key in pods && ReconciledPods(pods, items, admits)[key] == pods[key])
      || exists item :: item in items && Eligible(item, admits) && PodKey(item.pod) == key
                        && ReconciledPods(pods, items, admits)[key] == item.pod
    decreases |items|
  {
    if items != [] {
      var n := |items| - 1;
      ReconcileRemembers(pods, items[..n], key, admits);
      assert items == items[..n] + [items[n]];
      assert forall item :: item in items <==> item in items[..n] || item == items[n];
    }
  }

  /**
   * A second full reconcile over an unchanged store, with no event in between, changes no high-water
   * mark and no CPU counter, in whatever order the store lists its pods the second time.
   */
  lemma SecondReconcileIsIdle(l: Ledger, items: seq<Object>, again: seq<Object>, admits: string -> bool)
    requires forall x :: x in again ==> x in items
    ensures var once := ObserveAll(l, ReconcileObservations(items, admits));
      ObserveAll(once, ReconcileObservations(again, admits)) == once
  {
    var os, ps := ReconcileObservations(items, admits), ReconcileObservations(again, admits);
    forall i | 0 <= i < |ps| ensures ps[i] in os {
      EveryPodObserved(again, ps[i], admits);
      EveryPodObserved(items, ps[i], admits);
    }
    ObservedAgain(l, os, ps);
  }
}
