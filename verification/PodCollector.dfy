/** The pod collector: restart high-water marks and the container CPU counter. */
module PodCollecting {
  import opened Wrappers
  import opened Workflows
  import opened RestartLedger

  datatype Terminated = Terminated(started: Time, finished: Time)

  datatype ContainerStatus = ContainerStatus(name: string, restartCount: int, lastTerminated: Option<Terminated>)

  datatype Pod = Pod(
    namespace: string,
    name: string,
    uid: string,
    labels: map<string, string>,
    statuses: seq<ContainerStatus>)

  const WORKFLOW_LABEL := "workflows.argoproj.io/workflow"
  const NODE_LABEL := "workflows.argoproj.io/workflow-node"

  /** A missing label reads as the empty string. */
  function LabelOf(pod: Pod, tag: string): string
  {
    if tag in pod.labels then pod.labels[tag] else ""
  }

  function PodKey(pod: Pod): string { Key(pod.namespace, pod.name) }

  function ContainerStateKey(pod: Pod, container: string): string
  {
    StateKey(pod.namespace, pod.uid, pod.name, container)
  }

  function LabelsOf(pod: Pod, container: string): CpuLabels
  {
    CpuLabels(pod.namespace, LabelOf(pod, WORKFLOW_LABEL), LabelOf(pod, NODE_LABEL), container)
  }

  /** What a status with a termination record tells the accounts. */
  function Noted(pod: Pod, status: ContainerStatus): Observation
    requires status.lastTerminated.Some?
  {
    Observation(ContainerStateKey(pod, status.name), status.restartCount, LabelsOf(pod, status.name),
                Sub(status.lastTerminated.value.finished, status.lastTerminated.value.started))
  }

  function NotedUpTo(pod: Pod, n: nat): seq<Observation>
    requires n <= |pod.statuses|
  {
    if n == 0 then [] else
      var status := pod.statuses[n - 1];
      if status.lastTerminated.None? then NotedUpTo(pod, n - 1) else NotedUpTo(pod, n - 1) + [Noted(pod, status)]
  }

  /** A pod's observations, in the order of its container statuses; none unless it is a workflow's. */
  function Observations(pod: Pod): seq<Observation>
  {
    if LabelOf(pod, WORKFLOW_LABEL) == "" then [] else NotedUpTo(pod, |pod.statuses|)
  }

  function StateKeys(pod: Pod): set<string>
  {
    set i | 0 <= i < |pod.statuses| :: ContainerStateKey(pod, pod.statuses[i].name)
  }

  function MetricLabels(pod: Pod): set<CpuLabels>
  {
    if LabelOf(pod, WORKFLOW_LABEL) == "" then {} else
      set i | 0 <= i < |pod.statuses| :: LabelsOf(pod, pod.statuses[i].name)
  }

  // ----- which containers the keys and labels tell apart -----

  /** The state key of a container is its own: of its pod's namespace, uid and name, and its name there. */
  lemma ContainersApart(p: Pod, q: Pod, c: string, d: string)
    requires SlashFree(p.namespace) && SlashFree(p.uid) && SlashFree(p.name)
    requires SlashFree(q.namespace) && SlashFree(q.uid) && SlashFree(q.name)
    ensures ContainerStateKey(p, c) == ContainerStateKey(q, d) <==>
      p.namespace == q.namespace && p.uid == q.uid && p.name == q.name && c == d
  {
    StateKeyInjective(p.namespace, p.uid, p.name, c, q.namespace, q.uid, q.name, d);
  }

  /** Within a pod no assumption on names is needed. */
  lemma ContainersOfPodApart(pod: Pod, c: string, d: string)
    ensures ContainerStateKey(pod, c) == ContainerStateKey(pod, d) <==> c == d
  {
    var n := |pod.namespace + "/" + pod.uid + "/" + pod.name + "/"|;
    assert ContainerStateKey(pod, c)[n..] == c && ContainerStateKey(pod, d)[n..] == d;
  }

  /** Pods are remembered by namespace and name. */
  lemma PodsApart(p: Pod, q: Pod)
    requires SlashFree(p.namespace) && SlashFree(q.namespace)
    ensures PodKey(p) == PodKey(q) <==> p.namespace == q.namespace && p.name == q.name
  {
    KeyInjective(p.namespace, p.name, q.namespace, q.name);
  }

  /** Deleting pod `p` forgets the mark of a container exactly if it is one of those listed in its status. */
  lemma ForgottenMarks(p: Pod, q: Pod, d: string)
    requires SlashFree(p.namespace) && SlashFree(p.uid) && SlashFree(p.name)
    requires SlashFree(q.namespace) && SlashFree(q.uid) && SlashFree(q.name)
    ensures ContainerStateKey(q, d) in StateKeys(p) <==>
      && p.namespace == q.namespace && p.uid == q.uid && p.name == q.name
      && exists i :: 0 <= i < |p.statuses| && p.statuses[i].name == d
  {
    forall i | 0 <= i < |p.statuses|
      ensures ContainerStateKey(p, p.statuses[i].name) == ContainerStateKey(q, d) <==>
        p.namespace == q.namespace && p.uid == q.uid && p.name == q.name && p.statuses[i].name == d
    {
      ContainersApart(p, q, p.statuses[i].name, d);
    }
  }

  /** The pod belongs to a workflow. */
  predicate OfWorkflow(pod: Pod)
  {
    && "workflows.argoproj.io/workflow" in pod.labels
    && pod.labels["workflows.argoproj.io/workflow"] != ""
  }

  /** The labels of a container's counters: the pod's namespace, workflow and node, and its own name. */
  predicate Labelled(pod: Pod, container: string, labels: CpuLabels)
  {
    && labels.namespace == pod.namespace && labels.container == container
    && labels.workflow == (if "workflows.argoproj.io/workflow" in pod.labels
                           then pod.labels["workflows.argoproj.io/workflow"] else "")
    && labels.node == (if "workflows.argoproj.io/workflow-node" in pod.labels
                       then pod.labels["workflows.argoproj.io/workflow-node"] else "")
  }

  /** And its series, which only pods of workflows have. */
  lemma ForgottenSeries(p: Pod, labels: CpuLabels)
    ensures labels in MetricLabels(p) <==>
      OfWorkflow(p) && exists i :: 0 <= i < |p.statuses| && Labelled(p, p.statuses[i].name, labels)
  {
    forall i | 0 <= i < |p.statuses|
      ensures labels == LabelsOf(p, p.statuses[i].name) <==> Labelled(p, p.statuses[i].name, labels)
    {}
  }

  // ----- what observing a pod does to each of its containers -----

  /** The seconds a termination record is worth; 2^63 - 1 nanoseconds at most, and nothing if it ends before it starts. */
  function Worth(t: Terminated): int
  {
    if t.finished <= t.started then 0
    else if t.finished - t.started > 0x7FFF_FFFF_FFFF_FFFF then 0x7FFF_FFFF_FFFF_FFFF
    else t.finished - t.started
  }

  /** A container's mark and counter after its pod was observed, by its own mark and status alone. */
  ghost predicate ContainerObserved(before: Ledger, after: Ledger, pod: Pod, status: ContainerStatus)
  {
    var key := ContainerStateKey(pod, status.name);
    var counts := status.lastTerminated.Some? && status.restartCount > Mark(before, key);
    && Mark(after, key) == (if counts then status.restartCount else Mark(before, key))
    && forall labels :: Labelled(pod, status.name, labels) ==>
         Cpu(after, labels) == Cpu(before, labels) + if counts then Worth(status.lastTerminated.value) else 0
  }

  ghost predicate DistinctNames(pod: Pod)
  {
    forall i, j :: 0 <= i < j < |pod.statuses| ==> pod.statuses[i].name != pod.statuses[j].name
  }

  /** What observing a pod does to the accounts: nothing, if it belongs to no workflow. */
  ghost predicate PodObserved(before: Ledger, after: Ledger, pod: Pod)
  {
    if !OfWorkflow(pod) then after == before else
      && (forall i :: 0 <= i < |pod.statuses| ==> ContainerObserved(before, after, pod, pod.statuses[i]))
      && (forall key :: (forall i :: 0 <= i < |pod.statuses| ==> key != ContainerStateKey(pod, pod.statuses[i].name)) ==>
            Mark(after, key) == Mark(before, key))
      && (forall labels :: (forall i :: 0 <= i < |pod.statuses| ==> !Labelled(pod, pod.statuses[i].name, labels)) ==>
            Cpu(after, labels) == Cpu(before, labels))
  }

  lemma LabelsAre(pod: Pod, container: string, labels: CpuLabels)
    ensures Labelled(pod, container, labels) <==> labels == LabelsOf(pod, container)
  {}

  /** The mark and counter of a container, with its own status taken in or not. */
  ghost predicate NotedIs(before: Ledger, after: Ledger, pod: Pod, status: ContainerStatus, seen: bool)
  {
    var key, labels := ContainerStateKey(pod, status.name), LabelsOf(pod, status.name);
    var counts := seen && status.lastTerminated.Some? && status.restartCount > Mark(before, key);
    && Mark(after, key) == (if counts then status.restartCount else Mark(before, key))
    && Cpu(after, labels) == Cpu(before, labels) + if counts then Worth(status.lastTerminated.value) else 0
  }

  lemma NotedOwn(l: Ledger, mid: Ledger, pod: Pod, status: ContainerStatus)
    requires NotedIs(l, mid, pod, status, false) && status.lastTerminated.Some?
    ensures NotedIs(l, Observe(mid, Noted(pod, status)), pod, status, true)
  {
    ObserveEffect(mid, Noted(pod, status), ContainerStateKey(pod, status.name), LabelsOf(pod, status.name));
  }

  lemma NotedOther(l: Ledger, mid: Ledger, pod: Pod, status: ContainerStatus, seen: bool, other: ContainerStatus)
    requires NotedIs(l, mid, pod, status, seen) && other.lastTerminated.Some? && other.name != status.name
    ensures NotedIs(l, Observe(mid, Noted(pod, other)), pod, status, seen)
  {
    ContainersOfPodApart(pod, status.name, other.name);
    ObserveEffect(mid, Noted(pod, other), ContainerStateKey(pod, status.name), LabelsOf(pod, status.name));
  }

  /** After the first `n` statuses, container `i` has been observed if it was among them. */
  lemma {:induction false} NotedSoFar(l: Ledger, pod: Pod, n: nat, i: nat)
    requires DistinctNames(pod) && n <= |pod.statuses| && i < |pod.statuses|
    ensures NotedIs(l, ObserveAll(l, NotedUpTo(pod, n)), pod, pod.statuses[i], i < n)
  {
    if n > 0 {
      NotedSoFar(l, pod, n - 1, i);
      var mid, status := ObserveAll(l, NotedUpTo(pod, n - 1)), pod.statuses[n - 1];
      if status.lastTerminated.Some? {
        ObserveOne(l, NotedUpTo(pod, n - 1), Noted(pod, status));
        if i == n - 1 {
          NotedOwn(l, mid, pod, status);
        } else {
          NotedOther(l, mid, pod, pod.statuses[i], i < n - 1, status);
        }
      }
    }
  }

  lemma {:induction false} NotedElsewhere(l: Ledger, pod: Pod, n: nat, key: string, labels: CpuLabels)
    requires n <= |pod.statuses|
    ensures (forall i :: 0 <= i < |pod.statuses| ==> key != ContainerStateKey(pod, pod.statuses[i].name)) ==>
      Mark(ObserveAll(l, NotedUpTo(pod, n)), key) == Mark(l, key)
    ensures (forall i :: 0 <= i < |pod.statuses| ==> labels != LabelsOf(pod, pod.statuses[i].name)) ==>
      Cpu(ObserveAll(l, NotedUpTo(pod, n)), labels) == Cpu(l, labels)
  {
    if n > 0 {
      NotedElsewhere(l, pod, n - 1, key, labels);
      var status := pod.statuses[n - 1];
      if status.lastTerminated.Some? {
        var noted := Noted(pod, status);
        ObserveOne(l, NotedUpTo(pod, n - 1), noted);
        ObserveEffect(ObserveAll(l, NotedUpTo(pod, n - 1)), noted, key, labels);
        assert noted.key == ContainerStateKey(pod, status.name) && noted.labels == LabelsOf(pod, status.name);
      }
    }
  }

  /** Each container is accounted for by itself, and nothing else changes. */
  lemma ContainersObserved(l: Ledger, pod: Pod)
    requires DistinctNames(pod)
    ensures PodObserved(l, ObserveAll(l, Observations(pod)), pod)
  {
    if OfWorkflow(pod) {
      var after, n := ObserveAll(l, NotedUpTo(pod, |pod.statuses|)), |pod.statuses|;
      forall i | 0 <= i < n ensures ContainerObserved(l, after, pod, pod.statuses[i]) {
        NotedSoFar(l, pod, n, i);
        LabelsAre(pod, pod.statuses[i].name, LabelsOf(pod, pod.statuses[i].name));
      }
      forall key | forall i :: 0 <= i < n ==> key != ContainerStateKey(pod, pod.statuses[i].name)
        ensures Mark(after, key) == Mark(l, key)
      {
        NotedElsewhere(l, pod, n, key, CpuLabels("", "", "", ""));
      }
      forall labels | forall i :: 0 <= i < n ==> !Labelled(pod, pod.statuses[i].name, labels)
        ensures Cpu(after, labels) == Cpu(l, labels)
      {
        forall i | 0 <= i < n ensures labels != LabelsOf(pod, pod.statuses[i].name) {
          LabelsAre(pod, pod.statuses[i].name, labels);
        }
        NotedElsewhere(l, pod, n, "", labels);
      }
    }
  }

  class PodCollector {
    const collectContainerStats: bool
    var pods: map<string, Pod>
    var restartCounters: map<string, int>
    var cpu: map<CpuLabels, int>     // ContainerCPUUsageSeconds
    var memory: map<CpuLabels, int>  // ContainerMemoryUsageBytes, never set by the collector

    constructor (collectContainerStats: bool)
      ensures this.collectContainerStats == collectContainerStats
      ensures pods == map[] && Accounts() == Ledger(map[], map[])
    {
      this.collectContainerStats := collectContainerStats;
      pods, restartCounters, cpu, memory := map[], map[], map[], map[];
    }

    function Accounts(): Ledger
      reads this
    {
      Ledger(restartCounters, cpu)
    }

    method AddPod(pod: Option<Pod>)
      modifies this`pods, this`restartCounters, this`cpu
      ensures Accounts() ==
        if collectContainerStats && pod.Some? then ObserveAll(old(Accounts()), Observations(pod.value)) else old(Accounts())
      ensures pods ==
        if collectContainerStats && pod.Some? then old(pods)[PodKey(pod.value) := pod.value] else old(pods)
      ensures collectContainerStats && pod.Some? && DistinctNames(pod.value) ==>
        PodObserved(old(Accounts()), Accounts(), pod.value)
    {
      if !collectContainerStats { return; }
      if pod.None? { return; }
      pods := pods[PodKey(pod.value) := pod.value];
      CollectPodMetrics(pod.value);
      if DistinctNames(pod.value) {
        ContainersObserved(old(Accounts()), pod.value);
      }
    }

    method CollectPodMetrics(pod: Pod)
      modifies this`restartCounters, this`cpu
      ensures Accounts() == ObserveAll(old(Accounts()), Observations(pod))
    {
      if LabelOf(pod, WORKFLOW_LABEL) == "" { return; }
      for i := 0 to |pod.statuses|
        invariant Accounts() == ObserveAll(old(Accounts()), NotedUpTo(pod, i))
      {
        var status := pod.statuses[i];
        if status.lastTerminated.Some? {
          ghost var noted := Noted(pod, status);
          ObserveOne(old(Accounts()), NotedUpTo(pod, i), noted);
          CollectTermination(ContainerStateKey(pod, status.name), status, LabelsOf(pod, status.name),
                             status.lastTerminated.value);
        }
      }
    }

    method CollectTermination(stateKey: string, status: ContainerStatus, labels: CpuLabels, terminated: Terminated)
      modifies this`restartCounters, this`cpu
      ensures Accounts() == Observe(old(Accounts()),
        Observation(stateKey, status.restartCount, labels, Sub(terminated.finished, terminated.started)))
      ensures var counts := status.restartCount > old(Mark(Accounts(), stateKey));
        && restartCounters ==
           (if counts then old(restartCounters)[stateKey := status.restartCount] else old(restartCounters))
        && (forall l :: l != labels ==> Cpu(Accounts(), l) == old(Cpu(Accounts(), l)))
        && Cpu(Accounts(), labels) == old(Cpu(Accounts(), labels)) + if counts then Worth(terminated) else 0
    {
      var previous := if stateKey in restartCounters then restartCounters[stateKey] else 0;
      if status.restartCount > previous {
        restartCounters := restartCounters[stateKey := status.restartCount];
      }
      if status.restartCount <= previous { return; }
      var cpuUsage := Sub(terminated.finished, terminated.started);
      if cpuUsage > 0 {
        cpu := Charge(cpu, labels, cpuUsage);
      }
    }

    /** Forgets the containers listed in the deleted pod's status, and their series. */
    method DeletePod(pod: Option<Pod>)
      modifies this
      ensures !collectContainerStats || pod.None? ==>
        Accounts() == old(Accounts()) && pods == old(pods) && memory == old(memory)
      ensures collectContainerStats && pod.Some? ==>
        && restartCounters == old(restartCounters) - StateKeys(pod.value)
        && cpu == old(cpu) - MetricLabels(pod.value) && memory == old(memory) - MetricLabels(pod.value)
        && pods == old(pods) - {PodKey(pod.value)}
    {
      if !collectContainerStats { return; }
      if pod.None? { return; }
      pods := pods - {PodKey(pod.value)};
      var statuses := pod.value.statuses;
      ghost var gone: set<string> := {};
      for i := 0 to |statuses|
        invariant gone == set j | 0 <= j < i :: ContainerStateKey(pod.value, statuses[j].name)
        invariant restartCounters == old(restartCounters) - gone
        invariant cpu == old(cpu) && memory == old(memory) && pods == old(pods) - {PodKey(pod.value)}
      {
        restartCounters := restartCounters - {ContainerStateKey(pod.value, statuses[i].name)};
        gone := gone + {ContainerStateKey(pod.value, statuses[i].name)};
      }
      DeletePodMetrics(pod.value);
    }

    method DeletePodMetrics(pod: Pod)
      modifies this`restartCounters, this`cpu, this`memory
      ensures cpu == old(cpu) - MetricLabels(pod) && memory == old(memory) - MetricLabels(pod)
      ensures restartCounters ==
        if LabelOf(pod, WORKFLOW_LABEL) == "" then old(restartCounters) else old(restartCounters) - StateKeys(pod)
    {
      if LabelOf(pod, WORKFLOW_LABEL) == "" { return; }
      ghost var keys: set<string>, labels: set<CpuLabels> := {}, {};
      for i := 0 to |pod.statuses|
        invariant keys == set j | 0 <= j < i :: ContainerStateKey(pod, pod.statuses[j].name)
        invariant labels == set j | 0 <= j < i :: LabelsOf(pod, pod.statuses[j].name)
        invariant restartCounters == old(restartCounters) - keys
        invariant cpu == old(cpu) - labels && memory == old(memory) - labels
      {
        var container := pod.statuses[i].name;
        restartCounters := restartCounters - {ContainerStateKey(pod, container)};
        cpu := cpu - {LabelsOf(pod, container)};
        memory := memory - {LabelsOf(pod, container)};
        keys := keys + {ContainerStateKey(pod, container)};
        labels := labels + {LabelsOf(pod, container)};
      }
    }
  }
}
