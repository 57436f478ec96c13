/** The part of an Argo Workflow object that the exporter reads. */
module Workflows {
  import opened Wrappers
  import Decimal

  /** Nanoseconds since the Unix epoch; Go's zero time is `None`. */
  type Time = int

  const NANOS_PER_SECOND := 1_000_000_000

  /** time.Time.Unix: whole seconds, rounded towards minus infinity. */
  function Unix(t: Time): int { t / NANOS_PER_SECOND }

  const MAX_DURATION := 0x7FFF_FFFF_FFFF_FFFF

  /** time.Time.Sub, in nanoseconds: a difference that no Duration can hold is cut off. */
  function Sub(t: Time, u: Time): int
  {
    if t - u > MAX_DURATION then MAX_DURATION
    else if t - u < -MAX_DURATION - 1 then -MAX_DURATION - 1
    else t - u
  }

  datatype Workflow = Workflow(
    namespace: string,
    name: string,
    uid: string,
    phase: string,
    serviceAccountName: string,
    priority: Option<int>,
    created: Option<Time>,
    started: Option<Time>,
    finished: Option<Time>,
    nodes: Option<map<string, string>>)  // node id to node phase; None is Go's nil map

  /** The cache key of the object with these labels. */
  function Key(namespace: string, name: string): string { namespace + "/" + name }

  function KeyOf(wf: Workflow): string { Key(wf.namespace, wf.name) }

  /** The phases every workflow has a status-phase series for. */
  const PHASES: seq<string> := ["Pending", "Running", "Succeeded", "Failed", "Error"]

  function PriorityLabel(wf: Workflow): string
  {
    if wf.priority.Some? then Decimal.Itoa(wf.priority.value) else "0"
  }

  function ServiceAccountLabel(wf: Workflow): string
  {
    if wf.serviceAccountName == "" then "default" else wf.serviceAccountName
  }

  /** Kubernetes names have no slash; this is what makes a key name one object. */
  predicate SlashFree(s: string) { '/' !in s }

  /** With slash-free namespaces a key determines its namespace and name. */
  lemma KeyInjective(ns1: string, n1: string, ns2: string, n2: string)
    requires SlashFree(ns1) && SlashFree(ns2)
    ensures Key(ns1, n1) == Key(ns2, n2) <==> ns1 == ns2 && n1 == n2
  {
    if Key(ns1, n1) == Key(ns2, n2) {
      var k := Key(ns1, n1);
      assert k[|ns1|] == '/' && k[|ns2|] == '/';
      assert forall i :: 0 <= i < |ns1| ==> k[i] == ns1[i];
      assert forall i :: 0 <= i < |ns2| ==> k[i] == ns2[i];
      assert |ns1| == |ns2|;
      assert ns1 == k[..|ns1|] == ns2;
      assert n1 == k[|ns1| + 1..] == n2;
    }
  }
}
