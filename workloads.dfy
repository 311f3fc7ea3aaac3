/** The records the platform returns for workload resources, Python's
    truthiness of an optional replica count, the scale sub-resource and the
    `append` loops every client uses to build its lists. */
module Workloads {
  import opened Wrappers
  import opened Seqs

  /** A label mapping (a resource's labels, or a selector). */
  type Labels = map<string, string>

  /** `not count` in Python for an optional integer: unset (`None`) or zero. */
  predicate Falsy(count: Option<int>)
  {
    count.None? || count.value == 0
  }

  /** The replica counters of a deployment (or DeploymentConfig) status; each may be unset. */
  datatype DeploymentStatus = DeploymentStatus(
    replicas: Option<int>,
    readyReplicas: Option<int>,
    availableReplicas: Option<int>,
    unavailableReplicas: Option<int>)

  /** A deployment-like resource: name, pod-template labels, spec replica count,
      pod selector (`spec.selector.match_labels`) and status. */
  datatype Deployment = Deployment(
    name: string,
    templateLabels: Labels,
    specReplicas: Option<int>,
    matchLabels: Labels,
    status: DeploymentStatus)

  datatype StatefulSetStatus = StatefulSetStatus(replicas: Option<int>, readyReplicas: Option<int>)

  /** A stateful set: name, its own labels, pod-template labels and status. */
  datatype StatefulSet = StatefulSet(
    name: string,
    labels: Labels,
    templateLabels: Labels,
    status: StatefulSetStatus)

  datatype Pod = Pod(name: string, labels: Labels)

  /** What the library raises: a resource the platform does not know, a bad
      `direction` argument, or arithmetic on an unset count. */
  datatype Error = NotFound(name: string) | QuotedDirection | InvalidDirection(direction: string) | TypeError

  /** `labels.get(key, '')`. */
  function LabelValue(labels: Labels, key: string): string
  {
    if key in labels then labels[key] else ""
  }

  /** The deployment's pod-template label `labelName` equals `service`. */
  predicate BelongsToService(d: Deployment, service: string, labelName: string)
  {
    LabelValue(d.templateLabels, labelName) == service
  }

  function Names(ds: seq<Deployment>): (names: seq<string>)
    ensures |names| == |ds|
  {
    seq(|ds|, i requires 0 <= i < |ds| => ds[i].name)
  }

  /** The names of two listings one after the other. */
  lemma NamesAppend(ds: seq<Deployment>, more: seq<Deployment>)
    ensures Names(ds + more) == Names(ds) + Names(more)
  {
    assert forall i :: 0 <= i < |ds| + |more| ==> Names(ds + more)[i] == (Names(ds) + Names(more))[i];
  }

  function PodNames(pods: seq<Pod>): (names: seq<string>)
    ensures |names| == |pods|
  {
    seq(|pods|, i requires 0 <= i < |pods| => pods[i].name)
  }

  function StatefulSetNames(sets: seq<StatefulSet>): (names: seq<string>)
    ensures |names| == |sets|
  {
    seq(|sets|, i requires 0 <= i < |sets| => sets[i].name)
  }

  /** The `append` loop over a listing: the deployments `keep` accepts, in listing order. */
  method SelectDeployments(ds: seq<Deployment>, keep: Deployment -> bool) returns (selected: seq<Deployment>)
    ensures selected == Filter(ds, keep)
  {
    selected := [];
    var i := 0;
    while i < |ds|
      invariant 0 <= i <= |ds|
      invariant selected == Filter(ds[..i], keep)
    {
      assert ds[..i + 1] == ds[..i] + [ds[i]];
      FilterAppend(ds[..i], [ds[i]], keep);
      if keep(ds[i]) {
        selected := selected + [ds[i]];
      }
      i := i + 1;
    }
    assert ds[..i] == ds;
  }

  /** The `append` loop collecting `metadata.name` of each deployment. */
  method NamesOf(ds: seq<Deployment>) returns (names: seq<string>)
    ensures |names| == |ds|
    ensures forall i :: 0 <= i < |ds| ==> names[i] == ds[i].name
  {
    names := [];
    var i := 0;
    while i < |ds|
      invariant 0 <= i <= |ds|
      invariant |names| == i
      invariant forall j :: 0 <= j < i ==> names[j] == ds[j].name
    {
      names := names + [ds[i].name];
      i := i + 1;
    }
  }

  /** The early-return scan `for d in ds: if keep(d): return ...`: the index
      of the first deployment `keep` accepts, if any. */
  method FirstIndexWhere(ds: seq<Deployment>, keep: Deployment -> bool) returns (r: Option<nat>)
    ensures r.None? <==> forall i :: 0 <= i < |ds| ==> !keep(ds[i])
    ensures r.Some? ==> r.value < |ds| && keep(ds[r.value])
    ensures r.Some? ==> forall i :: 0 <= i < r.value ==> !keep(ds[i])
  {
    var i := 0;
    while i < |ds|
      invariant 0 <= i <= |ds|
      invariant forall j :: 0 <= j < i ==> !keep(ds[j])
    {
      if keep(ds[i]) {
        return Some(i);
      }
      i := i + 1;
    }
    return None;
  }

  /** The scale sub-resource of a deployment or stateful set, which the
      scaling keywords read, change in place and patch back. */
  class Scale {
    var specReplicas: Option<int>
    var statusReplicas: Option<int>

    constructor (spec: Option<int>, status: Option<int>)
      ensures specReplicas == spec && statusReplicas == status
    {
      specReplicas := spec;
      statusReplicas := status;
    }
  }

  /** Scale-up arithmetic: an unset count becomes 1, any other count grows by one. */
  function IncrementedReplicas(current: Option<int>): int
  {
    if current.None? then 1 else current.value + 1
  }

  /** Scale-down arithmetic: a falsy count becomes 0, any other count shrinks by one. */
  function DecrementedReplicas(current: Option<int>): int
  {
    if Falsy(current) then 0 else current.value - 1
  }

  /** Scaling up makes a non-negative count positive. */
  lemma IncrementedIsPositive(current: Option<int>)
    requires current.None? || current.value >= 0
    ensures IncrementedReplicas(current) >= 1
    ensures current.Some? ==> IncrementedReplicas(current) == current.value + 1
  {
  }

  /** Scaling down never makes a non-negative count negative, and lowers every
      positive count by exactly one. */
  lemma DecrementedStaysNonNegative(current: Option<int>)
    requires current.None? || current.value >= 0
    ensures DecrementedReplicas(current) >= 0
    ensures !Falsy(current) ==> DecrementedReplicas(current) == current.value - 1
    ensures Falsy(current) ==> DecrementedReplicas(current) == 0
  {
  }

  /** Scaling down undoes scaling up (an unset count comes back as 0). */
  lemma DownUndoesUp(current: Option<int>)
    requires current.None? || current.value >= 0
    ensures DecrementedReplicas(Some(IncrementedReplicas(current))) == current.GetOr(0)
  {
  }

  /** Scaling up undoes scaling down, for a count that was positive. */
  lemma UpUndoesDown(current: Option<int>)
    requires !Falsy(current)
    ensures IncrementedReplicas(Some(DecrementedReplicas(current))) == current.value
  {
  }
}
