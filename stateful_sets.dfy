/** The stateful-set keywords of `PlatformLibrary` that work on one stateful
    set: scaling through its scale sub-resource, the pod names it is expected
    to own, and the label lookup over the namespace's stateful sets. */
module StatefulSets {
  import opened Wrappers
  import opened Strings
  import opened Seqs
  import opened Workloads

  /** `set_replicas_for_stateful_set`: the fetched scale gets exactly the
      requested spec count and is patched back; its status is left alone. */
  method SetReplicasForStatefulSet(scale: Scale, replicas: int)
    modifies scale
    ensures scale.specReplicas == Some(replicas)
    ensures scale.statusReplicas == old(scale.statusReplicas)
  {
    scale.specReplicas := Some(replicas);
  }

  /** `scale_up_stateful_set`: an unset spec count becomes 1, any other grows by one. */
  method ScaleUpStatefulSet(scale: Scale)
    modifies scale
    ensures scale.specReplicas == Some(IncrementedReplicas(old(scale.specReplicas)))
    ensures scale.statusReplicas == old(scale.statusReplicas)
  {
    if scale.specReplicas.None? {
      scale.specReplicas := Some(1);
    } else {
      scale.specReplicas := Some(scale.specReplicas.value + 1);
    }
  }

  /** `scale_down_stateful_set`: a falsy spec count becomes 0, any other shrinks by one. */
  method ScaleDownStatefulSet(scale: Scale)
    modifies scale
    ensures scale.specReplicas == Some(DecrementedReplicas(old(scale.specReplicas)))
    ensures scale.statusReplicas == old(scale.statusReplicas)
  {
    if Falsy(scale.specReplicas) {
      scale.specReplicas := Some(0);
    } else {
      scale.specReplicas := Some(scale.specReplicas.value - 1);
    }
  }

  /** `f'{name}-{number}'`. */
  function OrdinalPodName(name: string, number: nat): string
  {
    name + "-" + NatToString(number)
  }

  /** `get_pod_names_for_stateful_set`: `name-0` up to `name-(N-1)` for
      N = `status.replicas`; `range(None)` is a TypeError, and a negative N
      gives no names. */
  function PodNamesForStatefulSet(name: string, status: StatefulSetStatus): (r: Result<seq<string>, Error>)
    ensures status.replicas.None? <==> r == Err(TypeError)
    ensures status.replicas.Some? ==> r.Ok? && |r.value| == if status.replicas.value < 0 then 0 else status.replicas.value
    ensures r.Ok? ==> forall i :: 0 <= i < |r.value| ==> r.value[i] == OrdinalPodName(name, i)
  {
    match status.replicas
    case None => Err(TypeError)
    case Some(n) =>
      var count: nat := if n < 0 then 0 else n;
      Ok(seq(count, i requires 0 <= i < count => OrdinalPodName(name, i)))
  }

  /** The ordinal can be read back from a pod name: the text after `name-` is its decimal number. */
  lemma OrdinalOfPodName(name: string, number: nat)
    ensures |OrdinalPodName(name, number)| > |name| + 1
    ensures OrdinalPodName(name, number)[..|name| + 1] == name + "-"
    ensures ParseNat(OrdinalPodName(name, number)[|name| + 1..]) == number
  {
    assert OrdinalPodName(name, number)[|name| + 1..] == NatToString(number);
    ParseNatToString(number);
  }

  /** The expected pod names of a stateful set are pairwise distinct. */
  lemma PodNamesDistinct(name: string, status: StatefulSetStatus, i: nat, j: nat)
    requires PodNamesForStatefulSet(name, status).Ok?
    requires i < j < |PodNamesForStatefulSet(name, status).value|
    ensures PodNamesForStatefulSet(name, status).value[i] != PodNamesForStatefulSet(name, status).value[j]
  {
    OrdinalOfPodName(name, i);
    OrdinalOfPodName(name, j);
  }

  /** A stateful set's own label `labelName` (missing counts as `''`) equals `labelValue`. */
  function LabelledWith(labelName: string, labelValue: string): StatefulSet -> bool
  {
    (s: StatefulSet) => LabelValue(s.labels, labelName) == labelValue
  }

  /** `get_stateful_set_names_by_label`: in listing order, the names of the
      stateful sets whose label `labelName` equals `labelValue`. */
  function StatefulSetNamesByLabel(sets: seq<StatefulSet>, labelValue: string, labelName: string): (names: seq<string>)
    ensures |names| <= |sets|
    ensures forall i :: 0 <= i < |sets| && LabelValue(sets[i].labels, labelName) == labelValue ==> sets[i].name in names
    ensures forall n :: n in names ==> exists i :: 0 <= i < |sets| && sets[i].name == n && LabelValue(sets[i].labels, labelName) == labelValue
  {
    var keep := LabelledWith(labelName, labelValue);
    var selected := Filter(sets, keep);
    forall i | 0 <= i < |sets| && LabelValue(sets[i].labels, labelName) == labelValue
      ensures sets[i].name in StatefulSetNames(selected)
    {
      assert keep(sets[i]);
      assert sets[i] in selected;
      var j :| 0 <= j < |selected| && selected[j] == sets[i];
      assert StatefulSetNames(selected)[j] == sets[i].name;
    }
    forall n | n in StatefulSetNames(selected)
      ensures exists i :: 0 <= i < |sets| && sets[i].name == n && LabelValue(sets[i].labels, labelName) == labelValue
    {
      var j :| 0 <= j < |selected| && StatefulSetNames(selected)[j] == n;
      assert selected[j] in sets && keep(selected[j]);
      var i :| 0 <= i < |sets| && sets[i] == selected[j];
      assert sets[i].name == n;
    }
    StatefulSetNames(selected)
  }
}
