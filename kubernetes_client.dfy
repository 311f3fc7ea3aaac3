/** `KubernetesClient`, the platform client `PlatformLibrary` delegates its
    deployment keywords to: label-filtered lists of the namespace's
    deployments, their active/inactive classification and counts, and the
    scale arithmetic on a deployment's scale sub-resource. The namespace's
    deployments are the listing `ds`, in the order the platform returns them. */
module KubernetesClient {
  import opened Wrappers
  import opened Seqs
  import opened Workloads

  /** The deployment's template label `labelName` (missing reads as `''`) equals `service`. */
  function ForService(service: string, labelName: string): Deployment -> bool
  {
    (d: Deployment) => BelongsToService(d, service, labelName)
  }

  /** Inactive for `KubernetesClient`: `status.replicas is None or status.unavailable_replicas is not None`. */
  predicate Inactive(s: DeploymentStatus)
  {
    s.replicas.None? || s.unavailableReplicas.Some?
  }

  /** Active for `KubernetesClient`: `not status.unavailable_replicas and status.available_replicas is not None`. */
  predicate Active(s: DeploymentStatus)
  {
    Falsy(s.unavailableReplicas) && s.availableReplicas.Some?
  }

  function InactiveForService(service: string, labelName: string): Deployment -> bool
  {
    (d: Deployment) => BelongsToService(d, service, labelName) && Inactive(d.status)
  }

  function ActiveForService(service: string, labelName: string): Deployment -> bool
  {
    (d: Deployment) => BelongsToService(d, service, labelName) && Active(d.status)
  }

  /** The two classes are not complements: a status with an available count is
      in both exactly when its unavailable count is 0, or unset together with
      its replica count; it is in neither
      exactly when it has a replica count, no unavailable count and no available count. */
  lemma ActiveInactiveOverlap(s: DeploymentStatus)
    ensures Active(s) && Inactive(s) <==>
              s.availableReplicas.Some? && (s.unavailableReplicas == Some(0) || (s.replicas.None? && s.unavailableReplicas.None?))
    ensures !Active(s) && !Inactive(s) <==> s.replicas.Some? && s.unavailableReplicas.None? && s.availableReplicas.None?
  {
  }

  /** `get_deployment_entity_names_for_service`: in listing order, the names of
      the deployments of the service. */
  function DeploymentEntityNamesForService(ds: seq<Deployment>, service: string, labelName: string): (names: seq<string>)
    ensures |names| <= |ds|
    ensures forall i :: 0 <= i < |ds| && BelongsToService(ds[i], service, labelName) ==> ds[i].name in names
    ensures forall n :: n in names ==> exists i :: 0 <= i < |ds| && ds[i].name == n && BelongsToService(ds[i], service, labelName)
  {
    var selected := Filter(ds, ForService(service, labelName));
    forall i | 0 <= i < |ds| && BelongsToService(ds[i], service, labelName)
      ensures ds[i].name in Names(selected)
    {
      var j :| 0 <= j < |selected| && selected[j] == ds[i];
      assert Names(selected)[j] == ds[i].name;
    }
    forall n | n in Names(selected)
      ensures exists i :: 0 <= i < |ds| && ds[i].name == n && BelongsToService(ds[i], service, labelName)
    {
      var j :| 0 <= j < |selected| && Names(selected)[j] == n;
      var i :| 0 <= i < |ds| && ds[i] == selected[j];
    }
    Names(selected)
  }

  /** The names for the service are the names of the deployments the label filter keeps. */
  lemma NamesForServiceAreFilteredNames(ds: seq<Deployment>, service: string, labelName: string)
    ensures DeploymentEntityNamesForService(ds, service, labelName) == Names(Filter(ds, ForService(service, labelName)))
  {
  }

  /** The names keep listing order: the names of two listings one after the
      other are the names of each, one after the other. */
  lemma {:induction false} NamesForServiceKeepOrder(ds: seq<Deployment>, more: seq<Deployment>, service: string, labelName: string)
    ensures DeploymentEntityNamesForService(ds + more, service, labelName) ==
            DeploymentEntityNamesForService(ds, service, labelName) + DeploymentEntityNamesForService(more, service, labelName)
  {
    var keep := ForService(service, labelName);
    NamesForServiceAreFilteredNames(ds + more, service, labelName);
    NamesForServiceAreFilteredNames(ds, service, labelName);
    NamesForServiceAreFilteredNames(more, service, labelName);
    FilterAppend(ds, more, keep);
    NamesAppend(Filter(ds, keep), Filter(more, keep));
  }

  /** `get_inactive_deployment_entities_for_service`. */
  method GetInactiveDeploymentEntitiesForService(ds: seq<Deployment>, service: string, labelName: string)
    returns (inactive: seq<Deployment>)
    ensures inactive == Filter(ds, InactiveForService(service, labelName))
    ensures forall i :: 0 <= i < |inactive| ==>
              BelongsToService(inactive[i], service, labelName) &&
              (inactive[i].status.replicas.None? || inactive[i].status.unavailableReplicas.Some?)
  {
    inactive := SelectDeployments(ds, InactiveForService(service, labelName));
  }

  /** `get_inactive_deployment_entities_names_for_service`. */
  method GetInactiveDeploymentEntitiesNamesForService(ds: seq<Deployment>, service: string, labelName: string)
    returns (names: seq<string>)
    ensures names == Names(Filter(ds, InactiveForService(service, labelName)))
  {
    var inactive := GetInactiveDeploymentEntitiesForService(ds, service, labelName);
    names := NamesOf(inactive);
  }

  /** `get_inactive_deployment_entities_count_for_service`: the length of the
      inactive list; all of the service's deployments are inactive exactly
      when it equals the count of the service's deployments. */
  method GetInactiveDeploymentEntitiesCountForService(ds: seq<Deployment>, service: string, labelName: string)
    returns (count: nat)
    ensures count == |Filter(ds, InactiveForService(service, labelName))|
    ensures count <= |DeploymentEntityNamesForService(ds, service, labelName)|
    ensures count == |ds| <==> forall i :: 0 <= i < |ds| ==> BelongsToService(ds[i], service, labelName) && Inactive(ds[i].status)
  {
    var inactive := GetInactiveDeploymentEntitiesForService(ds, service, labelName);
    count := |inactive|;
    FilterKeepsAll(ds, InactiveForService(service, labelName));
    FilterNarrower(ds, InactiveForService(service, labelName), ForService(service, labelName));
  }

  /** `get_active_deployment_entities_for_service`. */
  method GetActiveDeploymentEntitiesForService(ds: seq<Deployment>, service: string, labelName: string)
    returns (active: seq<Deployment>)
    ensures active == Filter(ds, ActiveForService(service, labelName))
    ensures forall i :: 0 <= i < |active| ==>
              BelongsToService(active[i], service, labelName) &&
              Falsy(active[i].status.unavailableReplicas) && active[i].status.availableReplicas.Some?
  {
    active := SelectDeployments(ds, ActiveForService(service, labelName));
  }

  /** `get_active_deployment_entities_names_for_service`. */
  method GetActiveDeploymentEntitiesNamesForService(ds: seq<Deployment>, service: string, labelName: string)
    returns (names: seq<string>)
    ensures names == Names(Filter(ds, ActiveForService(service, labelName)))
  {
    var active := GetActiveDeploymentEntitiesForService(ds, service, labelName);
    names := NamesOf(active);
  }

  /** `get_active_deployment_entities_count_for_service`. */
  method GetActiveDeploymentEntitiesCountForService(ds: seq<Deployment>, service: string, labelName: string)
    returns (count: nat)
    ensures count == |Filter(ds, ActiveForService(service, labelName))|
    ensures count <= |DeploymentEntityNamesForService(ds, service, labelName)|
    ensures count == |ds| <==> forall i :: 0 <= i < |ds| ==> BelongsToService(ds[i], service, labelName) && Active(ds[i].status)
  {
    var active := GetActiveDeploymentEntitiesForService(ds, service, labelName);
    count := |active|;
    FilterKeepsAll(ds, ActiveForService(service, labelName));
    FilterNarrower(ds, ActiveForService(service, labelName), ForService(service, labelName));
  }

  /** A filter that keeps no more than another keeps no more elements. */
  lemma {:induction false} FilterNarrower(ds: seq<Deployment>, narrow: Deployment -> bool, wide: Deployment -> bool)
    requires forall d :: narrow(d) ==> wide(d)
    ensures |Filter(ds, narrow)| <= |Filter(ds, wide)|
    decreases |ds|
  {
    if ds != [] {
      FilterNarrower(ds[1..], narrow, wide);
    }
  }

  /** `get_deployment_entities_count_for_service`. */
  function DeploymentEntitiesCountForService(ds: seq<Deployment>, service: string, labelName: string): (count: nat)
    ensures count <= |ds|
    ensures count == |ds| <==> forall i :: 0 <= i < |ds| ==> BelongsToService(ds[i], service, labelName)
  {
    FilterKeepsAll(ds, ForService(service, labelName));
    |DeploymentEntityNamesForService(ds, service, labelName)|
  }

  /** `get_first_deployment_entity_name_for_service`: the name of the first
      deployment of the service in the listing, `None` when there is none;
      it heads the list of the service's names. */
  method GetFirstDeploymentEntityNameForService(ds: seq<Deployment>, service: string, labelName: string)
    returns (name: Option<string>)
    ensures name.None? <==> DeploymentEntityNamesForService(ds, service, labelName) == []
    ensures name.Some? ==> name.value == DeploymentEntityNamesForService(ds, service, labelName)[0]
  {
    var found := FirstIndexWhere(ds, ForService(service, labelName));
    if found.Some? {
      FilterFirst(ds, ForService(service, labelName), found.value);
      name := Some(ds[found.value].name);
    } else {
      FilterNone(ds, ForService(service, labelName));
      name := None;
    }
  }

  /** `scale.status.replicas += 1` after scale-up: `None + 1` is a TypeError. */
  function IncrementedStatus(status: Option<int>): (r: Result<int, Error>)
    ensures r.Err? <==> status.None?
    ensures r.Ok? ==> r.value == status.value + 1
  {
    match status
    case None => Err(TypeError)
    case Some(n) => Ok(n + 1)
  }

  /** `if scale.status.replicas: scale.status.replicas -= 1`. */
  function DecrementedStatus(status: Option<int>): (r: Option<int>)
    ensures Falsy(status) ==> r == status
    ensures !Falsy(status) ==> r == Some(status.value - 1)
  {
    if Falsy(status) then status else Some(status.value - 1)
  }

  /** From a non-negative count scale-down never goes negative. */
  lemma DecrementedStatusNonNegative(status: Option<int>)
    requires status.None? || status.value >= 0
    ensures DecrementedStatus(status).None? || DecrementedStatus(status).value >= 0
    ensures DecrementedStatus(status).Some? ==> DecrementedStatus(status).value == DecrementedReplicas(status)
  {
  }

  /** `set_replicas_for_deployment_entity`: spec and status both get the requested count. */
  method SetReplicasForDeploymentEntity(scale: Scale, replicas: int)
    modifies scale
    ensures scale.specReplicas == Some(replicas) && scale.statusReplicas == Some(replicas)
  {
    scale.specReplicas := Some(replicas);
    scale.statusReplicas := Some(replicas);
  }

  /** `scale_up_deployment_entity`: the spec count is raised first; an unset
      status count then raises TypeError, leaving the status as it was and the
      scale unpatched. */
  method ScaleUpDeploymentEntity(scale: Scale) returns (r: Result<(), Error>)
    modifies scale
    ensures scale.specReplicas == Some(IncrementedReplicas(old(scale.specReplicas)))
    ensures r.Err? <==> old(scale.statusReplicas).None?
    ensures r.Err? ==> r.error == TypeError && scale.statusReplicas == old(scale.statusReplicas)
    ensures r.Ok? ==> scale.statusReplicas == Some(IncrementedStatus(old(scale.statusReplicas)).value)
  {
    if scale.specReplicas.None? {
      scale.specReplicas := Some(1);
    } else {
      scale.specReplicas := Some(scale.specReplicas.value + 1);
    }
    if scale.statusReplicas.None? {
      return Err(TypeError);
    }
    scale.statusReplicas := Some(scale.statusReplicas.value + 1);
    return Ok(());
  }

  /** `scale_down_deployment_entity`: a falsy spec count becomes 0, any other
      shrinks by one; the status count shrinks only when truthy. */
  method ScaleDownDeploymentEntity(scale: Scale)
    modifies scale
    ensures scale.specReplicas == Some(DecrementedReplicas(old(scale.specReplicas)))
    ensures scale.statusReplicas == DecrementedStatus(old(scale.statusReplicas))
  {
    if scale.specReplicas.None? || Falsy(scale.specReplicas) {
      scale.specReplicas := Some(0);
    } else {
      scale.specReplicas := Some(scale.specReplicas.value - 1);
    }
    if !Falsy(scale.statusReplicas) {
      scale.statusReplicas := Some(scale.statusReplicas.value - 1);
    }
  }

  /** The scale-up scenario of the library's tests: 2 and 2 become 3 and 3. */
  method ScaleUpFromTwo() returns (spec: Option<int>, status: Option<int>)
    ensures spec == Some(3) && status == Some(3)
  {
    var scale := new Scale(Some(2), Some(2));
    var r := ScaleUpDeploymentEntity(scale);
    spec, status := scale.specReplicas, scale.statusReplicas;
  }

  /** The scale-down scenario of the library's tests: 2 and 2 become 1 and 1;
      from 0 and 0 both stay at 0. */
  method ScaleDownFromTwo() returns (spec: Option<int>, status: Option<int>, specAtZero: Option<int>, statusAtZero: Option<int>)
    ensures spec == Some(1) && status == Some(1)
    ensures specAtZero == Some(0) && statusAtZero == Some(0)
  {
    var scale := new Scale(Some(2), Some(2));
    ScaleDownDeploymentEntity(scale);
    spec, status := scale.specReplicas, scale.statusReplicas;
    var empty := new Scale(Some(0), Some(0));
    ScaleDownDeploymentEntity(empty);
    specAtZero, statusAtZero := empty.specReplicas, empty.statusReplicas;
  }

  function Named(name: string): Deployment -> bool
  {
    (d: Deployment) => d.name == name
  }

  /** `get_deployment_entity_pod_selector_labels`: `match_labels` of the first
      deployment called `name`, `None` when there is none. */
  method GetDeploymentEntityPodSelectorLabels(ds: seq<Deployment>, name: string) returns (labels: Option<Labels>)
    ensures labels.None? <==> forall i :: 0 <= i < |ds| ==> ds[i].name != name
    ensures labels.Some? ==> exists i :: 0 <= i < |ds| && ds[i].name == name && labels.value == ds[i].matchLabels &&
                                         forall j :: 0 <= j < i ==> ds[j].name != name
  {
    var found := FirstIndexWhere(ds, Named(name));
    if found.Some? {
      labels := Some(ds[found.value].matchLabels);
    } else {
      labels := None;
    }
  }
}
