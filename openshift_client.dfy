/** `OpenShiftClient` of the library: the deployment client with OpenShift's
    own notion of active and inactive, and counts that answer 0 at once for a
    namespace without deployments. Its scale arithmetic and first-name lookup
    are the same code as `KubernetesClient`'s and are modelled there. */
module OpenShiftClient {
  import opened Wrappers
  import opened Seqs
  import opened Workloads
  import KubernetesClient

  /** Inactive for OpenShift: `status.available_replicas == 0 or not status.replicas`
      (an unset available count is not 0). */
  predicate Inactive(s: DeploymentStatus)
  {
    s.availableReplicas == Some(0) || Falsy(s.replicas)
  }

  /** Active for OpenShift: `not status.unavailable_replicas and status.available_replicas != 0`
      (an unset available count is not 0, so it counts as active). */
  predicate Active(s: DeploymentStatus)
  {
    Falsy(s.unavailableReplicas) && s.availableReplicas != Some(0)
  }

  function InactiveForService(service: string, labelName: string): Deployment -> bool
  {
    (d: Deployment) => BelongsToService(d, service, labelName) && Inactive(d.status)
  }

  function ActiveForService(service: string, labelName: string): Deployment -> bool
  {
    (d: Deployment) => BelongsToService(d, service, labelName) && Active(d.status)
  }

  /** OpenShift and Kubernetes classify differently: an unset available
      count is active only for OpenShift, and an unavailable count of 0 is
      inactive only for Kubernetes. */
  lemma ClassesDisagreeWithKubernetes()
    ensures var unsetAvailable := DeploymentStatus(Some(2), Some(2), None, None);
            Active(unsetAvailable) && !KubernetesClient.Active(unsetAvailable)
    ensures var zeroUnavailable := DeploymentStatus(Some(1), Some(1), Some(1), Some(0));
            KubernetesClient.Inactive(zeroUnavailable) && !Inactive(zeroUnavailable)
  {
  }

  /** A status is in both OpenShift classes exactly when it has no truthy
      unavailable count, an available count other than 0 and a falsy replica
      count; it is in neither exactly when it has a truthy replica count, an
      available count other than 0 and a truthy unavailable count. */
  lemma ActiveInactiveOverlap(s: DeploymentStatus)
    ensures Active(s) && Inactive(s) <==> Falsy(s.unavailableReplicas) && s.availableReplicas != Some(0) && Falsy(s.replicas)
    ensures !Active(s) && !Inactive(s) <==> !Falsy(s.unavailableReplicas) && s.availableReplicas != Some(0) && !Falsy(s.replicas)
  {
  }

  /** `get_deployment_entity_names_for_service`, an `append` loop here: the
      same names, in the same order, as Kubernetes' comprehension. */
  method GetDeploymentEntityNamesForService(ds: seq<Deployment>, service: string, labelName: string) returns (names: seq<string>)
    ensures names == KubernetesClient.DeploymentEntityNamesForService(ds, service, labelName)
  {
    var keep := KubernetesClient.ForService(service, labelName);
    names := [];
    var i := 0;
    while i < |ds|
      invariant 0 <= i <= |ds|
      invariant names == Names(Filter(ds[..i], keep))
    {
      var step := Filter([ds[i]], keep);
      assert step == if keep(ds[i]) then [ds[i]] else [];
      assert ds[..i + 1] == ds[..i] + [ds[i]];
      FilterAppend(ds[..i], [ds[i]], keep);
      NamesAppend(Filter(ds[..i], keep), step);
      if BelongsToService(ds[i], service, labelName) {
        assert Names(step) == [ds[i].name];
        names := names + [ds[i].name];
      } else {
        assert Names(step) == [];
      }
      i := i + 1;
    }
    assert ds[..i] == ds;
    KubernetesClient.NamesForServiceAreFilteredNames(ds, service, labelName);
  }

  /** `get_inactive_deployment_entities_for_service`. */
  method GetInactiveDeploymentEntitiesForService(ds: seq<Deployment>, service: string, labelName: string)
    returns (inactive: seq<Deployment>)
    ensures inactive == Filter(ds, InactiveForService(service, labelName))
    ensures forall i :: 0 <= i < |inactive| ==>
              BelongsToService(inactive[i], service, labelName) &&
              (inactive[i].status.availableReplicas == Some(0) || Falsy(inactive[i].status.replicas))
  {
    inactive := SelectDeployments(ds, InactiveForService(service, labelName));
  }

  /** `get_inactive_deployment_entities_names_for_service`. */
  method GetInactiveDeploymentEntitiesNamesForService(ds: seq<Deployment>, service: string, labelName: string)
    returns (names: seq<string>)
    ensures names == Names(Filter(ds, InactiveForService(service, labelName)))
  {
    var inactive := GetInactiveDeploymentEntitiesForService(ds, service, labelName);
    names := NamesOf(inactive);
  }

  /** `get_active_deployment_entities_for_service`. */
  method GetActiveDeploymentEntitiesForService(ds: seq<Deployment>, service: string, labelName: string)
    returns (active: seq<Deployment>)
    ensures active == Filter(ds, ActiveForService(service, labelName))
    ensures forall i :: 0 <= i < |active| ==>
              BelongsToService(active[i], service, labelName) &&
              Falsy(active[i].status.unavailableReplicas) && active[i].status.availableReplicas != Some(0)
  {
    active := SelectDeployments(ds, ActiveForService(service, labelName));
  }

  /** `get_active_deployment_entities_names_for_service`. */
  method GetActiveDeploymentEntitiesNamesForService(ds: seq<Deployment>, service: string, labelName: string)
    returns (names: seq<string>)
    ensures names == Names(Filter(ds, ActiveForService(service, labelName)))
  {
    var active := GetActiveDeploymentEntitiesForService(ds, service, labelName);
    names := NamesOf(active);
  }

  /** The counts' early `return 0` for an empty listing. */
  function CountUnlessEmpty(ds: seq<Deployment>, keep: Deployment -> bool): nat
  {
    if ds == [] then 0 else |Filter(ds, keep)|
  }

  /** The early return changes nothing: the count is always the length of the filtered list. */
  lemma {:induction false} CountUnlessEmptyIsFilteredLength(ds: seq<Deployment>, keep: Deployment -> bool)
    ensures CountUnlessEmpty(ds, keep) == |Filter(ds, keep)|
  {
    if ds == [] {
      assert Filter(ds, keep) == [];
    }
  }

  /** `get_inactive_deployment_entities_count_for_service`. */
  method GetInactiveDeploymentEntitiesCountForService(ds: seq<Deployment>, service: string, labelName: string)
    returns (count: nat)
    ensures count == CountUnlessEmpty(ds, InactiveForService(service, labelName))
    ensures count == |Filter(ds, InactiveForService(service, labelName))|
    ensures count <= |KubernetesClient.DeploymentEntityNamesForService(ds, service, labelName)|
  {
    if ds == [] {
      CountUnlessEmptyIsFilteredLength(ds, InactiveForService(service, labelName));
      return 0;
    }
    var inactive := GetInactiveDeploymentEntitiesForService(ds, service, labelName);
    count := |inactive|;
    KubernetesClient.FilterNarrower(ds, InactiveForService(service, labelName), KubernetesClient.ForService(service, labelName));
  }

  /** `get_active_deployment_entities_count_for_service`. */
  method GetActiveDeploymentEntitiesCountForService(ds: seq<Deployment>, service: string, labelName: string)
    returns (count: nat)
    ensures count == CountUnlessEmpty(ds, ActiveForService(service, labelName))
    ensures count == |Filter(ds, ActiveForService(service, labelName))|
    ensures count <= |KubernetesClient.DeploymentEntityNamesForService(ds, service, labelName)|
  {
    if ds == [] {
      CountUnlessEmptyIsFilteredLength(ds, ActiveForService(service, labelName));
      return 0;
    }
    var active := GetActiveDeploymentEntitiesForService(ds, service, labelName);
    count := |active|;
    KubernetesClient.FilterNarrower(ds, ActiveForService(service, labelName), KubernetesClient.ForService(service, labelName));
  }

  /** `get_deployment_entity_pod_selector_labels`: the fetched deployment's
      `match_labels`, `None` when the fetch gave nothing. */
  function DeploymentEntityPodSelectorLabels(deployment: Option<Deployment>): (labels: Option<Labels>)
    ensures labels.None? <==> deployment.None?
    ensures labels.Some? ==> labels.value == deployment.value.matchLabels
  {
    match deployment
    case None => None
    case Some(d) => Some(d.matchLabels)
  }
}
