/** The `OpenShiftClient` of the integration-tests package, which works on
    OpenShift DeploymentConfigs through the dynamic client. Its status fields
    are camelCase (`availableReplicas`, `unavailableReplicas`), and scaling
    goes through one patch body, `_patch_scale_dict`, that the client keeps
    and overwrites from call to call. Its listing, filtering and counting code
    is the library `OpenShiftClient`'s over DeploymentConfig objects. */
module DeploymentConfigClient {
  import opened Wrappers
  import opened Workloads
  import OpenShiftClient

  /** Inactive DeploymentConfig: `availableReplicas == 0 or not replicas`. */
  predicate Inactive(s: DeploymentStatus)
  {
    s.availableReplicas == Some(0) || !(s.replicas.Some? && s.replicas.value != 0)
  }

  /** Active DeploymentConfig: `not unavailableReplicas and availableReplicas != 0`. */
  predicate Active(s: DeploymentStatus)
  {
    !(s.unavailableReplicas.Some? && s.unavailableReplicas.value != 0) &&
    !(s.availableReplicas.Some? && s.availableReplicas.value == 0)
  }

  /** The DeploymentConfig classes are the library OpenShift classes, field for field. */
  lemma SameClassesAsOpenShift(s: DeploymentStatus)
    ensures Inactive(s) <==> OpenShiftClient.Inactive(s)
    ensures Active(s) <==> OpenShiftClient.Active(s)
  {
  }

  /** The replica count a scale-up patches: the fetched config's spec count
      plus one, or 1 when it is unset or nothing was fetched. */
  function ScaleUpTarget(dc: Option<Deployment>): (replicas: int)
    ensures dc.None? || dc.value.specReplicas.None? ==> replicas == 1
    ensures dc.Some? && dc.value.specReplicas.Some? ==> replicas == dc.value.specReplicas.value + 1
  {
    var current := if dc.Some? then dc.value.specReplicas else None;
    if current.None? then 1 else current.value + 1
  }

  /** The replica count a scale-down patches: one less than a truthy spec
      count; nothing is patched for an unset or zero count, or when nothing was fetched. */
  function ScaleDownTarget(dc: Option<Deployment>): (replicas: Option<int>)
    ensures replicas.Some? <==> dc.Some? && !Falsy(dc.value.specReplicas)
    ensures replicas.Some? ==> replicas.value == dc.value.specReplicas.value - 1
  {
    var current := if dc.Some? then dc.value.specReplicas else None;
    if Falsy(current) then None else Some(current.value - 1)
  }

  /** On a fetched config the targets are the deployment arithmetic, except
      that a falsy count is left alone instead of being patched to 0. */
  lemma TargetsAgreeWithDeploymentArithmetic(d: Deployment)
    ensures ScaleUpTarget(Some(d)) == IncrementedReplicas(d.specReplicas)
    ensures ScaleDownTarget(Some(d)).Some? ==> ScaleDownTarget(Some(d)).value == DecrementedReplicas(d.specReplicas)
    ensures ScaleDownTarget(Some(d)).None? <==> DecrementedReplicas(d.specReplicas) == 0 && Falsy(d.specReplicas)
  {
  }

  /** Scaling down a config that was just scaled up targets its original count. */
  lemma ScaleDownUndoesScaleUp(d: Deployment)
    requires d.specReplicas.None? || d.specReplicas.value >= 0
    ensures var up := d.(specReplicas := Some(ScaleUpTarget(Some(d))));
            ScaleDownTarget(Some(up)) == Some(d.specReplicas.GetOr(0))
  {
  }

  /** The client, reduced to its patch body's replica count and the patches
      it has sent, each a config name with the replica count of the body. */
  class Client {
    var patchScaleReplicas: int
    var patches: seq<(string, int)>

    /** `{'spec': {'replicas': 1}}` and nothing sent yet. */
    constructor ()
      ensures patchScaleReplicas == 1 && patches == []
    {
      patchScaleReplicas := 1;
      patches := [];
    }

    /** `set_replicas_for_deployment_entity`: overwrite the body's count, then patch. */
    method SetReplicasForDeploymentEntity(name: string, replicas: int)
      modifies this
      ensures patchScaleReplicas == replicas
      ensures patches == old(patches) + [(name, replicas)]
    {
      patchScaleReplicas := replicas;
      patches := patches + [(name, patchScaleReplicas)];
    }

    /** `scale_up_deployment_entity`: always patches, with the scale-up target. */
    method ScaleUpDeploymentEntity(name: string, dc: Option<Deployment>)
      modifies this
      ensures patchScaleReplicas == ScaleUpTarget(dc)
      ensures patches == old(patches) + [(name, ScaleUpTarget(dc))]
    {
      var replicas: Option<int> := None;
      if dc.Some? {
        replicas := dc.value.specReplicas;
      }
      var target: int;
      if replicas.None? {
        target := 1;
      } else {
        target := replicas.value + 1;
      }
      patchScaleReplicas := target;
      patches := patches + [(name, patchScaleReplicas)];
    }

    /** `scale_down_deployment_entity`: patches only for a truthy count; otherwise
      the body keeps whatever count the previous call left in it. */
    method ScaleDownDeploymentEntity(name: string, dc: Option<Deployment>)
      modifies this
      ensures ScaleDownTarget(dc).Some? ==> patchScaleReplicas == ScaleDownTarget(dc).value &&
                                            patches == old(patches) + [(name, ScaleDownTarget(dc).value)]
      ensures ScaleDownTarget(dc).None? ==> patchScaleReplicas == old(patchScaleReplicas) && patches == old(patches)
    {
      var replicas: Option<int> := None;
      if dc.Some? {
        replicas := dc.value.specReplicas;
      }
      if !Falsy(replicas) {
        patchScaleReplicas := replicas.value - 1;
        patches := patches + [(name, patchScaleReplicas)];
      }
    }
  }

  /** A fresh client scaling a config at zero up and then down (the second
      fetch still reading zero) sends one patch, with 1, and its body keeps that 1. */
  method ScaleDownAtZeroKeepsBody(name: string, d: Deployment) returns (sent: nat, body: int)
    requires Falsy(d.specReplicas)
    ensures sent == 1 && body == 1
  {
    var client := new Client();
    client.ScaleUpDeploymentEntity(name, Some(d));
    client.ScaleDownDeploymentEntity(name, Some(d));
    sent, body := |client.patches|, client.patchScaleReplicas;
  }
}
