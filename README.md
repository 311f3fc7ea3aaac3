# qubership-docker-integration-tests: verified model of the keyword logic

The repository provides Robot Framework keyword libraries for integration tests
on Kubernetes and OpenShift. Most keywords pass a call straight through to the
Kubernetes, OpenShift, boto3 or HTTP client. This project models the small layer
of real logic underneath those calls:

- **Readiness classification and counting.** A workload is classed as *active*
  or *inactive* from its optional replica counts. There are three deployment
  variants: `PlatformLibrary`, `KubernetesClient` and `OpenShiftClient`. There
  are also two stateful-set predicates. Each variant is written out separately,
  including how it treats an unset count versus 0 (Python "falsy").
- **Scale convergence pollers** `check_service_is_scaled` and
  `check_service_of_stateful_sets_is_scaled`. These run over an abstract clock
  and a cluster oracle (the cluster's state at each instant).
- **Label-selector matching** with `_do_labels_satisfy_selector`, and the lookups
  built on it.
- **Replica arithmetic on scale objects.** The library clients change the scale
  object in place. The DeploymentConfig client keeps a shared patch body.
- **Container helpers and pod naming.** These cover env-var lookup and update,
  stateful-set pod naming, and image selection.
- **Robot tag exclusion** in `scripts/robot_tags_resolver.py`: the command, the
  description, and the tag merge.
- **Prometheus alert-state lookup and metric values** in `MonitoringLibrary`.

A cluster read becomes a parameter of the model:
- a listing (`seq<Deployment>`, `seq<Pod>`, ...);
- a directory from name to status, where a missing name gives `NotFound`;
- for the pollers, a function from clock time to such a directory.

Python's `None` becomes `Option`. An exception the code lets escape becomes the
`Err` case of a `Result`, for example a `TypeError` from `None + 1`.

Modules:
- `Wrappers`, `Strings` and `Seqs` are helpers: the `Option` and `Result` types,
  search, split and join, decimal digits, and `Filter`.
- `Workloads` holds the shared records, `Falsy`, the `Scale` class and the
  shared `append` loops.
- The other modules follow the source classes: `LabelSelector`,
  `PlatformCounters`, `ScalePoller`, `StatefulSets`, `ContainerEnv`,
  `KubernetesClient`, `OpenShiftClient`, `DeploymentConfigClient`,
  `RobotTagsResolver` and `MonitoringLibrary`.

The two copies of `KubernetesClient.py`, under `library/` and under
`integration-tests-built-in-library/`, have identical code and are modelled
once. The `KubernetesClient` rows cite the library copy, and its scenario
lemmas cite the test-library copy and its tests.

In the library copy of `OpenShiftClient.py`, the scale code (lines 125-148) and
the first-name lookup (lines 71-79) are the same text as in
`KubernetesClient.py` lines 113-136 and 57-65. The `KubernetesClient` members
model both.

`DeploymentConfigClient` models the test-library `OpenShiftClient.py`. Its
listing, filter and count functions have the same shape as the library
`OpenShiftClient`'s, and `SameClassesAsOpenShift` proves that its predicates
classify exactly as the library `OpenShiftClient`'s do. The `OpenShiftClient`
members therefore model both.

The `PlatformLibrary` keywords that only forward to the chosen platform client
are modelled by the client members they forward to. This covers the
`*_for_service` counts and lists, the deployment scaling keywords, and the
pod-selector lookup.

Two behaviours of the code worth knowing:
- **Deployment poller's `False` outcome.** The deadline test is
  `now <= start + timeout` and the clock advances in steps of five seconds, so
  `WaitForDeployments` returns `False` at a time in the interval
  (`start + timeout`, `start + timeout + 5`].
- **`set_replicas_for_stateful_set`.** It writes only `spec.replicas`; unlike
  the deployment version, it leaves `status` alone.

The library `OpenShiftClient.py` repeats the `KubernetesClient.py` text of the
`*_names_for_service` keywords, changing only the filters they call. The
`OpenShiftClient` members mirror that, so the two modules carry members with
the same text over different filters.

## Model

| member | source | states |
|---|---|---|
| LabelSelector.DoLabelsSatisfySelector | library/integration_library_builtIn/PlatformLibrary.py:815-824 | the selector test as written: too many selector pairs fail at once, else every selector pair must be a label pair; SatisfiesIffSubset proves it equal to the sub-mapping test |
| LabelSelector.SatisfiesIffSubset | library/integration_library_builtIn/PlatformLibrary.py:816-824 | the selector test holds exactly when every (key, value) pair of the selector is a pair of the labels; the length short-circuit never changes the answer |
| LabelSelector.SelectorBoundaryCases | library/integration_library_builtIn/PlatformLibrary.py:816-824 | an empty selector is satisfied by any labels; empty labels satisfy only the empty selector; a selector with more pairs than the labels is never satisfied |
| LabelSelector.MoreLabelsStillSatisfy | library/integration_library_builtIn/PlatformLibrary.py:816-824 | adding labels never breaks a match |
| LabelSelector.DeploymentEntityNamesBySelector | library/integration_library_builtIn/PlatformLibrary.py:774-785 | every deployment whose template labels contain the selector is named, and only such deployments are named |
| LabelSelector.StatefulSetNamesBySelector | library/integration_library_builtIn/PlatformLibrary.py:1170-1181 | every stateful set whose template labels contain the selector is named, and only such sets are named |
| LabelSelector.PodsBySelector | library/integration_library_builtIn/PlatformLibrary.py:1333-1342 | a pod is kept exactly when its labels contain the selector |
| LabelSelector.EmptyPodSelectorDisagreement | library/integration_library_builtIn/PlatformLibrary.py:801-813 | an empty selector picks every pod in the selector lookup, yet the deployment pod-name lookup treats an empty selector as no pods |
| LabelSelector.PodNamesForDeploymentEntity | library/integration_library_builtIn/PlatformLibrary.py:801-813 | no pods, a missing deployment or an empty selector give []; otherwise every pod whose labels contain the selector is named, and every name is that of such a pod |
| PlatformCounters.InactiveDeployment | library/integration_library_builtIn/PlatformLibrary.py:518 | a deployment is inactive when its replica count is unset or 0; PlatformDeploymentClassification relates it to ActiveDeployment |
| PlatformCounters.ActiveDeployment | library/integration_library_builtIn/PlatformLibrary.py:584-585 | a deployment is active when it has no unavailable replicas and a non-zero replica count |
| PlatformCounters.ActiveStatefulSet | library/integration_library_builtIn/PlatformLibrary.py:1030 | a stateful set is active when its replica and ready counts are equal, two unset counts included; StatefulSetClassification relates it to InactiveStatefulSet |
| PlatformCounters.InactiveStatefulSet | library/integration_library_builtIn/PlatformLibrary.py:1054 | a stateful set is inactive when its replica count is unset or 0, or differs from its ready count |
| PlatformCounters.CountNamed | library/integration_library_builtIn/PlatformLibrary.py:514-520 | succeeds exactly when every name is found; the count is at most the number of names and equals it exactly when every named resource qualifies |
| PlatformCounters.CountNamedFirstMissing | library/integration_library_builtIn/PlatformLibrary.py:514-518 | a failed count is NotFound of the first name the directory lacks |
| PlatformCounters.CountNamedPrefixError | library/integration_library_builtIn/PlatformLibrary.py:514-520 | once a prefix of the names fails to resolve, the whole count fails with the same error |
| PlatformCounters.CountResources | library/integration_library_builtIn/PlatformLibrary.py:1027-1032 | the counting loop computes CountNamed |
| PlatformCounters.GetInactiveDeploymentEntitiesCount | library/integration_library_builtIn/PlatformLibrary.py:507-520 | counts the named deployments whose status.replicas is falsy; at most the number of names; fails exactly when a name is missing |
| PlatformCounters.GetActiveDeploymentEntitiesCount | library/integration_library_builtIn/PlatformLibrary.py:573-587 | counts the named deployments whose unavailable count is falsy and whose replicas are truthy; at most the number of names |
| PlatformCounters.GetActiveStatefulSetsCount | library/integration_library_builtIn/PlatformLibrary.py:1019-1032 | counts the named stateful sets with replicas == ready replicas (both unset counts); at most the number of names |
| PlatformCounters.GetInactiveStatefulSetsCount | library/integration_library_builtIn/PlatformLibrary.py:1035-1056 | counts the named stateful sets with falsy replicas or replicas != ready replicas; also models the alias keyword |
| PlatformCounters.CountsCover | library/integration_library_builtIn/PlatformLibrary.py:1019-1056 | when every resource satisfies one of two predicates, the two counts add up to at least the number of names |
| PlatformCounters.CountsDisjoint | library/integration_library_builtIn/PlatformLibrary.py:507-587 | when no resource satisfies both predicates, the two counts add up to at most the number of names |
| PlatformCounters.StatefulSetClassification | library/integration_library_builtIn/PlatformLibrary.py:1027-1056 | every stateful set is active or inactive, and it is both exactly when replicas == ready and replicas is falsy |
| PlatformCounters.StatefulSetCountsCoverNames | library/integration_library_builtIn/PlatformLibrary.py:1019-1056 | active count + inactive count >= number of names |
| PlatformCounters.PlatformDeploymentClassification | library/integration_library_builtIn/PlatformLibrary.py:514-587 | no deployment is both active and inactive; it is neither exactly when both replicas and unavailable replicas are truthy |
| PlatformCounters.DeploymentCountsWithinNames | library/integration_library_builtIn/PlatformLibrary.py:507-587 | active count + inactive count <= number of names |
| PlatformCounters.GetActiveStatefulSetsCounts | library/integration_library_builtIn/PlatformLibrary.py:1003-1017 | counts the listed stateful sets whose labels satisfy the selector and that are active |
| ScalePoller.ParseDirection | library/integration_library_builtIn/PlatformLibrary.py:632-637 | after lower-casing: up and down are accepted; the four quoted spellings give the quoting error; anything else gives the generic error naming the lower-cased direction |
| ScalePoller.DirectionIgnoresCase | library/integration_library_builtIn/PlatformLibrary.py:632 | the direction is judged after lower-casing |
| ScalePoller.DirectionExamples | library/integration_library_builtIn/PlatformLibrary.py:1075-1079 | "UP" is up, "Down" is down, "\"Up\"" is the quoting error, "sideways" is the generic error |
| ScalePoller.RequestedNames | library/integration_library_builtIn/PlatformLibrary.py:639-640 | a list is taken as given; a string is split on single spaces into at least one name, which joined by spaces give back the string |
| ScalePoller.NameStringOfJoinedNames | library/integration_library_builtIn/PlatformLibrary.py:1081-1082 | names without spaces, joined by spaces and passed as a string, are split back into the same names |
| ScalePoller.EmptyNameString | library/integration_library_builtIn/PlatformLibrary.py:639-640 | an empty string argument asks for one empty name |
| ScalePoller.DeploymentWait | library/integration_library_builtIn/PlatformLibrary.py:646-651 | the deadline-first loop from a clock time: past the deadline False, else one poll giving True, the error of the poll, or a sleep of 5 and another round; WaitForDeployments computes it and DeploymentTrueWasSeen, DeploymentFalseNeverSeen and DeploymentNegativeTimeout give its meaning |
| ScalePoller.DeploymentTrueWasSeen | library/integration_library_builtIn/PlatformLibrary.py:639-651 | True means some poll on the 5-second schedule, no later than the deadline, saw every named deployment qualify |
| ScalePoller.DeploymentFalseNeverSeen | library/integration_library_builtIn/PlatformLibrary.py:639-651 | False means every scheduled poll up to the deadline resolved all names and saw a shortfall |
| ScalePoller.DeploymentNegativeTimeout | library/integration_library_builtIn/PlatformLibrary.py:642-646 | with a negative timeout the deployment poller answers False without polling |
| ScalePoller.StatefulSetWait | library/integration_library_builtIn/PlatformLibrary.py:1087-1092 | the poll-first loop from a clock time: one poll giving True, the error of the poll, False once past the deadline, or a sleep of 5 and another round; WaitForStatefulSets computes it and the StatefulSet lemmas give its meaning |
| ScalePoller.StatefulSetTrueWasSeen | library/integration_library_builtIn/PlatformLibrary.py:1081-1092 | True means the first poll, or a poll no more than 5 past the deadline, saw every named set qualify |
| ScalePoller.StatefulSetFalseNeverSeen | library/integration_library_builtIn/PlatformLibrary.py:1081-1092 | False means some poll happened after the deadline and every poll saw a shortfall |
| ScalePoller.StatefulSetPollsAtLeastOnce | library/integration_library_builtIn/PlatformLibrary.py:1086-1088 | if the sets already qualify at the start, the answer is True whatever the timeout |
| ScalePoller.WaitForDeployments | library/integration_library_builtIn/PlatformLibrary.py:639-651 | the loop computes the deadline-first poll; False is returned within 5 after the deadline; True after at least one poll by the deadline; past the deadline it returns False without polling |
| ScalePoller.ServiceIsScaled | library/integration_library_builtIn/PlatformLibrary.py:632-651 | the keyword as a function of the start time: a bad direction is an error before any poll, else the deployment wait up to start + timeout; CheckServiceIsScaled computes it and the DeploymentTrueWasSeen and DeploymentFalseNeverSeen lemmas give its meaning |
| ScalePoller.CheckServiceIsScaled | library/integration_library_builtIn/PlatformLibrary.py:615-651 | a bad direction fails before any poll; otherwise the deployment wait runs until start + timeout |
| ScalePoller.WaitForStatefulSets | library/integration_library_builtIn/PlatformLibrary.py:1081-1092 | the loop polls at least once; False only after the deadline (within 5 of it when the start is not past it); past the deadline it polls exactly once |
| ScalePoller.StatefulSetsAreScaled | library/integration_library_builtIn/PlatformLibrary.py:1074-1091 | the keyword as a function of the start time: a bad direction is an error before any poll, else the poll-first stateful-set wait up to start + timeout; CheckServiceOfStatefulSetsIsScaled computes it and the StatefulSet lemmas give its meaning |
| ScalePoller.CheckServiceOfStatefulSetsIsScaled | library/integration_library_builtIn/PlatformLibrary.py:1059-1092 | a bad direction fails before any poll; a valid one polls at least once; False only after start + timeout |
| StatefulSets.SetReplicasForStatefulSet | library/integration_library_builtIn/PlatformLibrary.py:1197-1212 | spec.replicas becomes the requested count; status is untouched |
| StatefulSets.ScaleUpStatefulSet | library/integration_library_builtIn/PlatformLibrary.py:1214-1232 | spec: unset becomes 1, otherwise +1; status untouched |
| StatefulSets.ScaleDownStatefulSet | library/integration_library_builtIn/PlatformLibrary.py:1234-1252 | spec: falsy becomes 0, otherwise -1; status untouched |
| Workloads.IncrementedReplicas | library/integration_library_builtIn/PlatformLibrary.py:1227-1230 | the scale-up arithmetic of `spec.replicas`, also used at KubernetesClient.py:121-124: unset becomes 1, else one more; IncrementedIsPositive and DownUndoesUp state its properties |
| Workloads.DecrementedReplicas | library/integration_library_builtIn/PlatformLibrary.py:1247-1250 | the scale-down arithmetic of `spec.replicas`, also used at KubernetesClient.py:130-133: falsy becomes 0, else one less; DecrementedStaysNonNegative and UpUndoesDown state its properties |
| Workloads.IncrementedIsPositive | library/integration_library_builtIn/PlatformLibrary.py:1227-1230 | scaling up a non-negative count gives at least 1, exactly one more when the count is set |
| Workloads.DecrementedStaysNonNegative | library/integration_library_builtIn/PlatformLibrary.py:1247-1250 | scaling down a non-negative count never goes negative; a truthy count loses exactly one and a falsy one becomes 0 |
| Workloads.DownUndoesUp | library/integration_library_builtIn/PlatformLibrary.py:1227-1250 | scaling down after scaling up gives back the count (an unset count as 0) |
| Workloads.UpUndoesDown | library/integration_library_builtIn/PlatformLibrary.py:1227-1250 | scaling up after scaling down gives back a positive count |
| Workloads.SelectDeployments | library/integration_library_builtIn/KubernetesClient.py:39-45 | the append loop keeps exactly the accepted deployments, in order |
| Workloads.NamesOf | library/integration_library_builtIn/KubernetesClient.py:51-55 | the append loop gives the names of the deployments, one per deployment, in order |
| Workloads.FirstIndexWhere | library/integration_library_builtIn/KubernetesClient.py:61-65 | the early-return scan finds the first accepted deployment, or none when none is accepted |
| StatefulSets.PodNamesForStatefulSet | library/integration_library_builtIn/PlatformLibrary.py:1254-1267 | `name-0` to `name-(N-1)` in order for N = status.replicas; an unset count is a TypeError; a negative count gives no names |
| StatefulSets.OrdinalPodName | library/integration_library_builtIn/PlatformLibrary.py:1267 | the f-string `name-number` with the number in decimal; OrdinalOfPodName and PodNamesDistinct show the ordinal is recoverable and the names distinct |
| StatefulSets.OrdinalOfPodName | library/integration_library_builtIn/PlatformLibrary.py:1267 | each pod name starts with the set name and a dash, and the rest parses back to the ordinal |
| StatefulSets.PodNamesDistinct | library/integration_library_builtIn/PlatformLibrary.py:1267 | the generated pod names are pairwise distinct |
| StatefulSets.StatefulSetNamesByLabel | library/integration_library_builtIn/PlatformLibrary.py:948-960 | a set is named exactly when its label (missing read as '') equals the value |
| ContainerEnv.LastEnvFor | library/integration_library_builtIn/PlatformLibrary.py:909-914 | the env of the last container with that name, since each match overwrites; an env list found comes from a container of that name; no container of that name gives None |
| ContainerEnv.GetEnvironmentsForContainer | library/integration_library_builtIn/PlatformLibrary.py:909-914 | the loop returns the env of the last container with that name |
| ContainerEnv.EnvMap | library/integration_library_builtIn/PlatformLibrary.py:920-926 | a name is a key exactly when some entry with that name is requested and reported (with the reference check on, a None value is skipped); keys are requested names |
| ContainerEnv.EnvMapLastWins | library/integration_library_builtIn/PlatformLibrary.py:920-926 | the last reported entry for a name decides its value, with None read as "" |
| ContainerEnv.EnvMapReferenceModes | library/integration_library_builtIn/PlatformLibrary.py:922-926 | a name whose values are all None is left out with the reference check on; without it every requested name present is a key; the checked result's keys are a subset |
| ContainerEnv.GetEnvVariables | library/integration_library_builtIn/PlatformLibrary.py:917-927 | None for an absent or empty env list, otherwise the map of requested values |
| ContainerEnv.Updated | library/integration_library_builtIn/PlatformLibrary.py:901-904 | the same entries with the same names, in the same order |
| ContainerEnv.SetNewVariables | library/integration_library_builtIn/PlatformLibrary.py:901-906 | entries named in the update map take the new value; every other entry keeps its value |
| ContainerEnv.GetAfterSet | library/integration_library_builtIn/PlatformLibrary.py:901-927 | reading a variable after setting it gives the new value |
| ContainerEnv.LastReported | library/integration_library_builtIn/PlatformLibrary.py:920-926 | a reported entry has a last reported entry of the same name |
| ContainerEnv.GetEnvironmentVariablesForContainer | library/integration_library_builtIn/PlatformLibrary.py:886-892 | reads the variables of the last container of that name |
| ContainerEnv.PrepareEntityWithEnvironmentVariables | library/integration_library_builtIn/PlatformLibrary.py:893-907 | succeeds exactly when the last container of that name has an env, and otherwise raises TypeError; on success, that list's entries whose names are keys of the update take the new value while the rest keep theirs, and no other entry object may change |
| ContainerEnv.GetImage | library/integration_library_builtIn/PlatformLibrary.py:1627-1637 | a single container gives its image; several containers and a name give a matching container's image or None; no name or no containers give None |
| ContainerEnv.FirstNamed | library/integration_library_builtIn/PlatformLibrary.py:1631-1633 | the first container with the name, or None exactly when there is none |
| ContainerEnv.GetImageFirstMatch | library/integration_library_builtIn/PlatformLibrary.py:1630-1633 | with several containers, the first one with the name decides the image |
| KubernetesClient.Inactive | library/integration_library_builtIn/KubernetesClient.py:42-43 | a deployment is inactive when its replica count is unset or it reports unavailable replicas at all; ActiveInactiveOverlap gives its overlap with Active |
| KubernetesClient.Active | library/integration_library_builtIn/KubernetesClient.py:82-83 | a deployment is active when it has no unavailable replicas and a set available count |
| KubernetesClient.ActiveInactiveOverlap | library/integration_library_builtIn/KubernetesClient.py:42-43 | active and inactive are not complements: both hold exactly when available is set and either unavailable is 0 or both replicas and unavailable are unset; neither holds exactly when replicas is set and unavailable and available are unset |
| KubernetesClient.DeploymentEntityNamesForService | library/integration_library_builtIn/KubernetesClient.py:29-32 | a deployment is named exactly when its template label (missing read as '') equals the service |
| KubernetesClient.NamesForServiceKeepOrder | library/integration_library_builtIn/KubernetesClient.py:31-32 | the names of a concatenated listing are the names of the first part followed by those of the second |
| KubernetesClient.GetInactiveDeploymentEntitiesForService | library/integration_library_builtIn/KubernetesClient.py:34-45 | keeps, in order, the service's deployments with replicas unset or an unavailable count set |
| KubernetesClient.GetInactiveDeploymentEntitiesNamesForService | library/integration_library_builtIn/KubernetesClient.py:47-55 | the names of those deployments, in order |
| KubernetesClient.GetInactiveDeploymentEntitiesCountForService | library/integration_library_builtIn/KubernetesClient.py:67-71 | the length of that list; at most the service's deployment count; equal to the listing size exactly when every deployment belongs and is inactive |
| KubernetesClient.GetActiveDeploymentEntitiesForService | library/integration_library_builtIn/KubernetesClient.py:73-85 | keeps, in order, the service's deployments with a falsy unavailable count and an available count set |
| KubernetesClient.GetActiveDeploymentEntitiesNamesForService | library/integration_library_builtIn/KubernetesClient.py:87-96 | the names of those deployments, in order |
| KubernetesClient.GetActiveDeploymentEntitiesCountForService | library/integration_library_builtIn/KubernetesClient.py:98-102 | the length of that list; at most the service's deployment count; equal to the listing size exactly when every deployment belongs and is active |
| KubernetesClient.FilterNarrower | library/integration_library_builtIn/KubernetesClient.py:67-105 | a narrower filter keeps no more deployments |
| KubernetesClient.DeploymentEntitiesCountForService | library/integration_library_builtIn/KubernetesClient.py:104-105 | at most the listing size, equal exactly when every deployment belongs to the service |
| KubernetesClient.GetFirstDeploymentEntityNameForService | library/integration_library_builtIn/KubernetesClient.py:57-65 | None exactly when the service has no deployments; otherwise the first of its names |
| KubernetesClient.IncrementedStatus | library/integration_library_builtIn/KubernetesClient.py:125 | an unset status is a TypeError; otherwise one more |
| KubernetesClient.DecrementedStatus | library/integration_library_builtIn/KubernetesClient.py:134-135 | a falsy status is kept as it is; otherwise one less |
| KubernetesClient.DecrementedStatusNonNegative | library/integration_library_builtIn/KubernetesClient.py:134-135 | a non-negative status stays non-negative and agrees with the spec's scale-down arithmetic |
| KubernetesClient.SetReplicasForDeploymentEntity | library/integration_library_builtIn/KubernetesClient.py:113-117 | spec and status both become the requested count |
| KubernetesClient.ScaleUpDeploymentEntity | library/integration_library_builtIn/KubernetesClient.py:119-126 | spec is raised (unset to 1); a set status gains one, and an unset status is a TypeError raised after spec was changed |
| KubernetesClient.ScaleDownDeploymentEntity | library/integration_library_builtIn/KubernetesClient.py:128-136 | spec is lowered (falsy to 0); status is lowered only when truthy |
| KubernetesClient.ScaleUpFromTwo | integration-tests-built-in-library/tests/test_platform_library.py:119-132 | a scale at 2/2 becomes 3/3 |
| KubernetesClient.ScaleDownFromTwo | integration-tests-built-in-library/tests/test_platform_library.py:134-147 | a scale at 2/2 becomes 1/1; one at 0/0 stays 0/0 |
| KubernetesClient.GetDeploymentEntityPodSelectorLabels | integration-tests-built-in-library/integration_library_builtIn/KubernetesClient.py:138-143 | the match labels of the first deployment with that name, or None exactly when there is none |
| OpenShiftClient.Inactive | library/integration_library_builtIn/OpenShiftClient.py:47 | a deployment is inactive when its available count is 0 or its replica count is unset or 0; ActiveInactiveOverlap gives its overlap with Active |
| OpenShiftClient.Active | library/integration_library_builtIn/OpenShiftClient.py:90-91 | a deployment is active when it has no unavailable replicas and its available count is not 0, an unset count included |
| OpenShiftClient.ClassesDisagreeWithKubernetes | library/integration_library_builtIn/OpenShiftClient.py:45-49 | an unset available count is active here but not for KubernetesClient; an unavailable count of 0 is inactive for KubernetesClient but not here |
| OpenShiftClient.ActiveInactiveOverlap | library/integration_library_builtIn/OpenShiftClient.py:88-92 | both hold exactly when unavailable is falsy, available is not 0 and replicas is falsy; neither exactly when unavailable and replicas are truthy and available is not 0 |
| OpenShiftClient.GetDeploymentEntityNamesForService | integration-tests-built-in-library/integration_library_builtIn/OpenShiftClient.py:17-23 | the append loop gives the same names, in the same order, as the comprehension in KubernetesClient |
| OpenShiftClient.GetInactiveDeploymentEntitiesForService | library/integration_library_builtIn/OpenShiftClient.py:38-49 | keeps, in order, the service's deployments with available == 0 or falsy replicas |
| OpenShiftClient.GetInactiveDeploymentEntitiesNamesForService | library/integration_library_builtIn/OpenShiftClient.py:51-60 | the names of those deployments, in order |
| OpenShiftClient.CountUnlessEmptyIsFilteredLength | library/integration_library_builtIn/OpenShiftClient.py:62-69 | the empty-namespace shortcut always gives the filtered length |
| OpenShiftClient.GetInactiveDeploymentEntitiesCountForService | library/integration_library_builtIn/OpenShiftClient.py:62-69 | 0 for an empty namespace, else the inactive list's length, at most the service's deployment count |
| OpenShiftClient.GetActiveDeploymentEntitiesForService | library/integration_library_builtIn/OpenShiftClient.py:81-93 | keeps, in order, the service's deployments with a falsy unavailable count and available != 0 |
| OpenShiftClient.GetActiveDeploymentEntitiesNamesForService | library/integration_library_builtIn/OpenShiftClient.py:95-104 | the names of those deployments, in order |
| OpenShiftClient.GetActiveDeploymentEntitiesCountForService | library/integration_library_builtIn/OpenShiftClient.py:106-113 | 0 for an empty namespace, else the active list's length, at most the service's deployment count |
| OpenShiftClient.DeploymentEntityPodSelectorLabels | library/integration_library_builtIn/OpenShiftClient.py:150-152 | the match labels of a found deployment, None for none |
| DeploymentConfigClient.Inactive | integration-tests-built-in-library/integration_library_builtIn/OpenShiftClient.py:34 | a DeploymentConfig is inactive when its available count is 0 or its replica count is unset or 0; SameClassesAsOpenShift proves it is OpenShiftClient.Inactive |
| DeploymentConfigClient.Active | integration-tests-built-in-library/integration_library_builtIn/OpenShiftClient.py:77-78 | a DeploymentConfig is active when it has no unavailable replicas and its available count is not 0; SameClassesAsOpenShift proves it is OpenShiftClient.Active |
| DeploymentConfigClient.SameClassesAsOpenShift | integration-tests-built-in-library/integration_library_builtIn/OpenShiftClient.py:32-35 | the camelCase predicates classify every status as the library OpenShift predicates do |
| DeploymentConfigClient.ScaleUpTarget | integration-tests-built-in-library/integration_library_builtIn/OpenShiftClient.py:110-119 | 1 when the config is absent or its count unset, else the count + 1 |
| DeploymentConfigClient.ScaleDownTarget | integration-tests-built-in-library/integration_library_builtIn/OpenShiftClient.py:123-130 | a target exists exactly when the config is found with a truthy count, and is that count - 1 |
| DeploymentConfigClient.TargetsAgreeWithDeploymentArithmetic | integration-tests-built-in-library/integration_library_builtIn/OpenShiftClient.py:110-132 | the DeploymentConfig targets agree with the deployment scale arithmetic, except that a falsy count patches nothing |
| DeploymentConfigClient.ScaleDownUndoesScaleUp | integration-tests-built-in-library/integration_library_builtIn/OpenShiftClient.py:110-132 | scaling down a config just scaled up targets its old count |
| DeploymentConfigClient.Client.SetReplicasForDeploymentEntity | integration-tests-built-in-library/integration_library_builtIn/OpenShiftClient.py:105-108 | the shared body holds the requested count and one patch with it is sent |
| DeploymentConfigClient.Client.ScaleUpDeploymentEntity | integration-tests-built-in-library/integration_library_builtIn/OpenShiftClient.py:110-121 | the shared body holds the scale-up target and one patch with it is sent |
| DeploymentConfigClient.Client.ScaleDownDeploymentEntity | integration-tests-built-in-library/integration_library_builtIn/OpenShiftClient.py:123-132 | with a target, the body holds it and one patch is sent; otherwise body and patch log are unchanged |
| DeploymentConfigClient.ScaleDownAtZeroKeepsBody | integration-tests-built-in-library/integration_library_builtIn/OpenShiftClient.py:8 | from a fresh client, scaling a config at zero up then down sends one patch and the body keeps the 1 of the first |
| RobotTagsResolver.Put | scripts/robot_tags_resolver.py:47 | one assignment of `dict.update`: an existing key keeps its place and takes the new value, a new key is appended last |
| RobotTagsResolver.PutKeepsDict | scripts/robot_tags_resolver.py:47 | an assignment never creates a repeated key |
| RobotTagsResolver.GetPut | scripts/robot_tags_resolver.py:47 | after an assignment the key reads as the new value and every other key as before |
| RobotTagsResolver.Update | scripts/robot_tags_resolver.py:47 | `d.update(n)` as the assignments of the pairs of n in order; GetUpdate and UpdateKeys give what it reads as and its keys |
| RobotTagsResolver.GetUpdate | scripts/robot_tags_resolver.py:47 | after `update`, a key of the new dict reads its new value and any other key its old one |
| RobotTagsResolver.UpdateKeys | scripts/robot_tags_resolver.py:47 | the updated dict's keys are the keys of both |
| RobotTagsResolver.CreateExcludeTagsRobotCommand | scripts/robot_tags_resolver.py:19-20 | "" exactly for no tags; otherwise "-e " followed by the tags joined by "OR"; one tag t gives "-e t" |
| RobotTagsResolver.CommandRoundTrip | scripts/robot_tags_resolver.py:20 | tags not containing "OR" are recovered by splitting the command's argument on "OR" |
| RobotTagsResolver.CreateExcludeTagsDescription | scripts/robot_tags_resolver.py:23-31 | "" exactly for an empty dict; otherwise it starts with the title line |
| RobotTagsResolver.DescriptionRoundTrip | scripts/robot_tags_resolver.py:26-31 | after the title, the lines split on "\n" are "key: value" for each entry in order |
| RobotTagsResolver.CollectedTags | scripts/robot_tags_resolver.py:45-49 | the `tags` list after every module: a dict adds its keys and a list its items, in walk order, anything else adds nothing; DescribedTagsAreExcluded relates it to CollectedDescriptions |
| RobotTagsResolver.CollectedDescriptions | scripts/robot_tags_resolver.py:45-47 | `tags_with_description` after every module: each dict result merged in by update, later results winning; LastDescriptionWins states which result supplies a key |
| RobotTagsResolver.DescribedTagsAreExcluded | scripts/robot_tags_resolver.py:45-49 | every described tag is also among the excluded tags |
| RobotTagsResolver.LastDescriptionWins | scripts/robot_tags_resolver.py:45-47 | a key's description is the one from the last dict result that has the key |
| RobotTagsResolver.ResolveRobotTags | scripts/robot_tags_resolver.py:45-53 | the tag set is every collected tag once; the printed line is the command over those tags, ";", the description of the merged dicts, ";" |
| MonitoringLibrary.Qualifies | integration-tests-built-in-library/integration_library_builtIn/MonitoringLibrary.py:49-53 | a rule answers `get_alert_status` when its name is the alert and its `namespace` label is the namespace, or it has no such label and its query contains `namespace="<ns>"`; NamespaceLabelDecides shows a present label alone decides |
| MonitoringLibrary.NamespaceLabelDecides | integration-tests-built-in-library/integration_library_builtIn/MonitoringLibrary.py:50-56 | a rule with a namespace label qualifies exactly when the label is the namespace, whatever its query says |
| MonitoringLibrary.StatusInRules | integration-tests-built-in-library/integration_library_builtIn/MonitoringLibrary.py:48-56 | a group yields no state exactly when none of its rules qualifies |
| MonitoringLibrary.StatusInRulesIsFirstQualifying | integration-tests-built-in-library/integration_library_builtIn/MonitoringLibrary.py:48-56 | the first qualifying rule of a group decides the group's state |
| MonitoringLibrary.GetAlertStatus | integration-tests-built-in-library/integration_library_builtIn/MonitoringLibrary.py:45-57 | groups in order, rules in order, the state of the first qualifying rule, else None; AlertStatusNoneIff and AlertStatusIsFirstQualifying state this of every input |
| MonitoringLibrary.AlertStatusNoneIff | integration-tests-built-in-library/integration_library_builtIn/MonitoringLibrary.py:47-57 | the answer is None exactly when no rule of any group qualifies |
| MonitoringLibrary.AlertStatusOfConcatenation | integration-tests-built-in-library/integration_library_builtIn/MonitoringLibrary.py:47-57 | searching two lists of groups gives the first list's answer if any, else the second's |
| MonitoringLibrary.AlertStatusIsFirstQualifying | integration-tests-built-in-library/integration_library_builtIn/MonitoringLibrary.py:46-57 | the first qualifying rule in group-then-rule order decides the returned state |
| MonitoringLibrary.GetFullMetricValues | integration-tests-built-in-library/integration_library_builtIn/MonitoringLibrary.py:71-75 | one value per series, in order, each the series' `value[1]` |
| MonitoringLibrary.GetLastMetricValue | integration-tests-built-in-library/integration_library_builtIn/MonitoringLibrary.py:83-84 | an empty result is an IndexError; otherwise `value[1]` of the first series |
| MonitoringLibrary.LastMetricValueIsFirstSeries | integration-tests-built-in-library/integration_library_builtIn/MonitoringLibrary.py:84 | with two series of different values, the value returned is not the last series' value |
| MonitoringLibrary.RulesUrl | integration-tests-built-in-library/integration_library_builtIn/MonitoringLibrary.py:32 | the host text (None printed as "None") followed by /api/v1/rules |
| MonitoringLibrary.QueryUrl | integration-tests-built-in-library/integration_library_builtIn/MonitoringLibrary.py:60 | the host text, /api/v1/query?query=, then the metric name, each recoverable by position |
| MonitoringLibrary.UrlsShareHost | integration-tests-built-in-library/integration_library_builtIn/MonitoringLibrary.py:32-60 | both URLs start with the same host text, and different metrics give different query URLs |
| MonitoringLibrary.Monitoring.constructor | integration-tests-built-in-library/integration_library_builtIn/MonitoringLibrary.py:31-32 | the library keeps the host it is given and its rules URL is RulesUrl of that host |

## Left out

- All requests to the cluster, S3, Prometheus or OAuth servers are left out, together with client and credential construction. Reads become parameters (listings, name directories, a time-indexed cluster); writes become the new state of the scale object or the patch log.
- The `managed_by_operator` flag is ignored by the library, which always uses KubernetesClient; that choice is not modelled.
- The one-line CRUD keywords are pass-throughs to the SDKs, with no logic of their own.
- YAML file parsing, `execute_command_in_pod` streaming, the S3 and file-system libraries and `OAuthLibrary` are I/O or foreign code.
- Real time and sleeping are left out. The pollers run on an abstract clock that only the 5-second sleep advances; a poll takes no time.
- Logging, `print`, `os.walk` and the dynamic import of `tags_exclusion.py` are left out. `ResolveRobotTags` receives the already-returned results in walk order.
- The test library's DeploymentConfig `get_deployment_entity_pod_selector_labels` (OpenShiftClient.py:134-136) returns `spec.selector` of a fetched object and has no logic beyond the fetch.
- `get_resource_image` only dispatches on the resource type before calling `get_image`. Its fetch is left out.
- The MonitoringLibrary Grafana custom-resource keywords, the HTTP GET and `json.loads` are left out.
- ParseDirection: lower-casing is modelled for ASCII letters only. Python's `str.lower` also folds non-ASCII letters, which can make a non-ASCII spelling look like "up".
- ResolveRobotTags: Python iterates a `set` in an unspecified order. The model picks some order listing each collected tag exactly once and states the command over that order; it does not say which order, as the source does not.
- Qualifies: a `namespace` label whose JSON value is null reads as `None` in the source, so the query test decides for it; labels are `map<string, string>` here, so such a label cannot be written and the model only covers a label that is absent or holds a string.
- RobotTagsResolver.Dict: a Python dict is modelled as an insertion-ordered sequence of pairs, which is how CPython iterates it; this ordered form is used only for the tag dicts, where the order reaches the printed description.
- GetEnvVariables: the returned dict is a `map<string, string>`, so its key order (the order in which names are first reported) is not modelled; labels, selectors and `variables_to_update` are unordered maps too, as the source only looks them up.
- Counts and replica numbers are unbounded integers; Python ints have no width to wrap.
- Labels that are `None` are left out. `DoLabelsSatisfySelector` takes maps, while `len(None)` in the source would raise.
- Status fields with wrong types are left out.
- GetFullMetricValues and GetLastMetricValue: a series whose `value` has fewer than two elements would raise an IndexError; Prometheus always sends pairs, so `Sample.value` is a pair.
