/** `PlatformLibrary._do_labels_satisfy_selector` and the keyword lookups
    that filter deployments, stateful sets and pods through it. */
module LabelSelector {
  import opened Wrappers
  import opened Seqs
  import opened Workloads

  /** Every key of `selector` is a key of `labels` with the same value. */
  predicate IsSubset(selector: Labels, labels: Labels)
  {
    forall k :: k in selector ==> k in labels && labels[k] == selector[k]
  }

  /** The selector test as the library writes it: a selector with more pairs
      than the labels fails at once; otherwise every (key, value) pair of the
      selector must be one of the labels' pairs. */
  predicate DoLabelsSatisfySelector(labels: Labels, selector: Labels)
  {
    if |selector.Items| > |labels.Items| then false
    else forall pair :: pair in selector.Items ==> pair in labels.Items
  }

  lemma {:induction false} SubsetCardinality(a: set<string>, b: set<string>)
    requires a <= b
    ensures |a| <= |b|
    decreases |b|
  {
    if a != {} {
      var x :| x in a;
      SubsetCardinality(a - {x}, b - {x});
    }
  }

  /** The length short-circuit never changes the answer: the test holds exactly
      when the selector is a sub-mapping of the labels. */
  lemma SatisfiesIffSubset(labels: Labels, selector: Labels)
    ensures DoLabelsSatisfySelector(labels, selector) <==> IsSubset(selector, labels)
  {
    assert |selector.Items| == |selector.Keys|;
    assert |labels.Items| == |labels.Keys|;
    if IsSubset(selector, labels) {
      SubsetCardinality(selector.Keys, labels.Keys);
      forall pair | pair in selector.Items
        ensures pair in labels.Items
      {
        assert pair.0 in selector;
      }
    }
    if DoLabelsSatisfySelector(labels, selector) {
      forall k | k in selector
        ensures k in labels && labels[k] == selector[k]
      {
        assert (k, selector[k]) in selector.Items;
      }
    }
  }

  /** An empty selector is satisfied by any labels; against empty labels only
      the empty selector is satisfied; a selector with more pairs than the
      labels never is. */
  lemma SelectorBoundaryCases(labels: Labels, selector: Labels)
    ensures DoLabelsSatisfySelector(labels, map[])
    ensures DoLabelsSatisfySelector(map[], selector) <==> selector == map[]
    ensures |selector| > |labels| ==> !DoLabelsSatisfySelector(labels, selector)
  {
    SatisfiesIffSubset(labels, map[]);
    SatisfiesIffSubset(map[], selector);
    SatisfiesIffSubset(labels, selector);
    if selector != map[] {
      var k :| k in selector;
    }
    if |selector| > |labels| && IsSubset(selector, labels) {
      SubsetCardinality(selector.Keys, labels.Keys);
    }
  }

  /** Adding labels never breaks a selector match. */
  lemma MoreLabelsStillSatisfy(labels: Labels, more: Labels, selector: Labels)
    requires DoLabelsSatisfySelector(labels, selector)
    requires IsSubset(labels, more)
    ensures DoLabelsSatisfySelector(more, selector)
  {
    SatisfiesIffSubset(labels, selector);
    SatisfiesIffSubset(more, selector);
  }

  function TemplateSelectedBy(selector: Labels): Deployment -> bool
  {
    (d: Deployment) => DoLabelsSatisfySelector(d.templateLabels, selector)
  }

  /** `get_deployment_entity_names_by_selector`: names of the deployments whose
      pod-template labels satisfy `selector`, in listing order. */
  function DeploymentEntityNamesBySelector(ds: seq<Deployment>, selector: Labels): (names: seq<string>)
    ensures |names| <= |ds|
    ensures forall i :: 0 <= i < |ds| && IsSubset(selector, ds[i].templateLabels) ==> ds[i].name in names
    ensures forall n :: n in names ==>
              exists d :: d in ds && d.name == n && IsSubset(selector, d.templateLabels)
  {
    var selected := Filter(ds, TemplateSelectedBy(selector));
    forall i | 0 <= i < |ds| && IsSubset(selector, ds[i].templateLabels)
      ensures ds[i].name in Names(selected)
    {
      SatisfiesIffSubset(ds[i].templateLabels, selector);
      var j :| 0 <= j < |selected| && selected[j] == ds[i];
      assert Names(selected)[j] == ds[i].name;
    }
    forall n | n in Names(selected)
      ensures exists d :: d in ds && d.name == n && IsSubset(selector, d.templateLabels)
    {
      var j :| 0 <= j < |selected| && Names(selected)[j] == n;
      SatisfiesIffSubset(selected[j].templateLabels, selector);
    }
    Names(selected)
  }

  /** `get_stateful_set_names_by_selector`: names of the stateful sets whose
      pod-template labels satisfy `selector`, in listing order. */
  function StatefulSetNamesBySelector(sets: seq<StatefulSet>, selector: Labels): (names: seq<string>)
    ensures |names| <= |sets|
    ensures forall i :: 0 <= i < |sets| && IsSubset(selector, sets[i].templateLabels) ==> sets[i].name in names
    ensures forall n :: n in names ==>
              exists s :: s in sets && s.name == n && IsSubset(selector, s.templateLabels)
  {
    var selected := Filter(sets, (s: StatefulSet) => DoLabelsSatisfySelector(s.templateLabels, selector));
    forall i | 0 <= i < |sets| && IsSubset(selector, sets[i].templateLabels)
      ensures sets[i].name in StatefulSetNames(selected)
    {
      SatisfiesIffSubset(sets[i].templateLabels, selector);
      var j :| 0 <= j < |selected| && selected[j] == sets[i];
      assert StatefulSetNames(selected)[j] == sets[i].name;
    }
    forall n | n in StatefulSetNames(selected)
      ensures exists s :: s in sets && s.name == n && IsSubset(selector, s.templateLabels)
    {
      var j :| 0 <= j < |selected| && StatefulSetNames(selected)[j] == n;
      SatisfiesIffSubset(selected[j].templateLabels, selector);
    }
    StatefulSetNames(selected)
  }

  function PodSelectedBy(selector: Labels): Pod -> bool
  {
    (p: Pod) => DoLabelsSatisfySelector(p.labels, selector)
  }

  /** `get_pods_by_selector`: the pods whose labels satisfy `selector`, in listing order. */
  function PodsBySelector(pods: seq<Pod>, selector: Labels): (selected: seq<Pod>)
    ensures |selected| <= |pods|
    ensures forall i :: 0 <= i < |pods| ==> (pods[i] in selected <==> IsSubset(selector, pods[i].labels))
    ensures forall j :: 0 <= j < |selected| ==> selected[j] in pods && IsSubset(selector, selected[j].labels)
  {
    var r := Filter(pods, PodSelectedBy(selector));
    forall i | 0 <= i < |pods|
      ensures pods[i] in r <==> IsSubset(selector, pods[i].labels)
    {
      SatisfiesIffSubset(pods[i].labels, selector);
    }
    forall j | 0 <= j < |r|
      ensures IsSubset(selector, r[j].labels)
    {
      SatisfiesIffSubset(r[j].labels, selector);
    }
    r
  }

  /** `get_pod_names_for_deployment_entity`: no pods, a missing deployment or
      an empty (falsy) pod selector give `[]`; otherwise the names of the pods
      the selector picks, and only those. */
  function PodNamesForDeploymentEntity(matchLabels: Option<Labels>, pods: seq<Pod>): (names: seq<string>)
    ensures pods == [] || matchLabels.None? || matchLabels.value == map[] ==> names == []
    ensures |names| <= |pods|
    ensures matchLabels.Some? && matchLabels.value != map[] ==>
              forall i :: 0 <= i < |pods| && IsSubset(matchLabels.value, pods[i].labels) ==> pods[i].name in names
    ensures forall j :: 0 <= j < |names| ==>
              matchLabels.Some? && exists i :: 0 <= i < |pods| && pods[i].name == names[j] && IsSubset(matchLabels.value, pods[i].labels)
  {
    if pods == [] || matchLabels.None? || matchLabels.value == map[] then []
    else
      var selected := PodsBySelector(pods, matchLabels.value);
      forall i | 0 <= i < |pods| && IsSubset(matchLabels.value, pods[i].labels)
        ensures pods[i].name in PodNames(selected)
      {
        var k :| 0 <= k < |selected| && selected[k] == pods[i];
        assert PodNames(selected)[k] == pods[i].name;
      }
      forall j | 0 <= j < |selected|
        ensures exists i :: 0 <= i < |pods| && pods[i].name == PodNames(selected)[j] && IsSubset(matchLabels.value, pods[i].labels)
      {
        var i :| 0 <= i < |pods| && pods[i] == selected[j];
        assert PodNames(selected)[j] == pods[i].name;
      }
      PodNames(selected)
  }

  /** An empty pod selector selects every pod in `get_pods_by_selector`, yet
      `get_pod_names_for_deployment_entity` treats it as "no pods". */
  lemma EmptyPodSelectorDisagreement(pods: seq<Pod>)
    ensures PodsBySelector(pods, map[]) == pods
    ensures PodNamesForDeploymentEntity(Some(map[]), pods) == []
  {
    forall i | 0 <= i < |pods|
      ensures PodSelectedBy(map[])(pods[i])
    {
      SelectorBoundaryCases(pods[i].labels, map[]);
    }
    FilterIdentity(pods, PodSelectedBy(map[]));
  }
}
