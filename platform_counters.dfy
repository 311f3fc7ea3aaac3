/** The counting keywords of `PlatformLibrary`: each fetches the named
    resources one after another and counts those in a given state. The
    namespace's resources are a `directory` from name to status; a name the
    directory lacks is the platform's NotFound error, which ends the count. */
module PlatformCounters {
  import opened Wrappers
  import opened Seqs
  import opened Workloads
  import opened LabelSelector

  /** `PlatformLibrary`'s inactive deployment: `not status.replicas`. */
  predicate InactiveDeployment(s: DeploymentStatus)
  {
    Falsy(s.replicas)
  }

  /** `PlatformLibrary`'s active deployment: `not unavailable_replicas and status.replicas`. */
  predicate ActiveDeployment(s: DeploymentStatus)
  {
    Falsy(s.unavailableReplicas) && !Falsy(s.replicas)
  }

  /** Active stateful set: `status.replicas == status.ready_replicas` (two unset counts are equal). */
  predicate ActiveStatefulSet(s: StatefulSetStatus)
  {
    s.replicas == s.readyReplicas
  }

  /** Inactive stateful set: `not status.replicas or status.replicas != status.ready_replicas`. */
  predicate InactiveStatefulSet(s: StatefulSetStatus)
  {
    Falsy(s.replicas) || s.replicas != s.readyReplicas
  }

  /** Every named resource is in the directory and in the state `holds` tests. */
  predicate AllHold<S>(names: seq<string>, directory: map<string, S>, holds: S -> bool)
  {
    forall i :: 0 <= i < |names| ==> names[i] in directory && holds(directory[names[i]])
  }

  /** The counter loop, name by name: NotFound for the first name the
      directory lacks, otherwise how many names are in the state `holds` tests. */
  function CountNamed<S>(names: seq<string>, directory: map<string, S>, holds: S -> bool): (r: Result<nat, Error>)
    decreases |names|
    ensures r.Ok? <==> forall i :: 0 <= i < |names| ==> names[i] in directory
    ensures r.Ok? ==> r.value <= |names|
    ensures r.Ok? ==> (r.value == |names| <==> AllHold(names, directory, holds))
  {
    if names == [] then Ok(0)
    else
      var last := names[|names| - 1];
      var prefix := names[..|names| - 1];
      assert forall i :: 0 <= i < |prefix| ==> prefix[i] == names[i];
      match CountNamed(prefix, directory, holds)
      case Err(e) => Err(e)
      case Ok(c) =>
        if last !in directory then Err(NotFound(last))
        else Ok(c + if holds(directory[last]) then 1 else 0)
  }

  /** A failed count names the first name the directory lacks. */
  lemma {:induction false} CountNamedFirstMissing<S>(names: seq<string>, directory: map<string, S>, holds: S -> bool)
    requires CountNamed(names, directory, holds).Err?
    ensures exists i :: 0 <= i < |names| && CountNamed(names, directory, holds).error == NotFound(names[i]) &&
                        names[i] !in directory && forall j :: 0 <= j < i ==> names[j] in directory
    decreases |names|
  {
    var last := names[|names| - 1];
    var prefix := names[..|names| - 1];
    assert forall i :: 0 <= i < |prefix| ==> prefix[i] == names[i];
    if CountNamed(prefix, directory, holds).Err? {
      CountNamedFirstMissing(prefix, directory, holds);
      var i :| 0 <= i < |prefix| && CountNamed(prefix, directory, holds).error == NotFound(prefix[i]) &&
               prefix[i] !in directory && forall j :: 0 <= j < i ==> prefix[j] in directory;
      assert names[i] == prefix[i];
    } else {
      assert CountNamed(names, directory, holds).error == NotFound(last);
      assert forall j :: 0 <= j < |names| - 1 ==> names[j] in directory;
    }
  }

  /** An error met on a prefix of the names is the error of the whole count. */
  lemma {:induction false} CountNamedPrefixError<S>(names: seq<string>, k: nat, directory: map<string, S>, holds: S -> bool)
    requires k <= |names| && CountNamed(names[..k], directory, holds).Err?
    ensures CountNamed(names, directory, holds) == CountNamed(names[..k], directory, holds)
    decreases |names| - k
  {
    if k < |names| {
      var longer := names[..k + 1];
      assert longer[..k] == names[..k];
      assert CountNamed(longer, directory, holds) == CountNamed(names[..k], directory, holds);
      assert names[..k + 1][..k + 1] == names[..k + 1];
      CountNamedPrefixError(names, k + 1, directory, holds);
    } else {
      assert names[..k] == names;
    }
  }

  /** The loop shared by the four counting keywords: fetch each name in turn
      and count those in the state `holds` tests. */
  method CountResources<S>(names: seq<string>, directory: map<string, S>, holds: S -> bool) returns (r: Result<nat, Error>)
    ensures r == CountNamed(names, directory, holds)
  {
    var counter := 0;
    var i := 0;
    while i < |names|
      invariant 0 <= i <= |names|
      invariant CountNamed(names[..i], directory, holds) == Ok(counter)
    {
      var name := names[i];
      assert names[..i + 1][..i] == names[..i];
      if name !in directory {
        CountNamedPrefixError(names, i + 1, directory, holds);
        return Err(NotFound(name));
      }
      if holds(directory[name]) {
        counter := counter + 1;
      }
      i := i + 1;
    }
    assert names[..i] == names;
    r := Ok(counter);
  }

  /** `get_inactive_deployment_entities_count`. */
  method GetInactiveDeploymentEntitiesCount(names: seq<string>, directory: map<string, DeploymentStatus>)
    returns (r: Result<nat, Error>)
    ensures r.Ok? <==> forall i :: 0 <= i < |names| ==> names[i] in directory
    ensures r.Ok? ==> r.value <= |names|
    ensures r.Ok? ==> (r.value == |names| <==>
                       forall i :: 0 <= i < |names| ==> Falsy(directory[names[i]].replicas))
    ensures r == CountNamed(names, directory, InactiveDeployment)
  {
    r := CountResources(names, directory, InactiveDeployment);
  }

  /** `get_active_deployment_entities_count`. */
  method GetActiveDeploymentEntitiesCount(names: seq<string>, directory: map<string, DeploymentStatus>)
    returns (r: Result<nat, Error>)
    ensures r.Ok? <==> forall i :: 0 <= i < |names| ==> names[i] in directory
    ensures r.Ok? ==> r.value <= |names|
    ensures r.Ok? ==> (r.value == |names| <==>
                       forall i :: 0 <= i < |names| ==>
                         Falsy(directory[names[i]].unavailableReplicas) && !Falsy(directory[names[i]].replicas))
    ensures r == CountNamed(names, directory, ActiveDeployment)
  {
    r := CountResources(names, directory, ActiveDeployment);
  }

  /** `get_active_stateful_sets_count`. */
  method GetActiveStatefulSetsCount(names: seq<string>, directory: map<string, StatefulSetStatus>)
    returns (r: Result<nat, Error>)
    ensures r.Ok? <==> forall i :: 0 <= i < |names| ==> names[i] in directory
    ensures r.Ok? ==> r.value <= |names|
    ensures r.Ok? ==> (r.value == |names| <==>
                       forall i :: 0 <= i < |names| ==>
                         directory[names[i]].replicas == directory[names[i]].readyReplicas)
    ensures r == CountNamed(names, directory, ActiveStatefulSet)
  {
    r := CountResources(names, directory, ActiveStatefulSet);
  }

  /** `get_inactive_stateful_sets_count` (and its deprecated alias
      `get_inactive_stateful_set_count`). */
  method GetInactiveStatefulSetsCount(names: seq<string>, directory: map<string, StatefulSetStatus>)
    returns (r: Result<nat, Error>)
    ensures r.Ok? <==> forall i :: 0 <= i < |names| ==> names[i] in directory
    ensures r.Ok? ==> r.value <= |names|
    ensures r.Ok? ==> (r.value == |names| <==>
                       forall i :: 0 <= i < |names| ==>
                         Falsy(directory[names[i]].replicas) ||
                         directory[names[i]].replicas != directory[names[i]].readyReplicas)
    ensures r == CountNamed(names, directory, InactiveStatefulSet)
  {
    r := CountResources(names, directory, InactiveStatefulSet);
  }

  /** Two states that together cover every status give counts that together
      cover every name. */
  lemma {:induction false} CountsCover<S>(names: seq<string>, directory: map<string, S>, p: S -> bool, q: S -> bool)
    requires forall i :: 0 <= i < |names| ==> names[i] in directory && (p(directory[names[i]]) || q(directory[names[i]]))
    ensures CountNamed(names, directory, p).Ok? && CountNamed(names, directory, q).Ok?
    ensures CountNamed(names, directory, p).value + CountNamed(names, directory, q).value >= |names|
    decreases |names|
  {
    if names != [] {
      var prefix := names[..|names| - 1];
      assert forall i :: 0 <= i < |prefix| ==> prefix[i] == names[i];
      CountsCover(prefix, directory, p, q);
    }
  }

  /** Two states no status is in at once give counts that together never exceed the names. */
  lemma {:induction false} CountsDisjoint<S>(names: seq<string>, directory: map<string, S>, p: S -> bool, q: S -> bool)
    requires forall i :: 0 <= i < |names| ==> names[i] in directory && !(p(directory[names[i]]) && q(directory[names[i]]))
    ensures CountNamed(names, directory, p).Ok? && CountNamed(names, directory, q).Ok?
    ensures CountNamed(names, directory, p).value + CountNamed(names, directory, q).value <= |names|
    decreases |names|
  {
    if names != [] {
      var prefix := names[..|names| - 1];
      assert forall i :: 0 <= i < |prefix| ==> prefix[i] == names[i];
      CountsDisjoint(prefix, directory, p, q);
    }
  }

  /** Every stateful set is active or inactive, and it is both exactly when its
      replica count is unset or zero and equals its ready count. */
  lemma StatefulSetClassification(s: StatefulSetStatus)
    ensures ActiveStatefulSet(s) || InactiveStatefulSet(s)
    ensures ActiveStatefulSet(s) && InactiveStatefulSet(s) <==> s.replicas == s.readyReplicas && Falsy(s.replicas)
  {
  }

  /** Hence the active and inactive stateful-set counts of the same names add
      up to at least the number of names. */
  lemma StatefulSetCountsCoverNames(names: seq<string>, directory: map<string, StatefulSetStatus>)
    requires forall i :: 0 <= i < |names| ==> names[i] in directory
    ensures CountNamed(names, directory, ActiveStatefulSet).Ok?
    ensures CountNamed(names, directory, ActiveStatefulSet).value +
            CountNamed(names, directory, InactiveStatefulSet).value >= |names|
  {
    CountsCover(names, directory, ActiveStatefulSet, InactiveStatefulSet);
  }

  /** `PlatformLibrary`'s two deployment states never overlap; a deployment is
      in neither exactly when it has replicas and some of them are unavailable. */
  lemma PlatformDeploymentClassification(s: DeploymentStatus)
    ensures !(ActiveDeployment(s) && InactiveDeployment(s))
    ensures !ActiveDeployment(s) && !InactiveDeployment(s) <==> !Falsy(s.replicas) && !Falsy(s.unavailableReplicas)
  {
  }

  /** Hence the active and inactive deployment counts of the same names add up
      to at most the number of names. */
  lemma DeploymentCountsWithinNames(names: seq<string>, directory: map<string, DeploymentStatus>)
    requires forall i :: 0 <= i < |names| ==> names[i] in directory
    ensures CountNamed(names, directory, ActiveDeployment).Ok?
    ensures CountNamed(names, directory, ActiveDeployment).value +
            CountNamed(names, directory, InactiveDeployment).value <= |names|
  {
    CountsDisjoint(names, directory, ActiveDeployment, InactiveDeployment);
  }

  /** `get_active_stateful_sets_counts` (deprecated): over the namespace's
      listing, how many stateful sets whose own labels satisfy `selector` have
      `ready_replicas == replicas`. */
  method GetActiveStatefulSetsCounts(sets: seq<StatefulSet>, selector: Labels) returns (count: nat)
    ensures count == |Filter(sets, (s: StatefulSet) => DoLabelsSatisfySelector(s.labels, selector) && ActiveStatefulSet(s.status))|
    ensures count <= |sets|
  {
    ghost var keep := (s: StatefulSet) => DoLabelsSatisfySelector(s.labels, selector) && ActiveStatefulSet(s.status);
    count := 0;
    var i := 0;
    while i < |sets|
      invariant 0 <= i <= |sets|
      invariant count == |Filter(sets[..i], keep)|
    {
      assert sets[..i + 1] == sets[..i] + [sets[i]];
      FilterAppend(sets[..i], [sets[i]], keep);
      if DoLabelsSatisfySelector(sets[i].labels, selector) {
        count := count + if sets[i].status.readyReplicas == sets[i].status.replicas then 1 else 0;
      }
      i := i + 1;
    }
    assert sets[..i] == sets;
  }
}
