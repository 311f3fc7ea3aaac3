/** The container helpers of `PlatformLibrary`: finding a container's
    environment entries, reading requested variables out of them, overwriting
    their values in place, and picking a container image. */
module ContainerEnv {
  import opened Wrappers
  import opened Workloads

  /** One environment entry of a container (`V1EnvVar`); the keywords change
      its value in place. A value is unset when it comes from a reference. */
  class EnvVar {
    const name: string
    var value: Option<string>

    constructor (name: string, value: Option<string>)
      ensures this.name == name && this.value == value
    {
      this.name := name;
      this.value := value;
    }
  }

  /** A container of a pod template: name, optional `env` list and image. */
  datatype Container = Container(name: string, env: Option<seq<EnvVar>>, image: string)

  /** The `env` of the LAST container named `containerName`; unset when no
      container has that name or the last such container has no `env`. */
  function LastEnvFor(containers: seq<Container>, containerName: string): (r: Option<seq<EnvVar>>)
    ensures r.Some? ==> exists i :: 0 <= i < |containers| && containers[i].name == containerName && containers[i].env == r
    ensures (forall i :: 0 <= i < |containers| ==> containers[i].name != containerName) ==> r.None?
    ensures forall i :: 0 <= i < |containers| && containers[i].name == containerName ==>
              (forall j :: i < j < |containers| ==> containers[j].name != containerName) ==> r == containers[i].env
  {
    if containers == [] then None
    else
      var last := containers[|containers| - 1];
      if last.name == containerName then last.env
      else
        var earlier := LastEnvFor(containers[..|containers| - 1], containerName);
        assert forall i :: 0 <= i < |containers| - 1 ==> containers[..|containers| - 1][i] == containers[i];
        earlier
  }

  /** `_get_environments_for_container`: scan every container, the last one with the name wins. */
  method GetEnvironmentsForContainer(containers: seq<Container>, containerName: string) returns (environments: Option<seq<EnvVar>>)
    ensures environments == LastEnvFor(containers, containerName)
  {
    environments := None;
    var i := 0;
    while i < |containers|
      invariant 0 <= i <= |containers|
      invariant environments == LastEnvFor(containers[..i], containerName)
    {
      assert containers[..i + 1][..i] == containers[..i];
      if containers[i].name == containerName {
        environments := containers[i].env;
      }
      i := i + 1;
    }
    assert containers[..i] == containers;
  }

  /** The environment entries as (name, value) pairs, as they are in the heap now. */
  function Snapshot(entries: seq<EnvVar>): (pairs: seq<(string, Option<string>)>)
    reads entries
    ensures |pairs| == |entries|
  {
    seq(|entries|, i reads entries requires 0 <= i < |entries| => (entries[i].name, entries[i].value))
  }

  /** The entry contributes to the result: it is requested and, when
      references are ignored, it has a value. */
  predicate Reported(entry: (string, Option<string>), params: seq<string>, ignoreReference: bool)
  {
    entry.0 in params && (ignoreReference ==> entry.1.Some?)
  }

  /** The result dictionary of `_get_env_variables` over a non-empty entry
      list: for each requested name the value of its last reported entry, an
      unset value read as `""` when references are not ignored. */
  function EnvMap(entries: seq<(string, Option<string>)>, params: seq<string>, ignoreReference: bool): (m: map<string, string>)
    ensures forall k :: k in m <==> exists i :: 0 <= i < |entries| && entries[i].0 == k && Reported(entries[i], params, ignoreReference)
    ensures forall k :: k in m ==> k in params
  {
    if entries == [] then map[]
    else
      var last := entries[|entries| - 1];
      var earlier := entries[..|entries| - 1];
      var m := EnvMap(earlier, params, ignoreReference);
      assert forall i :: 0 <= i < |earlier| ==> earlier[i] == entries[i];
      if Reported(last, params, ignoreReference) then m[last.0 := last.1.GetOr("")] else m
  }

  /** The value reported for a name is that of its last reported entry. */
  lemma {:induction false} EnvMapLastWins(entries: seq<(string, Option<string>)>, params: seq<string>, ignoreReference: bool, i: nat)
    requires i < |entries| && Reported(entries[i], params, ignoreReference)
    requires forall j :: i < j < |entries| ==> entries[j].0 != entries[i].0 || !Reported(entries[j], params, ignoreReference)
    ensures EnvMap(entries, params, ignoreReference)[entries[i].0] == entries[i].1.GetOr("")
    decreases |entries|
  {
    if i < |entries| - 1 {
      var earlier := entries[..|entries| - 1];
      assert earlier[i] == entries[i];
      EnvMapLastWins(earlier, params, ignoreReference, i);
    }
  }

  /** With references ignored, an entry without a value is never reported;
      without, every requested name present in the entries is. */
  lemma EnvMapReferenceModes(entries: seq<(string, Option<string>)>, params: seq<string>, k: string)
    ensures (forall i :: 0 <= i < |entries| && entries[i].0 == k ==> entries[i].1.None?) ==> k !in EnvMap(entries, params, true)
    ensures k in params && (exists i :: 0 <= i < |entries| && entries[i].0 == k) ==> k in EnvMap(entries, params, false)
    ensures k in EnvMap(entries, params, true) ==> k in EnvMap(entries, params, false)
  {
  }

  /** One more entry: it overwrites its name when it is reported. */
  lemma EnvMapStep(entries: seq<(string, Option<string>)>, params: seq<string>, ignoreReference: bool, i: nat)
    requires i < |entries|
    ensures EnvMap(entries[..i + 1], params, ignoreReference) ==
            if Reported(entries[i], params, ignoreReference)
            then EnvMap(entries[..i], params, ignoreReference)[entries[i].0 := entries[i].1.GetOr("")]
            else EnvMap(entries[..i], params, ignoreReference)
  {
    assert entries[..i + 1][..i] == entries[..i];
  }

  /** `_get_env_variables`: `None` for an absent or empty entry list, otherwise
      the dictionary of requested variables. */
  method GetEnvVariables(dicts: Option<seq<EnvVar>>, params: seq<string>, ignoreReference: bool)
    returns (result: Option<map<string, string>>)
    ensures dicts.None? || dicts.value == [] ==> result.None?
    ensures dicts.Some? && dicts.value != [] ==> result == Some(EnvMap(Snapshot(dicts.value), params, ignoreReference))
  {
    if dicts.None? || dicts.value == [] {
      return None;
    }
    var entries := dicts.value;
    var m: map<string, string> := map[];
    var i := 0;
    while i < |entries|
      invariant 0 <= i <= |entries|
      invariant m == EnvMap(Snapshot(entries)[..i], params, ignoreReference)
    {
      EnvMapStep(Snapshot(entries), params, ignoreReference, i);
      assert Snapshot(entries)[i] == (entries[i].name, entries[i].value);
      if entries[i].name in params {
        if !ignoreReference {
          m := m[entries[i].name := if entries[i].value.Some? then entries[i].value.value else ""];
        } else if entries[i].value.Some? {
          m := m[entries[i].name := entries[i].value.value];
        }
      }
      i := i + 1;
    }
    assert Snapshot(entries)[..i] == Snapshot(entries);
    return Some(m);
  }

  /** The entries after `set_new_variables`: a name that is a key of `params`
      takes the new value, every other entry keeps its own. */
  function Updated(entries: seq<(string, Option<string>)>, params: map<string, string>): (r: seq<(string, Option<string>)>)
    ensures |r| == |entries|
    ensures forall i :: 0 <= i < |entries| ==> r[i].0 == entries[i].0
  {
    seq(|entries|, i requires 0 <= i < |entries| =>
      (entries[i].0, if entries[i].0 in params then Some(params[entries[i].0]) else entries[i].1))
  }

  /** `set_new_variables`: overwrite, in place, the value of every entry
      whose name is a key of `params`. */
  method SetNewVariables(dicts: seq<EnvVar>, params: map<string, string>)
    modifies set e | e in dicts
    ensures forall j :: 0 <= j < |dicts| ==>
              dicts[j].value == if dicts[j].name in params then Some(params[dicts[j].name]) else old(dicts[j].value)
    ensures Snapshot(dicts) == Updated(old(Snapshot(dicts)), params)
  {
    var i := 0;
    while i < |dicts|
      invariant 0 <= i <= |dicts|
      invariant forall j :: 0 <= j < i && dicts[j].name in params ==> dicts[j].value == Some(params[dicts[j].name])
      invariant forall j :: 0 <= j < |dicts| && dicts[j].name !in params ==> dicts[j].value == old(dicts[j].value)
    {
      if dicts[i].name in params {
        dicts[i].value := Some(params[dicts[i].name]);
      }
      i := i + 1;
    }
  }

  /** Reading back a variable just set gives the value it was set to, for any
      requested name that some entry carries. */
  lemma {:induction false} GetAfterSet(entries: seq<(string, Option<string>)>, params: map<string, string>,
                                        names: seq<string>, ignoreReference: bool, k: string)
    requires k in params && k in names
    requires exists i :: 0 <= i < |entries| && entries[i].0 == k
    ensures k in EnvMap(Updated(entries, params), names, ignoreReference)
    ensures EnvMap(Updated(entries, params), names, ignoreReference)[k] == params[k]
  {
    var updated := Updated(entries, params);
    var i :| 0 <= i < |entries| && entries[i].0 == k;
    assert updated[i].0 == k && Reported(updated[i], names, ignoreReference);
    var last := LastReported(updated, names, ignoreReference, k, i);
    EnvMapLastWins(updated, names, ignoreReference, last);
  }

  /** The index of the last reported entry named `k`, at or after `i`. */
  lemma {:induction false} LastReported(entries: seq<(string, Option<string>)>, params: seq<string>, ignoreReference: bool,
                                        k: string, i: nat) returns (last: nat)
    requires i < |entries| && entries[i].0 == k && Reported(entries[i], params, ignoreReference)
    ensures i <= last < |entries| && entries[last].0 == k && Reported(entries[last], params, ignoreReference)
    ensures forall j :: last < j < |entries| ==> entries[j].0 != k || !Reported(entries[j], params, ignoreReference)
    decreases |entries| - i
  {
    if exists j :: i < j < |entries| && entries[j].0 == k && Reported(entries[j], params, ignoreReference) {
      var j :| i < j < |entries| && entries[j].0 == k && Reported(entries[j], params, ignoreReference);
      last := LastReported(entries, params, ignoreReference, k, j);
    } else {
      last := i;
    }
  }

  /** `_get_environment_variables_for_container`: the requested variables of
      the named container, references ignored. */
  method GetEnvironmentVariablesForContainer(containers: seq<Container>, containerName: string, variableNames: seq<string>)
    returns (result: Option<map<string, string>>)
    ensures var env := LastEnvFor(containers, containerName);
            result == if env.None? || env.value == [] then None else Some(EnvMap(Snapshot(env.value), variableNames, true))
  {
    var environments := GetEnvironmentsForContainer(containers, containerName);
    result := GetEnvVariables(environments, variableNames, true);
  }

  /** `_prepare_entity_with_environment_variables_for_container`: overwrite the
      named container's variables; iterating an absent `env` raises TypeError.
      Only the entries of that container's list may change. */
  method PrepareEntityWithEnvironmentVariables(containers: seq<Container>, containerName: string, variablesToUpdate: map<string, string>)
    returns (r: Result<seq<EnvVar>, Error>)
    modifies set e | LastEnvFor(containers, containerName).Some? && e in LastEnvFor(containers, containerName).value
    ensures r.Ok? <==> LastEnvFor(containers, containerName).Some?
    ensures r.Err? ==> r.error == TypeError
    ensures r.Ok? ==> r.value == LastEnvFor(containers, containerName).value
    ensures r.Ok? ==> Snapshot(r.value) == Updated(old(Snapshot(r.value)), variablesToUpdate)
  {
    var environments := GetEnvironmentsForContainer(containers, containerName);
    if environments.None? {
      return Err(TypeError);
    }
    SetNewVariables(environments.value, variablesToUpdate);
    return Ok(environments.value);
  }

  /** `get_image`: with several containers and a container name, the image of
      the first container of that name (none if there is none); with a single
      container, its image whatever the name; otherwise nothing. */
  function GetImage(containers: seq<Container>, containerName: Option<string>): (image: Option<string>)
    ensures image.Some? ==> exists i :: 0 <= i < |containers| && containers[i].image == image.value
    ensures |containers| == 1 ==> image == Some(containers[0].image)
    ensures |containers| != 1 && containerName.None? ==> image.None?
    ensures |containers| > 1 && containerName.Some? ==>
              (image.None? <==> forall i :: 0 <= i < |containers| ==> containers[i].name != containerName.value)
  {
    if |containers| > 1 && containerName.Some? then
      match FirstNamed(containers, containerName.value)
      case Some(i) => Some(containers[i].image)
      case None => None
    else if |containers| == 1 then Some(containers[0].image)
    else None
  }

  /** The position of the first container named `containerName`. */
  function FirstNamed(containers: seq<Container>, containerName: string): (r: Option<nat>)
    ensures r.None? <==> forall i :: 0 <= i < |containers| ==> containers[i].name != containerName
    ensures r.Some? ==> r.value < |containers| && containers[r.value].name == containerName &&
                        forall j :: 0 <= j < r.value ==> containers[j].name != containerName
  {
    if containers == [] then None
    else if containers[0].name == containerName then Some(0)
    else
      assert forall i :: 0 <= i < |containers| - 1 ==> containers[1..][i] == containers[i + 1];
      match FirstNamed(containers[1..], containerName)
      case None => None
      case Some(i) => Some(i + 1)
  }

  /** With several containers, the image picked for a name is that of the
      first container of that name. */
  lemma GetImageFirstMatch(containers: seq<Container>, containerName: string, i: nat)
    requires |containers| > 1 && i < |containers| && containers[i].name == containerName
    requires forall j :: 0 <= j < i ==> containers[j].name != containerName
    ensures GetImage(containers, Some(containerName)) == Some(containers[i].image)
  {
    var r := FirstNamed(containers, containerName);
    assert r.Some?;
    assert r.value == i;
  }
}
