/** `MonitoringLibrary`'s reading of Prometheus answers: the alert-state
    search over the rule groups of `/api/v1/rules`, the values of an instant
    query's result, and the two URLs it requests. The HTTP requests and JSON
    decoding are left to the caller: the answers arrive already parsed. */
module MonitoringLibrary {
  import opened Wrappers
  import opened Strings

  /** One alerting rule of a group: name, labels, PromQL query and state
      (`inactive`, `pending` or `firing`). */
  datatype Rule = Rule(name: string, labels: map<string, string>, query: string, state: string)

  datatype Group = Group(rules: seq<Rule>)

  /** `f'namespace="{namespace}"'`. */
  function NamespaceInQuery(namespace: string): string
  {
    "namespace=\"" + namespace + "\""
  }

  /** The rule is the alert asked for, in the namespace asked for: its
      `namespace` label is that namespace, or it has no such label and its
      query mentions the namespace. */
  predicate Qualifies(rule: Rule, alertName: string, namespace: string)
  {
    rule.name == alertName &&
    (if "namespace" in rule.labels then rule.labels["namespace"] == namespace
     else Contains(rule.query, NamespaceInQuery(namespace)))
  }

  /** A rule labelled with another namespace never qualifies, whatever its
      query says; one labelled with the namespace qualifies whatever its query says. */
  lemma NamespaceLabelDecides(rule: Rule, alertName: string, namespace: string)
    requires rule.name == alertName && "namespace" in rule.labels
    ensures Qualifies(rule, alertName, namespace) <==> rule.labels["namespace"] == namespace
  {
  }

  /** The state of the first qualifying rule of one group; `None` exactly
      when no rule of the group qualifies. */
  function StatusInRules(rules: seq<Rule>, alertName: string, namespace: string): (state: Option<string>)
    ensures state.None? <==> forall i :: 0 <= i < |rules| ==> !Qualifies(rules[i], alertName, namespace)
  {
    if rules == [] then None
    else if Qualifies(rules[0], alertName, namespace) then Some(rules[0].state)
    else
      assert forall i :: 0 <= i < |rules| - 1 ==> rules[1..][i] == rules[i + 1];
      StatusInRules(rules[1..], alertName, namespace)
  }

  /** The first qualifying rule of a group decides the group's answer. */
  lemma {:induction false} StatusInRulesIsFirstQualifying(rules: seq<Rule>, alertName: string, namespace: string, r: nat)
    requires r < |rules| && Qualifies(rules[r], alertName, namespace)
    requires forall j :: 0 <= j < r ==> !Qualifies(rules[j], alertName, namespace)
    ensures StatusInRules(rules, alertName, namespace) == Some(rules[r].state)
    decreases r
  {
    if r > 0 {
      assert !Qualifies(rules[0], alertName, namespace);
      assert forall j :: 0 <= j < r - 1 ==> rules[1..][j] == rules[j + 1];
      StatusInRulesIsFirstQualifying(rules[1..], alertName, namespace, r - 1);
    }
  }

  /** `get_alert_status`: groups in order, rules in order, the state of the
      first qualifying rule; `None` when no rule qualifies. */
  function GetAlertStatus(groups: seq<Group>, alertName: string, namespace: string): (state: Option<string>)
  {
    if groups == [] then None
    else
      var first := StatusInRules(groups[0].rules, alertName, namespace);
      if first.Some? then first else GetAlertStatus(groups[1..], alertName, namespace)
  }

  /** The answer is `None` exactly when no rule of any group qualifies. */
  lemma {:induction false} AlertStatusNoneIff(groups: seq<Group>, alertName: string, namespace: string)
    ensures GetAlertStatus(groups, alertName, namespace).None? <==>
            forall g, j :: 0 <= g < |groups| && 0 <= j < |groups[g].rules| ==> !Qualifies(groups[g].rules[j], alertName, namespace)
    decreases |groups|
  {
    if groups != [] {
      AlertStatusNoneIff(groups[1..], alertName, namespace);
      assert forall g :: 0 <= g < |groups| - 1 ==> groups[1..][g] == groups[g + 1];
    }
  }

  /** Searching two lists of groups one after the other: the first list's
      answer if it has one, otherwise the second's. */
  lemma {:induction false} AlertStatusOfConcatenation(groups: seq<Group>, more: seq<Group>, alertName: string, namespace: string)
    ensures GetAlertStatus(groups + more, alertName, namespace) ==
            if GetAlertStatus(groups, alertName, namespace).Some? then GetAlertStatus(groups, alertName, namespace)
            else GetAlertStatus(more, alertName, namespace)
    decreases |groups|
  {
    if groups == [] {
      assert groups + more == more;
    } else {
      assert (groups + more)[0] == groups[0];
      assert (groups + more)[1..] == groups[1..] + more;
      AlertStatusOfConcatenation(groups[1..], more, alertName, namespace);
    }
  }

  /** A rule that qualifies, with every earlier rule of its group and every
      rule of the groups before it not qualifying, decides the answer. */
  lemma {:induction false} AlertStatusIsFirstQualifying(groups: seq<Group>, alertName: string, namespace: string, g: nat, r: nat)
    requires g < |groups| && r < |groups[g].rules| && Qualifies(groups[g].rules[r], alertName, namespace)
    requires forall h, j :: 0 <= h < g && 0 <= j < |groups[h].rules| ==> !Qualifies(groups[h].rules[j], alertName, namespace)
    requires forall j :: 0 <= j < r ==> !Qualifies(groups[g].rules[j], alertName, namespace)
    ensures GetAlertStatus(groups, alertName, namespace) == Some(groups[g].rules[r].state)
    decreases g
  {
    if g == 0 {
      StatusInRulesIsFirstQualifying(groups[0].rules, alertName, namespace, r);
    } else {
      assert forall j :: 0 <= j < |groups[0].rules| ==> !Qualifies(groups[0].rules[j], alertName, namespace);
      assert StatusInRules(groups[0].rules, alertName, namespace).None?;
      assert forall h :: 0 <= h < |groups| - 1 ==> groups[1..][h] == groups[h + 1];
      AlertStatusIsFirstQualifying(groups[1..], alertName, namespace, g - 1, r);
    }
  }

  /** One series of an instant query's `result`: its labels and its
      `value`, a pair of sample time and value text. */
  datatype Sample = Sample(metric: map<string, string>, value: (real, string))

  /** `get_full_metric_values`: `value[1]` of every series, in order. */
  method GetFullMetricValues(result: seq<Sample>) returns (values: seq<string>)
    ensures |values| == |result|
    ensures forall i :: 0 <= i < |result| ==> values[i] == result[i].value.1
  {
    values := [];
    var i := 0;
    while i < |result|
      invariant 0 <= i <= |result|
      invariant |values| == i
      invariant forall j :: 0 <= j < i ==> values[j] == result[j].value.1
    {
      values := values + [result[i].value.1];
      i := i + 1;
    }
  }

  /** `get_last_metric_value`: `value[1]` of the FIRST series; an empty
      result is an IndexError (`None` here). */
  function GetLastMetricValue(result: seq<Sample>): (value: Option<string>)
    ensures value.None? <==> result == []
    ensures value.Some? ==> value.value == result[0].value.1
  {
    if result == [] then None else Some(result[0].value.1)
  }

  /** With two series of different values, the "last" value is not the last series' value. */
  lemma LastMetricValueIsFirstSeries(first: Sample, second: Sample)
    requires first.value.1 != second.value.1
    ensures GetLastMetricValue([first, second]) != Some(second.value.1)
  {
  }

  /** `f'{host}'`: an unset host prints as `None`. */
  function HostText(host: Option<string>): string
  {
    match host
    case None => "None"
    case Some(h) => h
  }

  const RulesPath := "/api/v1/rules"
  const QueryPath := "/api/v1/query?query="

  /** `_api_rules_url`. */
  function RulesUrl(host: Option<string>): (url: string)
    ensures |url| == |HostText(host)| + |RulesPath|
    ensures url[..|HostText(host)|] == HostText(host) && url[|HostText(host)|..] == RulesPath
  {
    HostText(host) + RulesPath
  }

  /** The URL of `get_metric_values`. */
  function QueryUrl(host: Option<string>, metricName: string): (url: string)
    ensures |url| == |HostText(host)| + |QueryPath| + |metricName|
    ensures url[..|HostText(host)|] == HostText(host)
    ensures url[|HostText(host)|..|HostText(host)| + |QueryPath|] == QueryPath
    ensures url[|HostText(host)| + |QueryPath|..] == metricName
  {
    HostText(host) + QueryPath + metricName
  }

  /** Both URLs share the host prefix, and the query URL differs for different metrics. */
  lemma UrlsShareHost(host: Option<string>, metric: string, other: string)
    ensures RulesUrl(host)[..|HostText(host)|] == QueryUrl(host, metric)[..|HostText(host)|]
    ensures metric != other ==> QueryUrl(host, metric) != QueryUrl(host, other)
  {
    if metric != other {
      var n := |HostText(host)| + |QueryPath|;
      assert QueryUrl(host, metric)[n..] != QueryUrl(host, other)[n..];
    }
  }

  /** The library as configured at import: the host and the rules URL built from it. */
  class Monitoring {
    const host: Option<string>
    const apiRulesUrl: string

    constructor (host: Option<string>)
      ensures this.host == host && apiRulesUrl == RulesUrl(host)
    {
      this.host := host;
      apiRulesUrl := HostText(host) + RulesPath;
    }
  }
}
