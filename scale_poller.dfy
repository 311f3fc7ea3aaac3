/** `check_service_is_scaled` and `check_service_of_stateful_sets_is_scaled`
    of `PlatformLibrary`: validate the direction, take the names, then poll the
    active (up) or inactive (down) count until it equals the number of names or
    the timeout passes.

    The clock is abstract: `now` starts at `start`, each sleep moves it on by 5
    seconds and a poll takes no time. The cluster is an oracle `cluster(t)`,
    the namespace's resources as a poll at clock time `t` finds them. */
module ScalePoller {
  import opened Wrappers
  import opened Strings
  import opened Workloads
  import opened PlatformCounters

  datatype Direction = Up | Down

  /** The quoted spellings the keywords reject with their own message. */
  const QuotedDirections: seq<string> := ["\"up\"", "\"down\"", "'up'", "'down'"]

  /** Lower-case the direction, reject the quoted spellings, then anything
      that is not `up` or `down`. */
  function ParseDirection(direction: string): (r: Result<Direction, Error>)
    ensures r == Ok(Up) <==> Lower(direction) == "up"
    ensures r == Ok(Down) <==> Lower(direction) == "down"
    ensures r == Err(QuotedDirection) <==> Lower(direction) in QuotedDirections
    ensures r.Err? && r != Err(QuotedDirection) ==>
              r == Err(InvalidDirection(Lower(direction))) && Lower(direction) !in QuotedDirections + ["up", "down"]
  {
    var lowered := Lower(direction);
    if lowered in QuotedDirections then Err(QuotedDirection)
    else if lowered == "up" then Ok(Up)
    else if lowered == "down" then Ok(Down)
    else Err(InvalidDirection(lowered))
  }

  /** Lower-casing is idempotent, so the direction's case never matters. */
  lemma {:induction false} DirectionIgnoresCase(direction: string)
    ensures ParseDirection(Lower(direction)) == ParseDirection(direction)
  {
    assert Lower(Lower(direction)) == Lower(direction);
  }

  /** Some concrete verdicts of the validation. */
  lemma DirectionExamples()
    ensures ParseDirection("UP") == Ok(Up)
    ensures ParseDirection("Down") == Ok(Down)
    ensures ParseDirection("\"Up\"") == Err(QuotedDirection)
    ensures ParseDirection("sideways") == Err(InvalidDirection("sideways"))
  {
    assert Lower("UP") == "up";
    assert Lower("Down") == "down";
    assert Lower("\"Up\"") == "\"up\"";
    assert Lower("sideways") == "sideways";
  }

  /** The names argument: a list of names, or one string of names separated by single spaces. */
  datatype NamesArgument = NameList(names: seq<string>) | NameString(text: string)

  function RequestedNames(arg: NamesArgument): (names: seq<string>)
    ensures arg.NameString? ==> |names| >= 1 && Join(names, " ") == arg.text
    ensures arg.NameList? ==> names == arg.names
  {
    match arg
    case NameList(names) => names
    case NameString(text) =>
      JoinSplit(text, " ");
      Split(text, " ")
  }

  /** Passing the space-joined string of names is the same as passing the list,
      as long as there is at least one name and no name holds a space. */
  lemma NameStringOfJoinedNames(names: seq<string>)
    requires |names| >= 1
    requires forall i :: 0 <= i < |names| ==> ' ' !in names[i]
    ensures RequestedNames(NameString(Join(names, " "))) == names
  {
    forall i | 0 <= i < |names|
      ensures !Contains(names[i], " ")
    {
      NoCharNotContained(names[i], ' ');
    }
    assert BorderFree(" ");
    SplitJoin(names, " ");
  }

  /** The empty string is one name, the empty one. */
  lemma EmptyNameString()
    ensures RequestedNames(NameString("")) == [""]
  {
    assert Find("", " ") == None;
  }

  /** A poll at clock time `t` finds every name present and in the wanted state. */
  predicate Converged<S>(names: seq<string>, cluster: int -> map<string, S>, holds: S -> bool, t: int)
  {
    AllHold(names, cluster(t), holds)
  }

  /** `t` is one of the clock times `now`, `now + 5`, ... */
  predicate OnSchedule(t: int, now: int)
  {
    now <= t && (t - now) % 5 == 0
  }

  /** The deployment loop from clock time `now`: check the deadline, then poll,
      then sleep for 5 seconds. */
  function DeploymentWait(names: seq<string>, cluster: int -> map<string, DeploymentStatus>,
                          holds: DeploymentStatus -> bool, now: int, deadline: int): Result<bool, Error>
    decreases deadline - now + 5
  {
    if now <= deadline then
      match CountNamed(names, cluster(now), holds)
      case Err(e) => Err(e)
      case Ok(count) =>
        if count == |names| then Ok(true) else DeploymentWait(names, cluster, holds, now + 5, deadline)
    else Ok(false)
  }

  /** One step of the deployment loop, unfolded. */
  lemma DeploymentWaitStep(names: seq<string>, cluster: int -> map<string, DeploymentStatus>,
                           holds: DeploymentStatus -> bool, now: int, deadline: int, count: Result<nat, Error>)
    requires now <= deadline && count == CountNamed(names, cluster(now), holds)
    ensures count.Err? ==> DeploymentWait(names, cluster, holds, now, deadline) == Err(count.error)
    ensures count.Ok? && count.value == |names| ==> DeploymentWait(names, cluster, holds, now, deadline) == Ok(true)
    ensures count.Ok? && count.value != |names| ==>
              DeploymentWait(names, cluster, holds, now, deadline) == DeploymentWait(names, cluster, holds, now + 5, deadline)
  {
  }

  /** The stateful-set loop from clock time `now`: poll, then check the
      deadline, then sleep. */
  function StatefulSetWait(names: seq<string>, cluster: int -> map<string, StatefulSetStatus>,
                           holds: StatefulSetStatus -> bool, now: int, deadline: int): Result<bool, Error>
    decreases deadline - now + 5
  {
    match CountNamed(names, cluster(now), holds)
    case Err(e) => Err(e)
    case Ok(count) =>
      if count == |names| then Ok(true)
      else if now > deadline then Ok(false)
      else StatefulSetWait(names, cluster, holds, now + 5, deadline)
  }

  function DeploymentCheck(direction: Direction): DeploymentStatus -> bool
  {
    if direction == Up then ActiveDeployment else InactiveDeployment
  }

  function StatefulSetCheck(direction: Direction): StatefulSetStatus -> bool
  {
    if direction == Up then ActiveStatefulSet else InactiveStatefulSet
  }

  /** The whole keyword `check_service_is_scaled`, started at clock time `start`. */
  function ServiceIsScaled(arg: NamesArgument, direction: string, timeout: int, start: int,
                           cluster: int -> map<string, DeploymentStatus>): Result<bool, Error>
  {
    match ParseDirection(direction)
    case Err(e) => Err(e)
    case Ok(dir) => DeploymentWait(RequestedNames(arg), cluster, DeploymentCheck(dir), start, start + timeout)
  }

  /** The whole keyword `check_service_of_stateful_sets_is_scaled`. */
  function StatefulSetsAreScaled(arg: NamesArgument, direction: string, timeout: int, start: int,
                                 cluster: int -> map<string, StatefulSetStatus>): Result<bool, Error>
  {
    match ParseDirection(direction)
    case Err(e) => Err(e)
    case Ok(dir) => StatefulSetWait(RequestedNames(arg), cluster, StatefulSetCheck(dir), start, start + timeout)
  }

  /** A `True` verdict of the deployment loop was seen by a poll on schedule before the deadline. */
  lemma {:induction false} DeploymentTrueWasSeen(names: seq<string>, cluster: int -> map<string, DeploymentStatus>,
                                                 holds: DeploymentStatus -> bool, now: int, deadline: int)
    requires DeploymentWait(names, cluster, holds, now, deadline) == Ok(true)
    ensures exists t :: OnSchedule(t, now) && t <= deadline && Converged(names, cluster, holds, t)
    decreases deadline - now + 5
  {
    if CountNamed(names, cluster(now), holds) == Ok(|names|) {
      assert OnSchedule(now, now);
    } else {
      DeploymentTrueWasSeen(names, cluster, holds, now + 5, deadline);
      var t :| OnSchedule(t, now + 5) && t <= deadline && Converged(names, cluster, holds, t);
      assert OnSchedule(t, now);
    }
  }

  /** A `False` verdict of the deployment loop means no poll on schedule up to
      the deadline found the names converged, and every such poll found them all. */
  lemma {:induction false} DeploymentFalseNeverSeen(names: seq<string>, cluster: int -> map<string, DeploymentStatus>,
                                                    holds: DeploymentStatus -> bool, now: int, deadline: int)
    requires DeploymentWait(names, cluster, holds, now, deadline) == Ok(false)
    ensures forall t :: OnSchedule(t, now) && t <= deadline ==>
              CountNamed(names, cluster(t), holds).Ok? && !Converged(names, cluster, holds, t)
    decreases deadline - now + 5
  {
    if now <= deadline {
      DeploymentFalseNeverSeen(names, cluster, holds, now + 5, deadline);
      forall t | OnSchedule(t, now) && t <= deadline
        ensures CountNamed(names, cluster(t), holds).Ok? && !Converged(names, cluster, holds, t)
      {
        if t != now {
          assert OnSchedule(t, now + 5);
        }
      }
    }
  }

  /** With a negative timeout the deployment loop never polls: the verdict is `False` at once. */
  lemma DeploymentNegativeTimeout(names: seq<string>, cluster: int -> map<string, DeploymentStatus>,
                                  holds: DeploymentStatus -> bool, now: int, timeout: int)
    requires timeout < 0
    ensures DeploymentWait(names, cluster, holds, now, now + timeout) == Ok(false)
  {
  }

  /** A `True` verdict of the stateful-set loop was seen by a poll on schedule no
      later than the first poll past the deadline. */
  lemma {:induction false} StatefulSetTrueWasSeen(names: seq<string>, cluster: int -> map<string, StatefulSetStatus>,
                                                  holds: StatefulSetStatus -> bool, now: int, deadline: int)
    requires StatefulSetWait(names, cluster, holds, now, deadline) == Ok(true)
    ensures exists t :: OnSchedule(t, now) && (t == now || t - 5 <= deadline) && Converged(names, cluster, holds, t)
    decreases deadline - now + 5
  {
    if CountNamed(names, cluster(now), holds) == Ok(|names|) {
      assert OnSchedule(now, now);
    } else {
      StatefulSetTrueWasSeen(names, cluster, holds, now + 5, deadline);
      var t :| OnSchedule(t, now + 5) && (t == now + 5 || t - 5 <= deadline)
               && Converged(names, cluster, holds, t);
      assert OnSchedule(t, now);
    }
  }

  /** A `False` verdict of the stateful-set loop means it polled at least once
      after the deadline, and no poll on schedule until then found the names converged. */
  lemma {:induction false} StatefulSetFalseNeverSeen(names: seq<string>, cluster: int -> map<string, StatefulSetStatus>,
                                                     holds: StatefulSetStatus -> bool, now: int, deadline: int)
    requires StatefulSetWait(names, cluster, holds, now, deadline) == Ok(false)
    ensures exists t :: OnSchedule(t, now) && t > deadline && CountNamed(names, cluster(t), holds).Ok?
    ensures forall t :: OnSchedule(t, now) && (t == now || t - 5 <= deadline) ==>
              CountNamed(names, cluster(t), holds).Ok? && !Converged(names, cluster, holds, t)
    decreases deadline - now + 5
  {
    if now > deadline {
      assert OnSchedule(now, now);
      forall t | OnSchedule(t, now) && (t == now || t - 5 <= deadline)
        ensures CountNamed(names, cluster(t), holds).Ok? && !Converged(names, cluster, holds, t)
      {
        assert t == now;
      }
    } else {
      StatefulSetFalseNeverSeen(names, cluster, holds, now + 5, deadline);
      var t :| OnSchedule(t, now + 5) && t > deadline && CountNamed(names, cluster(t), holds).Ok?;
      assert OnSchedule(t, now);
      forall t | OnSchedule(t, now) && (t == now || t - 5 <= deadline)
        ensures CountNamed(names, cluster(t), holds).Ok? && !Converged(names, cluster, holds, t)
      {
        if t != now {
          assert OnSchedule(t, now + 5);
        }
      }
    }
  }

  /** However negative the timeout, the stateful-set loop polls once: names
      already converged give `True`. */
  lemma StatefulSetPollsAtLeastOnce(names: seq<string>, cluster: int -> map<string, StatefulSetStatus>,
                                    holds: StatefulSetStatus -> bool, now: int, deadline: int)
    requires Converged(names, cluster, holds, now)
    ensures StatefulSetWait(names, cluster, holds, now, deadline) == Ok(true)
  {
  }

  /** The `while` loop of `check_service_is_scaled` from clock time `start`. */
  method WaitForDeployments(names: seq<string>, cluster: int -> map<string, DeploymentStatus>,
                            holds: DeploymentStatus -> bool, start: int, deadline: int)
    returns (r: Result<bool, Error>, polls: nat, finish: int)
    ensures r == DeploymentWait(names, cluster, holds, start, deadline)
    ensures r == Ok(false) && start <= deadline ==> deadline < finish <= deadline + 5
    ensures r == Ok(true) ==> polls >= 1 && start <= finish <= deadline
    ensures start > deadline ==> r == Ok(false) && polls == 0 && finish == start
  {
    polls := 0;
    var now := start;
    ghost var goal := DeploymentWait(names, cluster, holds, start, deadline);
    while now <= deadline
      invariant start <= now
      invariant now == start ==> polls == 0
      invariant now != start ==> start <= deadline && now <= deadline + 5
      invariant DeploymentWait(names, cluster, holds, now, deadline) == goal
      decreases deadline - now + 5
    {
      var count := CountResources(names, cluster(now), holds);
      DeploymentWaitStep(names, cluster, holds, now, deadline, count);
      polls := polls + 1;
      if count.Err? {
        return Err(count.error), polls, now;
      }
      if count.value == |names| {
        return Ok(true), polls, now;
      }
      now := now + 5;
    }
    assert DeploymentWait(names, cluster, holds, now, deadline) == Ok(false);
    return Ok(false), polls, now;
  }

  /** `check_service_is_scaled`: returns the verdict, how many polls it made and
      the clock time at which it returned. */
  method CheckServiceIsScaled(arg: NamesArgument, direction: string, timeout: int, start: int,
                              cluster: int -> map<string, DeploymentStatus>)
    returns (r: Result<bool, Error>, polls: nat, finish: int)
    ensures r == ServiceIsScaled(arg, direction, timeout, start, cluster)
    ensures ParseDirection(direction).Err? ==> r == Err(ParseDirection(direction).error) && polls == 0
    ensures r == Ok(false) && timeout >= 0 ==> start + timeout < finish <= start + timeout + 5
    ensures r == Ok(true) ==> polls >= 1 && start <= finish <= start + timeout
    ensures timeout < 0 ==> polls == 0
  {
    var parsed := ParseDirection(direction);
    if parsed.Err? {
      return Err(parsed.error), 0, start;
    }
    r, polls, finish := WaitForDeployments(RequestedNames(arg), cluster, DeploymentCheck(parsed.value), start, start + timeout);
  }

  /** The `while True` loop of `check_service_of_stateful_sets_is_scaled` from clock time `start`. */
  method WaitForStatefulSets(names: seq<string>, cluster: int -> map<string, StatefulSetStatus>,
                             holds: StatefulSetStatus -> bool, start: int, deadline: int)
    returns (r: Result<bool, Error>, polls: nat, finish: int)
    ensures r == StatefulSetWait(names, cluster, holds, start, deadline)
    ensures polls >= 1 && start <= finish
    ensures r == Ok(false) ==> deadline < finish && (start <= deadline ==> finish <= deadline + 5)
    ensures start > deadline ==> polls == 1 && finish == start
  {
    polls := 0;
    var now := start;
    while true
      invariant start <= now && (polls == 0 <==> now == start)
      invariant now != start ==> start <= deadline && now <= deadline + 5
      invariant StatefulSetWait(names, cluster, holds, now, deadline) == StatefulSetWait(names, cluster, holds, start, deadline)
      decreases deadline - now + 5
    {
      var count := CountResources(names, cluster(now), holds);
      polls := polls + 1;
      if count.Err? {
        return Err(count.error), polls, now;
      }
      if count.value == |names| {
        return Ok(true), polls, now;
      }
      if now > deadline {
        return Ok(false), polls, now;
      }
      now := now + 5;
    }
  }

  /** `check_service_of_stateful_sets_is_scaled`. */
  method CheckServiceOfStatefulSetsIsScaled(arg: NamesArgument, direction: string, timeout: int, start: int,
                                            cluster: int -> map<string, StatefulSetStatus>)
    returns (r: Result<bool, Error>, polls: nat, finish: int)
    ensures r == StatefulSetsAreScaled(arg, direction, timeout, start, cluster)
    ensures ParseDirection(direction).Err? ==> r == Err(ParseDirection(direction).error) && polls == 0
    ensures ParseDirection(direction).Ok? ==> polls >= 1
    ensures r == Ok(false) ==> start + timeout < finish && (timeout >= 0 ==> finish <= start + timeout + 5)
  {
    var parsed := ParseDirection(direction);
    if parsed.Err? {
      return Err(parsed.error), 0, start;
    }
    r, polls, finish := WaitForStatefulSets(RequestedNames(arg), cluster, StatefulSetCheck(parsed.value), start, start + timeout);
  }
}
