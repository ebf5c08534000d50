/**
 * The environment: reading its status, creating or updating it, waiting for
 * a status change or for health with a bounded polling budget, and removing
 * application versions that no environment runs.
 */
module Environments {
  import opened Service

  const POLL_INTERVAL: nat := 5           // seconds between two polls
  const STATUS_CHANGE_TIMEOUT: nat := 1200
  const HEALTHY_TIMEOUT: nat := 300

  /** The describe request for one environment, by name. */
  function Describe(environmentName: string): Command {
    DescribeEnvironmentByName(environmentName)
  }

  /** `status`'s reading of a describe reply: the first environment's Status, or null. */
  function StatusOf(reply: Response): (r: Result<Option<string>>)
    ensures r.Success? <==> reply.Environments?
    ensures r.Success? ==> (r.value.None? <==> reply.descriptions == [])
    ensures r.Success? && r.value.Some? ==> r.value.value == reply.descriptions[0].status
    ensures reply.Rejected? ==> r == Failure(ServiceError(reply.reason))
  {
    match FirstEnvironmentOf(reply)
    case Failure(e) => Failure(e)
    case Success(d) => Success(if d.None? then None else Some(d.value.status))
  }

  /** The create request: the tier decides its type and whether a CNAME prefix is asked for. */
  function CreateOptionsFor(applicationName: string, environmentName: string, versionLabel: string,
                            stack: string, config: seq<OptionSetting>,
                            tags: Option<seq<Tag>>, tier: Option<string>): (o: CreateOptions)
    ensures o.applicationName == applicationName && o.environmentName == environmentName
    ensures o.versionLabel == versionLabel && o.solutionStackName == stack && o.optionSettings == config
    // omitted tags and tier take their defaults
    ensures o.tags == (if tags.Some? then tags.value else [])
    ensures o.tier.name == (if tier.Some? then tier.value else "WebServer")
    // a worker is an SQS/HTTP environment without a CNAME; anything else is a Standard web server
    ensures o.tier.name == "Worker" <==> o.tier.tierType == "SQS/HTTP"
    ensures o.tier.name != "Worker" <==> o.tier.tierType == "Standard"
    ensures o.cnamePrefix.None? <==> o.tier.name == "Worker"
    ensures o.cnamePrefix.Some? ==> o.cnamePrefix.value == environmentName
  {
    var name := tier.GetOr("WebServer");
    if name == "Worker" then
      CreateOptions(applicationName, versionLabel, environmentName, stack, config,
                    None, tags.GetOr([]), EnvironmentTier(name, "SQS/HTTP"))
    else
      CreateOptions(applicationName, versionLabel, environmentName, stack, config,
                    Some(environmentName), tags.GetOr([]), EnvironmentTier(name, "Standard"))
  }

  /** The update request: the solution stack is changed only when one is given. */
  function UpdateConfigFor(versionLabel: string, environmentName: string, stack: string,
                           config: seq<OptionSetting>): (u: UpdateConfig)
    ensures u.versionLabel == versionLabel && u.environmentName == environmentName
    ensures u.optionSettings == config
    ensures u.solutionStackName.Some? <==> stack != ""
    ensures u.solutionStackName.Some? ==> u.solutionStackName.value == stack
  {
    UpdateConfig(versionLabel, environmentName, config, if stack != "" then Some(stack) else None)
  }

  /** What `create` does: check that the name is free as a CNAME, then send the create request. */
  function CreateRun(applicationName: string, environmentName: string, versionLabel: string,
                     stack: string, config: seq<OptionSetting>, tags: Option<seq<Tag>>,
                     tier: Option<string>, replies: nat -> Response, at: nat): (run: Run<Response>)
    ensures 1 <= |run.commands| <= 2 && run.commands[0] == CheckDnsAvailability(environmentName)
    // the create request goes out exactly when the name was reported available
    ensures |run.commands| == 2 <==> replies(at) == DnsAvailability(true)
    ensures |run.commands| == 2 ==>
              run.commands[1] == CreateEnvironment(CreateOptionsFor(applicationName, environmentName,
                                                                    versionLabel, stack, config, tags, tier))
    ensures AvailableOf(replies(at)) == Success(false) ==> run.result == Failure(DnsNotAvailable(environmentName))
    ensures run.result.Success? <==> |run.commands| == 2 && !replies(at + 1).Rejected?
    // a rejected DNS check or a rejected create request is the error
    ensures replies(at).Rejected? ==>
              run == Run(Failure(ServiceError(replies(at).reason)), [CheckDnsAvailability(environmentName)])
    ensures |run.commands| == 2 && replies(at + 1).Rejected? ==>
              run.result == Failure(ServiceError(replies(at + 1).reason))
  {
    var check := CheckDnsAvailability(environmentName);
    match AvailableOf(replies(at))
    case Failure(e) => Run(Failure(e), [check])
    case Success(available) =>
      if !available then Run(Failure(DnsNotAvailable(environmentName)), [check])
      else
        var create := CreateEnvironment(CreateOptionsFor(applicationName, environmentName, versionLabel,
                                                         stack, config, tags, tier));
        Run(Accepted(replies(at + 1)), [check, create])
  }

  /** `run` after the commands `done` were sent. */
  function Preceded<T>(done: seq<Command>, run: Run<T>): Run<T> {
    Run(run.result, done + run.commands)
  }

  /**
   * The loop of `waitUntilStatusIsNot` from a state with `timeLeft` seconds
   * of budget and the last polled `status`: poll again while budget is left
   * and the status is still `oldStatus`.
   */
  function StatusPolls(oldStatus: string, environmentName: string, replies: nat -> Response, at: nat,
                       timeLeft: int, status: Option<string>): Run<Option<string>>
    decreases timeLeft
  {
    if timeLeft > 0 && status == Some(oldStatus) then
      match StatusOf(replies(at))
      case Failure(e) => Run(Failure(e), [Describe(environmentName)])
      case Success(next) =>
        var rest := StatusPolls(oldStatus, environmentName, replies, at + 1, timeLeft - POLL_INTERVAL, next);
        Preceded([Describe(environmentName)], rest)
    else
      Run(Success(status), [])
  }

  /** What the status loop sends, how long it goes on and what it returns. */
  lemma {:induction false} StatusPollsShape(oldStatus: string, environmentName: string, replies: nat -> Response,
                                            at: nat, timeLeft: int, status: Option<string>)
    ensures var run := StatusPolls(oldStatus, environmentName, replies, at, timeLeft, status);
            && run.commands == Repeat(Describe(environmentName), |run.commands|)
            // a poll is made only while budget is left and the status has not moved
            && (|run.commands| == 0 <==> !(timeLeft > 0 && status == Some(oldStatus)))
            && (|run.commands| > 0 ==> POLL_INTERVAL * (|run.commands| - 1) < timeLeft)
            && (forall j :: at <= j < at + |run.commands| - 1 ==> StatusOf(replies(j)) == Success(Some(oldStatus)))
            // the result is the last status polled, or what a failed poll raised
            && (|run.commands| == 0 ==> run.result == Success(status))
            && (|run.commands| > 0 ==> run.result == StatusOf(replies(at + |run.commands| - 1)))
            // a status equal to oldStatus is returned only once the budget is spent
            && (run.result == Success(Some(oldStatus)) ==> timeLeft - POLL_INTERVAL * |run.commands| <= 0)
    decreases timeLeft
  {
    if timeLeft > 0 && status == Some(oldStatus) && StatusOf(replies(at)).Success? {
      StatusPollsShape(oldStatus, environmentName, replies, at + 1, timeLeft - POLL_INTERVAL,
                       StatusOf(replies(at)).value);
    }
  }

  /** What `waitUntilStatusIsNot(oldStatus, environmentName)` does: one poll, then the loop. */
  function WaitStatusRun(oldStatus: string, environmentName: string, replies: nat -> Response, at: nat)
    : Run<Option<string>>
  {
    match StatusOf(replies(at))
    case Failure(e) => Run(Failure(e), [Describe(environmentName)])
    case Success(status) =>
      var loop := StatusPolls(oldStatus, environmentName, replies, at + 1, STATUS_CHANGE_TIMEOUT, status);
      Preceded([Describe(environmentName)], loop)
  }

  /**
   * `waitUntilStatusIsNot` polls at least once and at most 1 + 1200 / 5
   * times; it returns the first status different from oldStatus, or oldStatus
   * itself once the budget is spent, or the error of the poll that failed.
   */
  lemma WaitStatusRunShape(oldStatus: string, environmentName: string, replies: nat -> Response, at: nat)
    ensures var run := WaitStatusRun(oldStatus, environmentName, replies, at);
            && run.commands == Repeat(Describe(environmentName), |run.commands|)
            && 1 <= |run.commands| <= 1 + STATUS_CHANGE_TIMEOUT / POLL_INTERVAL
            // every poll but the last saw oldStatus; the result is what the last poll gave
            && (forall j :: at <= j < at + |run.commands| - 1 ==> StatusOf(replies(j)) == Success(Some(oldStatus)))
            && run.result == StatusOf(replies(at + |run.commands| - 1))
            // it returns oldStatus only when the budget ran out
            && (run.result == Success(Some(oldStatus)) ==> |run.commands| == 1 + STATUS_CHANGE_TIMEOUT / POLL_INTERVAL)
  {
    if StatusOf(replies(at)).Success? {
      var status := StatusOf(replies(at)).value;
      StatusPollsShape(oldStatus, environmentName, replies, at + 1, STATUS_CHANGE_TIMEOUT, status);
      var loop := StatusPolls(oldStatus, environmentName, replies, at + 1, STATUS_CHANGE_TIMEOUT, status);
      RepeatSnoc(Describe(environmentName), |loop.commands|);
    }
  }

  /** The condition `waitUtilHealthy` waits for. */
  predicate Healthy(d: EnvironmentDescription) {
    d.health == "Green" && d.status == "Ready"
  }

  /** The empty description `waitUtilHealthy` starts from. */
  const NoDescription := EnvironmentDescription("", "", "")

  /** A reply that describes an environment that is not (yet) healthy. */
  predicate DescribesUnhealthy(reply: Response) {
    reply.Environments? && reply.descriptions != [] && !Healthy(reply.descriptions[0])
  }

  /** How a poll of `waitUtilHealthy` ends the wait, when it is the last one. */
  function HealthVerdict(environmentName: string, reply: Response): Result<EnvironmentDescription> {
    match FirstEnvironmentOf(reply)
    case Failure(e) => Failure(e)
    case Success(None) => Failure(HealthCheckFailed(environmentName))
    case Success(Some(d)) => if Healthy(d) then Success(d) else Failure(NotHealthy(environmentName))
  }

  /**
   * The loop of `waitUtilHealthy` from a state with `timeLeft` seconds of
   * budget and the last description `desc`, then the final health check.
   */
  function HealthPolls(environmentName: string, replies: nat -> Response, at: nat,
                       timeLeft: int, desc: EnvironmentDescription): Run<EnvironmentDescription>
    decreases timeLeft
  {
    if timeLeft > 0 && !Healthy(desc) then
      match FirstEnvironmentOf(replies(at))
      case Failure(e) => Run(Failure(e), [Describe(environmentName)])
      case Success(None) => Run(Failure(HealthCheckFailed(environmentName)), [Describe(environmentName)])
      case Success(Some(d)) =>
        var rest := HealthPolls(environmentName, replies, at + 1, timeLeft - POLL_INTERVAL, d);
        Preceded([Describe(environmentName)], rest)
    else if Healthy(desc) then Run(Success(desc), [])
    else Run(Failure(NotHealthy(environmentName)), [])
  }

  /** What the health loop sends, how long it goes on and how it ends. */
  lemma {:induction false} HealthPollsShape(environmentName: string, replies: nat -> Response, at: nat,
                                            timeLeft: int, desc: EnvironmentDescription)
    ensures var run := HealthPolls(environmentName, replies, at, timeLeft, desc);
            && run.commands == Repeat(Describe(environmentName), |run.commands|)
            && (|run.commands| == 0 <==> !(timeLeft > 0 && !Healthy(desc)))
            && (|run.commands| > 0 ==> POLL_INTERVAL * (|run.commands| - 1) < timeLeft)
            // every poll but the last described an unhealthy environment
            && (forall j :: at <= j < at + |run.commands| - 1 ==> DescribesUnhealthy(replies(j)))
            && (|run.commands| == 0 ==>
                  run.result == if Healthy(desc) then Success(desc) else Failure(NotHealthy(environmentName)))
            && (|run.commands| > 0 ==> run.result == HealthVerdict(environmentName, replies(at + |run.commands| - 1)))
            // "not healthy" only once the budget is spent
            && (run.result == Failure(NotHealthy(environmentName)) ==> timeLeft - POLL_INTERVAL * |run.commands| <= 0)
    decreases timeLeft
  {
    if timeLeft > 0 && !Healthy(desc) && DescribesUnhealthy(replies(at)) {
      HealthPollsShape(environmentName, replies, at + 1, timeLeft - POLL_INTERVAL, replies(at).descriptions[0]);
    }
  }

  /** What `waitUtilHealthy(environmentName)` does. */
  function HealthRun(environmentName: string, replies: nat -> Response, at: nat): Run<EnvironmentDescription> {
    HealthPolls(environmentName, replies, at, HEALTHY_TIMEOUT, NoDescription)
  }

  /**
   * `waitUtilHealthy` polls at least once and at most 300 / 5 times; it
   * returns the first Green/Ready description, fails at once when a poll
   * finds no environment, and reports "not healthy" only after the whole budget.
   */
  lemma HealthRunShape(environmentName: string, replies: nat -> Response, at: nat)
    ensures var run := HealthRun(environmentName, replies, at);
            && run.commands == Repeat(Describe(environmentName), |run.commands|)
            && 1 <= |run.commands| <= HEALTHY_TIMEOUT / POLL_INTERVAL
            && (forall j :: at <= j < at + |run.commands| - 1 ==> DescribesUnhealthy(replies(j)))
            && run.result == HealthVerdict(environmentName, replies(at + |run.commands| - 1))
            && (run.result.Success? ==> Healthy(run.result.value))
            && (run.result == Failure(NotHealthy(environmentName)) ==>
                  |run.commands| == HEALTHY_TIMEOUT / POLL_INTERVAL)
  {
    HealthPollsShape(environmentName, replies, at, HEALTHY_TIMEOUT, NoDescription);
  }

  /** `_.difference(xs, ys)`: the elements of `xs` not in `ys`, in their order in `xs`. */
  function Difference(xs: seq<string>, ys: seq<string>): (r: seq<string>)
    ensures forall x :: x in r <==> x in xs && x !in ys
    ensures |r| <= |xs|
  {
    if xs == [] then []
    else (if xs[0] in ys then [] else [xs[0]]) + Difference(xs[1..], ys)
  }

  /** `Difference` keeps order: it distributes over concatenation. */
  lemma {:induction false} DifferenceAppend(xs: seq<string>, zs: seq<string>, ys: seq<string>)
    ensures Difference(xs + zs, ys) == Difference(xs, ys) + Difference(zs, ys)
  {
    if xs != [] {
      assert (xs + zs)[1..] == xs[1..] + zs;
      DifferenceAppend(xs[1..], zs, ys);
    } else {
      assert xs + zs == zs;
    }
  }

  /** The version label of each listed environment. */
  function LabelsInUse(environments: seq<EnvironmentDescription>): (labels: seq<string>)
    ensures |labels| == |environments|
    ensures forall i :: 0 <= i < |labels| ==> labels[i] == environments[i].versionLabel
  {
    seq(|environments|, i requires 0 <= i < |environments| => environments[i].versionLabel)
  }

  /** The delete request for one version; its source bundle goes with it. */
  function DeleteVersion(applicationName: string, versionLabel: string): Command {
    DeleteApplicationVersion(applicationName, versionLabel, true)
  }

  /** The loop of `cleanApplicationVersions`: delete each label in turn, stopping at a rejection. */
  function DeleteRun(applicationName: string, labels: seq<string>, replies: nat -> Response, at: nat): Run<()>
    decreases |labels|
  {
    if labels == [] then Run(Success(()), [])
    else
      var delete := DeleteVersion(applicationName, labels[0]);
      match Accepted(replies(at))
      case Failure(e) => Run(Failure(e), [delete])
      case Success(_) => Preceded([delete], DeleteRun(applicationName, labels[1..], replies, at + 1))
  }

  /** The delete loop sends the deletes of a prefix of the labels, all of them unless one is rejected. */
  lemma {:induction false} DeleteRunShape(applicationName: string, labels: seq<string>, replies: nat -> Response, at: nat)
    ensures var run := DeleteRun(applicationName, labels, replies, at);
            && |run.commands| <= |labels|
            && (forall i :: 0 <= i < |run.commands| ==> run.commands[i] == DeleteVersion(applicationName, labels[i]))
            && (forall j :: at <= j < at + |run.commands| - 1 ==> !replies(j).Rejected?)
            && (run.result.Success? <==>
                  |run.commands| == |labels| && (labels == [] || !replies(at + |labels| - 1).Rejected?))
            && (run.result.Failure? ==>
                  && run.commands != [] && replies(at + |run.commands| - 1).Rejected?
                  && run.result == Failure(ServiceError(replies(at + |run.commands| - 1).reason)))
    decreases |labels|
  {
    if labels != [] && !replies(at).Rejected? {
      DeleteRunShape(applicationName, labels[1..], replies, at + 1);
    }
  }

  /** What `cleanApplicationVersions(applicationName)` does. */
  function CleanRun(applicationName: string, replies: nat -> Response, at: nat): Run<()> {
    var listVersions := DescribeApplicationVersions(applicationName, None);
    match VersionLabelsOf(replies(at))
    case Failure(e) => Run(Failure(e), [listVersions])
    case Success(versions) =>
      var listEnvironments := DescribeEnvironmentsOfApplication(applicationName);
      match EnvironmentsOf(replies(at + 1))
      case Failure(e) => Run(Failure(e), [listVersions, listEnvironments])
      case Success(environments) =>
        var unused := Difference(versions, LabelsInUse(environments));
        Preceded([listVersions, listEnvironments], DeleteRun(applicationName, unused, replies, at + 2))
  }

  /** Once both listings are read, the rest of the run is the delete loop over the unused versions. */
  lemma CleanRunListed(applicationName: string, replies: nat -> Response, at: nat, sent: seq<Command>)
    requires replies(at).ApplicationVersions? && replies(at + 1).Environments?
    ensures var run := CleanRun(applicationName, replies, at);
            var rest := DeleteRun(applicationName, Difference(replies(at).labels, LabelsInUse(replies(at + 1).descriptions)),
                                  replies, at + 2);
            && run.result == rest.result
            && sent + [DescribeApplicationVersions(applicationName, None)]
                    + [DescribeEnvironmentsOfApplication(applicationName)] + rest.commands
               == sent + run.commands
  {
    var rest := DeleteRun(applicationName, Difference(replies(at).labels, LabelsInUse(replies(at + 1).descriptions)),
                          replies, at + 2);
    assert CleanRun(applicationName, replies, at).commands
        == [DescribeApplicationVersions(applicationName, None), DescribeEnvironmentsOfApplication(applicationName)]
           + rest.commands;
  }

  /**
   * `cleanApplicationVersions` lists the versions, then the environments,
   * then deletes the listed versions no environment runs, in listing order
   * and with their source bundles: all of them unless a delete is rejected.
   * A failed listing, or the first rejected delete, is the run's error.
   */
  lemma CleanRunShape(applicationName: string, replies: nat -> Response, at: nat)
    ensures var run := CleanRun(applicationName, replies, at);
            && 1 <= |run.commands| && run.commands[0] == DescribeApplicationVersions(applicationName, None)
            && (|run.commands| > 1 ==>
                  replies(at).ApplicationVersions? && run.commands[1] == DescribeEnvironmentsOfApplication(applicationName))
            && (|run.commands| > 2 || run.result.Success? ==>
                  && replies(at).ApplicationVersions? && replies(at + 1).Environments?
                  && var unused := Difference(replies(at).labels, LabelsInUse(replies(at + 1).descriptions));
                     && 2 <= |run.commands| <= 2 + |unused|
                     && (forall i :: 2 <= i < |run.commands| ==>
                           run.commands[i] == DeleteVersion(applicationName, unused[i - 2]))
                     && (run.result.Success? ==> |run.commands| == 2 + |unused|))
            // a listing that fails ends the run with its error
            && (!replies(at).ApplicationVersions? ==>
                  run.result == Failure(VersionLabelsOf(replies(at)).error) && |run.commands| == 1)
            && (replies(at).ApplicationVersions? && !replies(at + 1).Environments? ==>
                  run.result == Failure(EnvironmentsOf(replies(at + 1)).error) && |run.commands| == 2)
            // after both listings, only a rejected delete stops the run, and it is the last command
            && (replies(at).ApplicationVersions? && replies(at + 1).Environments? && run.result.Failure? ==>
                  && |run.commands| > 2 && LastReply(replies, at, run).Rejected?
                  && run.result == Failure(ServiceError(LastReply(replies, at, run).reason)))
  {
    var run := CleanRun(applicationName, replies, at);
    if !replies(at).ApplicationVersions? {
      assert run.commands == [DescribeApplicationVersions(applicationName, None)] && run.result.Failure?;
    } else if !replies(at + 1).Environments? {
      assert run.commands == [DescribeApplicationVersions(applicationName, None),
                              DescribeEnvironmentsOfApplication(applicationName)] && run.result.Failure?;
    } else {
      CleanRunDeletes(applicationName, replies, at);
    }
  }

  /** Once both listings are read, the run goes on as the delete loop over the unused versions. */
  lemma CleanRunDeletes(applicationName: string, replies: nat -> Response, at: nat)
    requires replies(at).ApplicationVersions? && replies(at + 1).Environments?
    ensures var run := CleanRun(applicationName, replies, at);
            var unused := Difference(replies(at).labels, LabelsInUse(replies(at + 1).descriptions));
            && 2 <= |run.commands| <= 2 + |unused|
            && run.commands[0] == DescribeApplicationVersions(applicationName, None)
            && run.commands[1] == DescribeEnvironmentsOfApplication(applicationName)
            && (forall i :: 2 <= i < |run.commands| ==> run.commands[i] == DeleteVersion(applicationName, unused[i - 2]))
            && (run.result.Success? ==> |run.commands| == 2 + |unused|)
            // every delete but the last was accepted
            && (forall j :: at + 2 <= j < at + |run.commands| - 1 ==> !replies(j).Rejected?)
            // all unused versions are deleted unless a delete is rejected, and then that rejection is the error
            && (run.result.Success? <==>
                  |run.commands| == 2 + |unused| && (unused == [] || !replies(at + 1 + |unused|).Rejected?))
            && (run.result.Failure? ==>
                  && |run.commands| > 2 && LastReply(replies, at, run).Rejected?
                  && run.result == Failure(ServiceError(LastReply(replies, at, run).reason)))
  {
    var unused := Difference(replies(at).labels, LabelsInUse(replies(at + 1).descriptions));
    var listings := [DescribeApplicationVersions(applicationName, None), DescribeEnvironmentsOfApplication(applicationName)];
    var run := CleanRun(applicationName, replies, at);
    assert run == Preceded(listings, DeleteRun(applicationName, unused, replies, at + 2));
    ListingsThenDeletes(applicationName, unused, replies, at, listings, run);
    ListingsThenOutcome(applicationName, unused, replies, at, listings, run);
  }

  /** The delete loop's commands, read after the two listing requests. */
  lemma ListingsThenDeletes(applicationName: string, unused: seq<string>, replies: nat -> Response, at: nat,
                            listings: seq<Command>, run: Run<()>)
    requires |listings| == 2 && run == Preceded(listings, DeleteRun(applicationName, unused, replies, at + 2))
    ensures && 2 <= |run.commands| <= 2 + |unused|
            && run.commands[0] == listings[0] && run.commands[1] == listings[1]
            && (forall i :: 2 <= i < |run.commands| ==> run.commands[i] == DeleteVersion(applicationName, unused[i - 2]))
  {
    var rest := DeleteRun(applicationName, unused, replies, at + 2);
    DeleteRunShape(applicationName, unused, replies, at + 2);
    assert forall i :: 2 <= i < |run.commands| ==> run.commands[i] == rest.commands[i - 2];
  }

  /** The delete loop's outcome, read after the two listing requests. */
  lemma ListingsThenOutcome(applicationName: string, unused: seq<string>, replies: nat -> Response, at: nat,
                            listings: seq<Command>, run: Run<()>)
    requires |listings| == 2 && run == Preceded(listings, DeleteRun(applicationName, unused, replies, at + 2))
    ensures && (forall j :: at + 2 <= j < at + |run.commands| - 1 ==> !replies(j).Rejected?)
            && (run.result.Success? <==>
                  |run.commands| == 2 + |unused| && (unused == [] || !replies(at + 1 + |unused|).Rejected?))
            && (run.result.Failure? ==>
                  && |run.commands| > 2 && LastReply(replies, at, run).Rejected?
                  && run.result == Failure(ServiceError(LastReply(replies, at, run).reason)))
  {
    var rest := DeleteRun(applicationName, unused, replies, at + 2);
    DeleteRunShape(applicationName, unused, replies, at + 2);
    SameReply(replies, at + 1 + |unused|, at + 2 + |unused| - 1);
    if rest.commands != [] {
      SameReply(replies, at + |run.commands| - 1, at + 2 + |rest.commands| - 1);
    }
  }

  /** A version an environment runs, or one that was not listed, is never deleted. */
  lemma CleanDeletesOnlyUnused(applicationName: string, replies: nat -> Response, at: nat, i: nat)
    requires i < |CleanRun(applicationName, replies, at).commands|
    requires CleanRun(applicationName, replies, at).commands[i].DeleteApplicationVersion?
    ensures var c := CleanRun(applicationName, replies, at).commands[i];
            && replies(at).ApplicationVersions? && replies(at + 1).Environments?
            && c.applicationName == applicationName && c.deleteSourceBundle
            && c.versionLabel in replies(at).labels
            && c.versionLabel !in LabelsInUse(replies(at + 1).descriptions)
  {
    CleanRunShape(applicationName, replies, at);
    var run := CleanRun(applicationName, replies, at);
    assert 2 <= i;
    var unused := Difference(replies(at).labels, LabelsInUse(replies(at + 1).descriptions));
    assert run.commands[i].versionLabel == unused[i - 2] && unused[i - 2] in unused;
  }

  /** The environment manager, over the service client. */
  class Environment {
    const client: Client

    constructor (client: Client)
      ensures this.client == client
    {
      this.client := client;
    }

    /** `describeEnvironment`: the first environment the describe request returns, if any. */
    method DescribeEnvironment(environmentName: string) returns (r: Result<Option<EnvironmentDescription>>)
      requires client.Valid()
      modifies client
      ensures client.Valid()
      ensures client.sent == old(client.sent) + [Describe(environmentName)]
      ensures r == FirstEnvironmentOf(client.replies(old(client.cursor)))
    {
      var reply := client.Send(Describe(environmentName));
      r := FirstEnvironmentOf(reply);
    }

    /** `status`: the Status of the described environment, or None when there is none. */
    method Status(environmentName: string) returns (r: Result<Option<string>>)
      requires client.Valid()
      modifies client
      ensures client.Valid()
      ensures client.sent == old(client.sent) + [Describe(environmentName)]
      ensures r == StatusOf(client.replies(old(client.cursor)))
    {
      var environment := DescribeEnvironment(environmentName);
      if environment.Failure? {
        return Failure(environment.error);
      }
      r := Success(if environment.value.None? then None else Some(environment.value.value.status));
    }

    /** `checkDNSAvailability`: is the name free as a CNAME prefix? */
    method CheckDnsAvailability(environmentName: string) returns (r: Result<bool>)
      requires client.Valid()
      modifies client
      ensures client.Valid()
      ensures client.sent == old(client.sent) + [Command.CheckDnsAvailability(environmentName)]
      ensures r == AvailableOf(client.replies(old(client.cursor)))
    {
      var reply := client.Send(Command.CheckDnsAvailability(environmentName));
      r := AvailableOf(reply);
    }

    /** `create`: refuse a name that is taken, otherwise send the create request for the tier. */
    method Create(applicationName: string, environmentName: string, versionLabel: string,
                  stack: string, config: seq<OptionSetting>, tags: Option<seq<Tag>>, tier: Option<string>)
      returns (r: Result<Response>)
      requires client.Valid()
      modifies client
      ensures client.Valid()
      ensures var run := CreateRun(applicationName, environmentName, versionLabel, stack, config, tags, tier,
                                   client.replies, old(client.cursor));
              r == run.result && client.sent == old(client.sent) + run.commands
    {
      var available := CheckDnsAvailability(environmentName);
      if available.Failure? {
        return Failure(available.error);
      }
      if !available.value {
        return Failure(DnsNotAvailable(environmentName));
      }
      var options := CreateOptionsFor(applicationName, environmentName, versionLabel, stack, config, tags, tier);
      var reply := client.Send(CreateEnvironment(options));
      r := Accepted(reply);
    }

    /** `deploy`: send the update request for the new version. */
    method Deploy(versionLabel: string, environmentName: string, stack: string, config: seq<OptionSetting>)
      returns (r: Result<Response>)
      requires client.Valid()
      modifies client
      ensures client.Valid()
      ensures client.sent == old(client.sent) + [UpdateEnvironment(UpdateConfigFor(versionLabel, environmentName, stack, config))]
      ensures r == Accepted(client.replies(old(client.cursor)))
    {
      var updateConfig := UpdateConfigFor(versionLabel, environmentName, stack, config);
      var reply := client.Send(UpdateEnvironment(updateConfig));
      r := Accepted(reply);
    }

    /** `waitUntilStatusIsNot`: poll the status until it differs from oldStatus or the budget is spent. */
    method WaitUntilStatusIsNot(oldStatus: string, environmentName: string) returns (r: Result<Option<string>>)
      requires client.Valid()
      modifies client
      ensures client.Valid()
      ensures var run := WaitStatusRun(oldStatus, environmentName, client.replies, old(client.cursor));
              r == run.result && client.sent == old(client.sent) + run.commands
    {
      ghost var spec := WaitStatusRun(oldStatus, environmentName, client.replies, client.cursor);
      var timeLeft: int := STATUS_CHANGE_TIMEOUT;
      var status := Status(environmentName);
      if status.Failure? {
        return status;
      }
      var current := status.value;
      SentThen(old(client.sent), [Describe(environmentName)],
                  StatusPolls(oldStatus, environmentName, client.replies, client.cursor, timeLeft, current).commands);
      while timeLeft > 0 && current == Some(oldStatus)
        invariant client.Valid()
        // what was sent and what is left to send make up the whole run
        invariant var rest := StatusPolls(oldStatus, environmentName, client.replies, client.cursor, timeLeft, current);
                  rest.result == spec.result && client.sent + rest.commands == old(client.sent) + spec.commands
        decreases timeLeft
      {
        ghost var before := client.sent;
        status := Status(environmentName);
        if status.Failure? {
          return status;
        }
        SentThen(before, [Describe(environmentName)],
                    StatusPolls(oldStatus, environmentName, client.replies, client.cursor,
                                timeLeft - POLL_INTERVAL, status.value).commands);
        current := status.value;
        timeLeft := timeLeft - POLL_INTERVAL;
      }
      assert client.sent + [] == client.sent;
      r := Success(current);
    }

    /** `waitUtilHealthy`: poll until Green and Ready, failing on a missing environment or a spent budget. */
    method WaitUtilHealthy(environmentName: string) returns (r: Result<EnvironmentDescription>)
      requires client.Valid()
      modifies client
      ensures client.Valid()
      ensures var run := HealthRun(environmentName, client.replies, old(client.cursor));
              r == run.result && client.sent == old(client.sent) + run.commands
    {
      ghost var spec := HealthRun(environmentName, client.replies, client.cursor);
      var timeLeft: int := HEALTHY_TIMEOUT;
      var description := NoDescription;
      assert old(client.sent) + spec.commands == client.sent + spec.commands;
      while timeLeft > 0 && !Healthy(description)
        invariant client.Valid()
        // what was sent and what is left to send make up the whole run
        invariant var rest := HealthPolls(environmentName, client.replies, client.cursor, timeLeft, description);
                  rest.result == spec.result && client.sent + rest.commands == old(client.sent) + spec.commands
        decreases timeLeft
      {
        ghost var before := client.sent;
        var environment := DescribeEnvironment(environmentName);
        if environment.Failure? {
          return Failure(environment.error);
        }
        if environment.value.None? {
          return Failure(HealthCheckFailed(environmentName));
        }
        SentThen(before, [Describe(environmentName)],
                    HealthPolls(environmentName, client.replies, client.cursor,
                                timeLeft - POLL_INTERVAL, environment.value.value).commands);
        description := environment.value.value;
        timeLeft := timeLeft - POLL_INTERVAL;
      }
      assert client.sent + [] == client.sent;
      if !Healthy(description) {
        return Failure(NotHealthy(environmentName));
      }
      r := Success(description);
    }

    /** `deleteApplicationVersion`. */
    method DeleteApplicationVersion(applicationName: string, versionLabel: string) returns (r: Result<Response>)
      requires client.Valid()
      modifies client
      ensures client.Valid()
      ensures client.sent == old(client.sent) + [DeleteVersion(applicationName, versionLabel)]
      ensures r == Accepted(client.replies(old(client.cursor)))
    {
      var reply := client.Send(DeleteVersion(applicationName, versionLabel));
      r := Accepted(reply);
    }

    /** `cleanApplicationVersions`: delete every listed version that no environment runs. */
    method CleanApplicationVersions(applicationName: string) returns (r: Result<()>)
      requires client.Valid()
      modifies client
      ensures client.Valid()
      ensures var run := CleanRun(applicationName, client.replies, old(client.cursor));
              r == run.result && client.sent == old(client.sent) + run.commands
    {
      ghost var at := client.cursor;
      var versionsReply := client.Send(DescribeApplicationVersions(applicationName, None));
      var versions := VersionLabelsOf(versionsReply);
      if versions.Failure? {
        return Failure(versions.error);
      }
      var environmentsReply := client.Send(DescribeEnvironmentsOfApplication(applicationName));
      var environments := EnvironmentsOf(environmentsReply);
      if environments.Failure? {
        return Failure(environments.error);
      }
      var toDelete := Difference(versions.value, LabelsInUse(environments.value));
      ghost var spec := CleanRun(applicationName, client.replies, at);
      CleanRunListed(applicationName, client.replies, at, old(client.sent));
      var remaining := toDelete;
      while remaining != []
        invariant client.Valid()
        // what was sent and what is left to send make up the whole run
        invariant var rest := DeleteRun(applicationName, remaining, client.replies, client.cursor);
                  rest.result == spec.result && client.sent + rest.commands == old(client.sent) + spec.commands
        decreases |remaining|
      {
        ghost var before := client.sent;
        var deleted := DeleteApplicationVersion(applicationName, remaining[0]);
        if deleted.Failure? {
          return Failure(deleted.error);
        }
        SentThen(before, [DeleteVersion(applicationName, remaining[0])],
                    DeleteRun(applicationName, remaining[1..], client.replies, client.cursor).commands);
        remaining := remaining[1..];
      }
      assert client.sent + [] == client.sent;
      r := Success(());
    }
  }
}
