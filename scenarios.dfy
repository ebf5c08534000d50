/**
 * The scenarios the repository's unit tests walk through, stated over any
 * names and replies of the same shape rather than the tests' literals.
 */
module Scenarios {
  import opened Service
  import opened Environments

  /**
   * Two polls still see `oldStatus`, the third sees another status: the
   * wait makes three status reads and returns the new status.
   */
  lemma StatusChangesOnThirdPoll(oldStatus: string, newStatus: string, environmentName: string,
                                 replies: nat -> Response, at: nat)
    requires newStatus != oldStatus
    requires StatusOf(replies(at)) == Success(Some(oldStatus))
    requires StatusOf(replies(at + 1)) == Success(Some(oldStatus))
    requires StatusOf(replies(at + 2)) == Success(Some(newStatus))
    ensures WaitStatusRun(oldStatus, environmentName, replies, at)
            == Run(Success(Some(newStatus)), Repeat(Describe(environmentName), 3))
  {
    var d := Describe(environmentName);
    var third := StatusPolls(oldStatus, environmentName, replies, at + 3, STATUS_CHANGE_TIMEOUT - 2 * POLL_INTERVAL,
                             Some(newStatus));
    assert third == Run(Success(Some(newStatus)), []);
    var second := StatusPolls(oldStatus, environmentName, replies, at + 2, STATUS_CHANGE_TIMEOUT - POLL_INTERVAL,
                              Some(oldStatus));
    assert second == Preceded([d], third);
    var first := StatusPolls(oldStatus, environmentName, replies, at + 1, STATUS_CHANGE_TIMEOUT, Some(oldStatus));
    assert first == Preceded([d], second);
    assert WaitStatusRun(oldStatus, environmentName, replies, at) == Preceded([d], first);
    RepeatSnoc(d, 0);
    RepeatSnoc(d, 1);
    RepeatSnoc(d, 2);
  }

  /**
   * Two polls describe an unhealthy environment, the third a Green/Ready
   * one: the wait makes three describe requests and returns that description.
   */
  lemma HealthyOnThirdPoll(environmentName: string, replies: nat -> Response, at: nat)
    requires DescribesUnhealthy(replies(at)) && DescribesUnhealthy(replies(at + 1))
    requires replies(at + 2).Environments? && replies(at + 2).descriptions != []
    requires Healthy(replies(at + 2).descriptions[0])
    ensures HealthRun(environmentName, replies, at)
            == Run(Success(replies(at + 2).descriptions[0]), Repeat(Describe(environmentName), 3))
  {
    var d := Describe(environmentName);
    var healthy := replies(at + 2).descriptions[0];
    var third := HealthPolls(environmentName, replies, at + 3, HEALTHY_TIMEOUT - 3 * POLL_INTERVAL, healthy);
    assert third == Run(Success(healthy), []);
    var second := HealthPolls(environmentName, replies, at + 2, HEALTHY_TIMEOUT - 2 * POLL_INTERVAL,
                              replies(at + 1).descriptions[0]);
    assert second == Preceded([d], third);
    var first := HealthPolls(environmentName, replies, at + 1, HEALTHY_TIMEOUT - POLL_INTERVAL,
                             replies(at).descriptions[0]);
    assert first == Preceded([d], second);
    assert HealthRun(environmentName, replies, at) == Preceded([d], first);
    RepeatSnoc(d, 0);
    RepeatSnoc(d, 1);
    RepeatSnoc(d, 2);
  }

  /**
   * An environment that is never healthy: the wait spends its whole budget,
   * 300 / 5 = 60 describe requests, and fails with "<name> is not healthy".
   */
  lemma NeverHealthyTimesOut(environmentName: string, replies: nat -> Response, at: nat)
    requires forall j :: DescribesUnhealthy(replies(j))
    ensures var run := HealthRun(environmentName, replies, at);
            && run == Run(Failure(NotHealthy(environmentName)), Repeat(Describe(environmentName), 60))
            && Message(run.result.error) == environmentName + " is not healthy"
  {
    var run := HealthRun(environmentName, replies, at);
    HealthRunShape(environmentName, replies, at);
    assert DescribesUnhealthy(replies(at + |run.commands| - 1));
    assert run.result == Failure(NotHealthy(environmentName));
  }

  /** Removing the one version in use from three listed ones leaves the other two, in order. */
  lemma OthersOfThree(inUse: string, b: string, c: string)
    requires inUse != b && inUse != c
    ensures Difference([inUse, b, c], [inUse]) == [b, c]
  {
    assert [inUse, b, c][1..] == [b, c];
    assert [b, c][1..] == [c];
    assert Difference([c], [inUse]) == [c] + Difference([], [inUse]) == [c];
    assert Difference([b, c], [inUse]) == [b] + Difference([c], [inUse]) == [b, c];
  }

  /** Two deletes that are both accepted: both go out, in order, and the loop succeeds. */
  lemma TwoDeletesAccepted(applicationName: string, b: string, c: string, replies: nat -> Response, at: nat)
    requires !replies(at).Rejected? && !replies(at + 1).Rejected?
    ensures DeleteRun(applicationName, [b, c], replies, at)
            == Run(Success(()), [DeleteVersion(applicationName, b), DeleteVersion(applicationName, c)])
  {
    assert [b, c][1..] == [c];
    assert [c][1..] == [];
    var last := DeleteRun(applicationName, [c], replies, at + 1);
    assert last == Preceded([DeleteVersion(applicationName, c)], DeleteRun(applicationName, [], replies, at + 2));
  }

  /**
   * Versions `inUse`, `b` and `c` are listed and one environment runs
   * `inUse`: `b` and `c` are deleted, in that order and with their source
   * bundles, and `inUse` is kept.
   */
  lemma CleanDeletesTheOthers(applicationName: string, inUse: string, b: string, c: string,
                              replies: nat -> Response, at: nat)
    requires inUse != b && inUse != c
    requires replies(at) == ApplicationVersions([inUse, b, c])
    requires replies(at + 1).Environments? && LabelsInUse(replies(at + 1).descriptions) == [inUse]
    requires !replies(at + 2).Rejected? && !replies(at + 3).Rejected?
    ensures CleanRun(applicationName, replies, at)
            == Run(Success(()), [DescribeApplicationVersions(applicationName, None),
                                 DescribeEnvironmentsOfApplication(applicationName),
                                 DeleteApplicationVersion(applicationName, b, true),
                                 DeleteApplicationVersion(applicationName, c, true)])
  {
    OthersOfThree(inUse, b, c);
    TwoDeletesAccepted(applicationName, b, c, replies, at + 2);
  }

  /** A name that is taken as a CNAME: only the DNS check goes out, and creation fails. */
  lemma CreateStopsWhenDnsTaken(applicationName: string, environmentName: string, versionLabel: string,
                                stack: string, config: seq<OptionSetting>, tags: Option<seq<Tag>>,
                                tier: Option<string>, replies: nat -> Response, at: nat)
    requires replies(at) == DnsAvailability(false)
    ensures var run := CreateRun(applicationName, environmentName, versionLabel, stack, config, tags, tier, replies, at);
            && run == Run(Failure(DnsNotAvailable(environmentName)), [CheckDnsAvailability(environmentName)])
            && Message(run.result.error) == "DNS " + environmentName + " is not available"
  {
  }
}
