/**
 * The application: the client configuration built from the user's
 * credentials, and `deploy`, which uploads the archive, then updates the
 * environment when it exists or creates it when it does not, waits for the
 * matching transitional status to pass, and finally waits for health.
 */
module Applications {
  import opened Service
  import opened Archives
  import opened Environments

  /** An access key pair. */
  datatype Keys = Keys(accessKeyId: string, secretAccessKey: string)

  /** The credentials object handed to the constructor: top-level keys, and optionally nested ones. */
  datatype Settings = Settings(region: string, keys: Keys, credentials: Option<Keys>)

  /** The configuration both SDK clients are built with. */
  datatype ClientConfig = ClientConfig(region: string, credentials: Keys)

  /**
   * The constructor's choice of credentials: the nested `credentials` when
   * present, otherwise the object's own keys; the region always comes from
   * the top level.
   */
  function ClientConfigFor(settings: Settings): (c: ClientConfig)
    ensures c.region == settings.region
    ensures settings.credentials.Some? ==> c.credentials == settings.credentials.value
    ensures settings.credentials.None? ==> c.credentials == settings.keys
  {
    ClientConfig(settings.region, settings.credentials.GetOr(settings.keys))
  }

  /** The arguments of `deploy`; an absent tier is "". */
  datatype DeployArgs = DeployArgs(
    archiveFilePath: string,
    environmentName: string,
    awsStackName: string,
    beanstalkConfig: seq<OptionSetting>,
    tags: Option<seq<Tag>>,
    tier: string)

  /** `args.tier || 'WebServer'`. */
  function TierOf(args: DeployArgs): (tier: string)
    ensures args.tier == "" ==> tier == "WebServer"
    ensures args.tier != "" ==> tier == args.tier
  {
    if args.tier == "" then "WebServer" else args.tier
  }

  /** `if (env)`: the environment exists when its status is present and not empty. */
  predicate Exists(status: Option<string>) {
    status.Some? && status.value != ""
  }

  /** The update request `deploy` sends for an existing environment. */
  function UpdateFor(p: ParsedName, args: DeployArgs): Command {
    UpdateEnvironment(UpdateConfigFor(p.versionLabel, args.environmentName, args.awsStackName, args.beanstalkConfig))
  }

  /**
   * The middle of `deploy`: update and wait while "Updating", or create and
   * wait while "Launching". The status the wait returns is not used; only
   * its failure stops the deployment.
   */
  function ChangeRun(p: ParsedName, args: DeployArgs, status: Option<string>, replies: nat -> Response, at: nat)
    : Run<Option<string>>
  {
    var name := args.environmentName;
    if Exists(status) then
      match Accepted(replies(at))
      case Failure(e) => Run(Failure(e), [UpdateFor(p, args)])
      case Success(_) => Preceded([UpdateFor(p, args)], WaitStatusRun("Updating", name, replies, at + 1))
    else
      var create := CreateRun(p.applicationName, name, p.versionLabel, args.awsStackName, args.beanstalkConfig,
                              args.tags, Some(TierOf(args)), replies, at);
      match create.result
      case Failure(e) => Run(Failure(e), create.commands)
      case Success(_) => Preceded(create.commands, WaitStatusRun("Launching", name, replies, After(at, create)))
  }

  /** What `deploy(args)` does once the archive is uploaded as `p`. */
  function RolloutRun(p: ParsedName, args: DeployArgs, replies: nat -> Response, at: nat): Run<EnvironmentDescription> {
    var name := args.environmentName;
    match StatusOf(replies(at))
    case Failure(e) => Run(Failure(e), [Describe(name)])
    case Success(status) =>
      var change := ChangeRun(p, args, status, replies, at + 1);
      match change.result
      case Failure(e) => Run(Failure(e), [Describe(name)] + change.commands)
      case Success(_) =>
        Preceded([Describe(name)] + change.commands, HealthRun(name, replies, After(at + 1, change)))
  }

  /** What `deploy(args)` does: upload, then roll out the parsed version. */
  function DeployRun(args: DeployArgs, replies: nat -> Response, at: nat): Run<EnvironmentDescription> {
    var upload := UploadRun(args.archiveFilePath, replies, at);
    match upload.result
    case Failure(e) => Run(Failure(e), upload.commands)
    case Success(p) => Preceded(upload.commands, RolloutRun(p, args, replies, After(at, upload)))
  }

  /** After a successful upload, `deploy` goes on as the rollout of the parsed version. */
  lemma DeployRunUploaded(args: DeployArgs, replies: nat -> Response, at: nat, upload: Run<ParsedName>, p: ParsedName)
    requires upload == UploadRun(args.archiveFilePath, replies, at) && upload.result == Success(p)
    ensures DeployRun(args, replies, at) == Preceded(upload.commands, RolloutRun(p, args, replies, After(at, upload)))
  {
  }

  /** The commands that act on or ask about an environment. */
  predicate EnvironmentCommand(c: Command) {
    c.DescribeEnvironmentByName? || c.CheckDnsAvailability? || c.CreateEnvironment? || c.UpdateEnvironment?
  }

  /** A failed upload ends `deploy` with the upload's error and commands. */
  lemma DeployRunFailed(args: DeployArgs, replies: nat -> Response, at: nat)
    requires UploadRun(args.archiveFilePath, replies, at).result.Failure?
    ensures DeployRun(args, replies, at)
            == Run(Failure(UploadRun(args.archiveFilePath, replies, at).result.error),
                   UploadRun(args.archiveFilePath, replies, at).commands)
  {
  }

  /** No archive command acts on or asks about an environment. */
  lemma ArchiveCommandsSpareEnvironments(cmds: seq<Command>)
    requires forall i :: 0 <= i < |cmds| ==> ArchiveCommand(cmds[i])
    ensures forall i :: 0 <= i < |cmds| ==> !EnvironmentCommand(cmds[i])
  {
  }

  /** A failed upload is the failure of `deploy`, and no environment command follows it. */
  lemma DeployStopsOnUploadFailure(args: DeployArgs, replies: nat -> Response, at: nat)
    requires UploadRun(args.archiveFilePath, replies, at).result.Failure?
    ensures var run := DeployRun(args, replies, at);
            && run.result == Failure(UploadRun(args.archiveFilePath, replies, at).result.error)
            && run.commands == UploadRun(args.archiveFilePath, replies, at).commands
            && forall i :: 0 <= i < |run.commands| ==> !EnvironmentCommand(run.commands[i])
  {
    DeployRunFailed(args, replies, at);
    UploadSendsArchiveCommands(args.archiveFilePath, replies, at);
    ArchiveCommandsSpareEnvironments(UploadRun(args.archiveFilePath, replies, at).commands);
  }

  /** The commands of a status wait are all describe requests. */
  lemma WaitStatusSendsDescribes(oldStatus: string, environmentName: string, replies: nat -> Response, at: nat)
    ensures var run := WaitStatusRun(oldStatus, environmentName, replies, at);
            forall i :: 0 <= i < |run.commands| ==> run.commands[i] == Describe(environmentName)
  {
    WaitStatusRunShape(oldStatus, environmentName, replies, at);
    RepeatAll(Describe(environmentName), |WaitStatusRun(oldStatus, environmentName, replies, at).commands|);
  }

  /** The commands of a health wait are all describe requests. */
  lemma HealthSendsDescribes(environmentName: string, replies: nat -> Response, at: nat)
    ensures var run := HealthRun(environmentName, replies, at);
            forall i :: 0 <= i < |run.commands| ==> run.commands[i] == Describe(environmentName)
  {
    HealthRunShape(environmentName, replies, at);
    RepeatAll(Describe(environmentName), |HealthRun(environmentName, replies, at).commands|);
  }

  /**
   * The rollout's commands: the status read, the change, then (when the
   * change succeeded) the describe requests of the health wait.
   */
  lemma RolloutCommands(p: ParsedName, args: DeployArgs, replies: nat -> Response, at: nat)
    requires StatusOf(replies(at)).Success?
    ensures var run := RolloutRun(p, args, replies, at);
            var change := ChangeRun(p, args, StatusOf(replies(at)).value, replies, at + 1);
            && |run.commands| >= 1 + |change.commands|
            && run.commands[0] == Describe(args.environmentName)
            && (forall i :: 0 <= i < |change.commands| ==> run.commands[1 + i] == change.commands[i])
            && (forall i :: 1 + |change.commands| <= i < |run.commands| ==>
                  run.commands[i] == Describe(args.environmentName))
  {
    var name := args.environmentName;
    var change := ChangeRun(p, args, StatusOf(replies(at)).value, replies, at + 1);
    var run := RolloutRun(p, args, replies, at);
    if change.result.Success? {
      var health := HealthRun(name, replies, After(at + 1, change));
      HealthSendsDescribes(name, replies, After(at + 1, change));
      assert run.commands == [Describe(name)] + change.commands + health.commands;
    } else {
      assert run.commands == [Describe(name)] + change.commands;
    }
  }

  /** The update branch of the change: the update request, then describe requests only. */
  lemma UpdateChangeCommands(p: ParsedName, args: DeployArgs, status: Option<string>, replies: nat -> Response, at: nat)
    requires Exists(status)
    ensures var change := ChangeRun(p, args, status, replies, at);
            && |change.commands| >= 1
            && change.commands[0] == UpdateFor(p, args)
            && forall i :: 1 <= i < |change.commands| ==> change.commands[i] == Describe(args.environmentName)
  {
    var name := args.environmentName;
    var change := ChangeRun(p, args, status, replies, at);
    if Accepted(replies(at)).Success? {
      var wait := WaitStatusRun("Updating", name, replies, at + 1);
      WaitStatusSendsDescribes("Updating", name, replies, at + 1);
      assert change.commands == [UpdateFor(p, args)] + wait.commands;
    }
  }

  /** The create branch of the change: the DNS check, the create request, then describe requests only. */
  lemma CreateChangeCommands(p: ParsedName, args: DeployArgs, status: Option<string>, replies: nat -> Response, at: nat)
    requires !Exists(status)
    ensures var change := ChangeRun(p, args, status, replies, at);
            && |change.commands| >= 1
            && change.commands[0] == CheckDnsAvailability(args.environmentName)
            && (|change.commands| > 1 ==>
                  change.commands[1] == CreateEnvironment(CreateOptionsFor(p.applicationName, args.environmentName,
                                                                           p.versionLabel, args.awsStackName,
                                                                           args.beanstalkConfig, args.tags,
                                                                           Some(TierOf(args)))))
            && forall i :: 2 <= i < |change.commands| ==> change.commands[i] == Describe(args.environmentName)
  {
    var name := args.environmentName;
    var change := ChangeRun(p, args, status, replies, at);
    var create := CreateRun(p.applicationName, name, p.versionLabel, args.awsStackName, args.beanstalkConfig,
                            args.tags, Some(TierOf(args)), replies, at);
    if create.result.Success? {
      var wait := WaitStatusRun("Launching", name, replies, After(at, create));
      WaitStatusSendsDescribes("Launching", name, replies, After(at, create));
      assert change.commands == create.commands + wait.commands;
    }
  }

  /**
   * The update branch waits on "Updating". A rejected update ends the change
   * with the rejection. After an accepted one, the change makes 1 to
   * 1 + 1200 / 5 status reads, every one but the last of which saw
   * "Updating", and returns what the last one read; "Updating" itself comes
   * back only once the whole budget is spent.
   */
  lemma UpdateWaitsWhileUpdating(p: ParsedName, args: DeployArgs, status: Option<string>,
                                 replies: nat -> Response, at: nat)
    requires Exists(status)
    ensures var change := ChangeRun(p, args, status, replies, at);
            && (replies(at).Rejected? ==>
                  change == Run(Failure(ServiceError(replies(at).reason)), [UpdateFor(p, args)]))
            && (!replies(at).Rejected? ==>
                  && 2 <= |change.commands| <= 2 + STATUS_CHANGE_TIMEOUT / POLL_INTERVAL
                  && (forall j :: at + 1 <= j < at + |change.commands| - 1 ==>
                                    StatusOf(replies(j)) == Success(Some("Updating")))
                  && change.result == StatusOf(LastReply(replies, at, change))
                  && (change.result == Success(Some("Updating")) ==>
                        |change.commands| == 2 + STATUS_CHANGE_TIMEOUT / POLL_INTERVAL))
  {
    if !replies(at).Rejected? {
      var change := ChangeRun(p, args, status, replies, at);
      var wait := WaitStatusRun("Updating", args.environmentName, replies, at + 1);
      WaitStatusRunShape("Updating", args.environmentName, replies, at + 1);
      assert change == Preceded([UpdateFor(p, args)], wait);
      SameReply(replies, at + |change.commands| - 1, at + 1 + |wait.commands| - 1);
    }
  }

  /**
   * The create branch waits on "Launching". A failed create ends the change
   * with its error and commands. After a successful one, the change makes 1
   * to 1 + 1200 / 5 status reads, every one but the last of which saw
   * "Launching", and returns what the last one read; "Launching" itself
   * comes back only once the whole budget is spent.
   */
  lemma CreateWaitsWhileLaunching(p: ParsedName, args: DeployArgs, status: Option<string>,
                                  replies: nat -> Response, at: nat)
    requires !Exists(status)
    ensures var create := CreateRun(p.applicationName, args.environmentName, p.versionLabel, args.awsStackName,
                                    args.beanstalkConfig, args.tags, Some(TierOf(args)), replies, at);
            var change := ChangeRun(p, args, status, replies, at);
            && (create.result.Failure? ==> change == Run(Failure(create.result.error), create.commands))
            && (create.result.Success? ==>
                  && 3 <= |change.commands| <= 3 + STATUS_CHANGE_TIMEOUT / POLL_INTERVAL
                  && (forall j :: at + 2 <= j < at + |change.commands| - 1 ==>
                                    StatusOf(replies(j)) == Success(Some("Launching")))
                  && change.result == StatusOf(LastReply(replies, at, change))
                  && (change.result == Success(Some("Launching")) ==>
                        |change.commands| == 3 + STATUS_CHANGE_TIMEOUT / POLL_INTERVAL))
  {
    var create := CreateRun(p.applicationName, args.environmentName, p.versionLabel, args.awsStackName,
                            args.beanstalkConfig, args.tags, Some(TierOf(args)), replies, at);
    if create.result.Success? {
      var change := ChangeRun(p, args, status, replies, at);
      var wait := WaitStatusRun("Launching", args.environmentName, replies, After(at, create));
      WaitStatusRunShape("Launching", args.environmentName, replies, After(at, create));
      assert |create.commands| == 2;
      assert change == Preceded(create.commands, wait);
      SameReply(replies, at + |change.commands| - 1, at + 2 + |wait.commands| - 1);
    }
  }

  /** A command sequence laid out as the rollout's: a describe, the change's commands, then describes. */
  predicate AroundChange(cmds: seq<Command>, change: seq<Command>, name: string) {
    && |cmds| >= 1 + |change|
    && cmds[0] == Describe(name)
    && (forall i :: 0 <= i < |change| ==> cmds[1 + i] == change[i])
    && (forall i :: 1 + |change| <= i < |cmds| ==> cmds[i] == Describe(name))
  }

  /** Around a change that never creates nor checks DNS, nothing creates nor checks DNS. */
  lemma NoCreateAround(cmds: seq<Command>, change: seq<Command>, name: string)
    requires AroundChange(cmds, change, name)
    requires forall i :: 0 <= i < |change| ==> !change[i].CreateEnvironment? && !change[i].CheckDnsAvailability?
    ensures forall i :: 0 <= i < |cmds| ==> !cmds[i].CreateEnvironment? && !cmds[i].CheckDnsAvailability?
  {
    forall i | 0 <= i < |cmds|
      ensures !cmds[i].CreateEnvironment? && !cmds[i].CheckDnsAvailability?
    {
      if 1 <= i <= |change| {
        assert cmds[i] == change[i - 1];
      }
    }
  }

  /** Around a change that never updates, nothing updates. */
  lemma NoUpdateAround(cmds: seq<Command>, change: seq<Command>, name: string)
    requires AroundChange(cmds, change, name)
    requires forall i :: 0 <= i < |change| ==> !change[i].UpdateEnvironment?
    ensures forall i :: 0 <= i < |cmds| ==> !cmds[i].UpdateEnvironment?
  {
    forall i | 0 <= i < |cmds|
      ensures !cmds[i].UpdateEnvironment?
    {
      if 1 <= i <= |change| {
        assert cmds[i] == change[i - 1];
      }
    }
  }

  /**
   * An existing environment is updated with the parsed version label, never
   * created: the update comes right after the status read, then the waits.
   */
  lemma ExistingEnvironmentIsUpdated(p: ParsedName, args: DeployArgs, replies: nat -> Response, at: nat)
    requires StatusOf(replies(at)).Success? && Exists(StatusOf(replies(at)).value)
    ensures var run := RolloutRun(p, args, replies, at);
            && |run.commands| >= 2
            && run.commands[0] == Describe(args.environmentName)
            && run.commands[1] == UpdateFor(p, args)
            && forall i :: 0 <= i < |run.commands| ==> !run.commands[i].CreateEnvironment?
                                                       && !run.commands[i].CheckDnsAvailability?
  {
    var change := ChangeRun(p, args, StatusOf(replies(at)).value, replies, at + 1);
    var run := RolloutRun(p, args, replies, at);
    RolloutCommands(p, args, replies, at);
    UpdateChangeCommands(p, args, StatusOf(replies(at)).value, replies, at + 1);
    assert run.commands[1] == change.commands[0];
    NoCreateAround(run.commands, change.commands, args.environmentName);
  }

  /**
   * A missing environment (no status, or an empty one) is created with the
   * parsed application name and version label and the tier (WebServer by
   * default), never updated.
   */
  lemma MissingEnvironmentIsCreated(p: ParsedName, args: DeployArgs, replies: nat -> Response, at: nat)
    requires StatusOf(replies(at)).Success? && !Exists(StatusOf(replies(at)).value)
    ensures var run := RolloutRun(p, args, replies, at);
            && |run.commands| >= 2
            && run.commands[0] == Describe(args.environmentName)
            && run.commands[1] == CheckDnsAvailability(args.environmentName)
            && (|run.commands| > 2 && run.commands[2].CreateEnvironment? ==>
                  run.commands[2].options == CreateOptionsFor(p.applicationName, args.environmentName, p.versionLabel,
                                                              args.awsStackName, args.beanstalkConfig, args.tags,
                                                              Some(TierOf(args))))
            && forall i :: 0 <= i < |run.commands| ==> !run.commands[i].UpdateEnvironment?
  {
    var change := ChangeRun(p, args, StatusOf(replies(at)).value, replies, at + 1);
    var run := RolloutRun(p, args, replies, at);
    RolloutCommands(p, args, replies, at);
    CreateChangeCommands(p, args, StatusOf(replies(at)).value, replies, at + 1);
    assert run.commands[1] == change.commands[0];
    if |change.commands| > 1 {
      assert run.commands[2] == change.commands[1];
    }
    NoUpdateAround(run.commands, change.commands, args.environmentName);
  }

  /** After the status read and a successful change, the rollout goes on as the health wait. */
  lemma RolloutRunChanged(p: ParsedName, args: DeployArgs, replies: nat -> Response, at: nat,
                          change: Run<Option<string>>)
    requires StatusOf(replies(at)).Success?
    requires change == ChangeRun(p, args, StatusOf(replies(at)).value, replies, at + 1) && change.result.Success?
    ensures RolloutRun(p, args, replies, at)
            == Preceded([Describe(args.environmentName)] + change.commands,
                        HealthRun(args.environmentName, replies, After(at + 1, change)))
  {
  }

  /**
   * A failed status read, or a failed change (a rejected update, an
   * unavailable name, a rejected create or a failed wait), ends the rollout
   * with that error, and nothing more is sent.
   */
  lemma RolloutStopsOnFailure(p: ParsedName, args: DeployArgs, replies: nat -> Response, at: nat)
    ensures var run := RolloutRun(p, args, replies, at);
            var name := args.environmentName;
            && (StatusOf(replies(at)).Failure? ==>
                  run == Run(Failure(StatusOf(replies(at)).error), [Describe(name)]))
            && (StatusOf(replies(at)).Success? ==>
                  var change := ChangeRun(p, args, StatusOf(replies(at)).value, replies, at + 1);
                  change.result.Failure? ==>
                    run == Run(Failure(change.result.error), [Describe(name)] + change.commands))
  {
  }

  /** After a successful upload, a failed status read ends `deploy` with its error, and nothing more is sent. */
  lemma DeployStopsOnStatusFailure(args: DeployArgs, replies: nat -> Response, at: nat,
                                   upload: Run<ParsedName>, p: ParsedName)
    requires upload == UploadRun(args.archiveFilePath, replies, at) && upload.result == Success(p)
    requires StatusOf(replies(After(at, upload))).Failure?
    ensures DeployRun(args, replies, at)
            == Run(Failure(StatusOf(replies(After(at, upload))).error), upload.commands + [Describe(args.environmentName)])
  {
    var k := After(at, upload);
    DeployRunUploaded(args, replies, at, upload, p);
    RolloutStopsOnFailure(p, args, replies, k);
    PrecededFailure(upload.commands, RolloutRun(p, args, replies, k), StatusOf(replies(k)).error,
                    [Describe(args.environmentName)]);
  }

  /**
   * After a successful upload and status read, a failed change ends `deploy`
   * with its error, and nothing is sent after the change's commands.
   */
  lemma DeployStopsOnChangeFailure(args: DeployArgs, replies: nat -> Response, at: nat,
                                   upload: Run<ParsedName>, p: ParsedName, change: Run<Option<string>>)
    requires upload == UploadRun(args.archiveFilePath, replies, at) && upload.result == Success(p)
    requires StatusOf(replies(After(at, upload))).Success?
    requires change == ChangeRun(p, args, StatusOf(replies(After(at, upload))).value, replies, After(at, upload) + 1)
    requires change.result.Failure?
    ensures DeployRun(args, replies, at)
            == Run(Failure(change.result.error), upload.commands + [Describe(args.environmentName)] + change.commands)
  {
    var k := After(at, upload);
    var name := args.environmentName;
    DeployRunUploaded(args, replies, at, upload, p);
    RolloutStopsOnFailure(p, args, replies, k);
    PrecededFailure(upload.commands, RolloutRun(p, args, replies, k), change.result.error,
                    [Describe(name)] + change.commands);
    SentThen(upload.commands, [Describe(name)], change.commands);
  }

  /** A failed run keeps its error when commands were sent before it. */
  lemma PrecededFailure<T>(done: seq<Command>, rest: Run<T>, e: Error, commands: seq<Command>)
    requires rest == Run(Failure(e), commands)
    ensures Preceded(done, rest) == Run(Failure(e), done + commands)
  {
  }

  /** The properties of a run that ends healthy survive commands sent before it. */
  lemma PrecededEndsHealthy(first: seq<Command>, rest: Run<EnvironmentDescription>, name: string,
                            replies: nat -> Response, at: nat, next: nat)
    requires next == at + |first|
    requires |rest.commands| >= 1 && LastCommand(rest) == Describe(name)
    requires rest.result.Success? && Healthy(rest.result.value)
    requires rest.result == HealthVerdict(name, LastReply(replies, next, rest))
    ensures var run := Preceded(first, rest);
            && |run.commands| >= 1
            && LastCommand(run) == Describe(name)
            && Healthy(run.result.value)
            && run.result == HealthVerdict(name, LastReply(replies, at, run))
  {
    var run := Preceded(first, rest);
    assert run.commands[|run.commands| - 1] == rest.commands[|rest.commands| - 1];
    SameReply(replies, at + |run.commands| - 1, next + |rest.commands| - 1);
  }

  /** A health wait that succeeds returns the Green/Ready description its last describe request read. */
  lemma HealthEndsHealthy(name: string, replies: nat -> Response, at: nat)
    requires HealthRun(name, replies, at).result.Success?
    ensures var run := HealthRun(name, replies, at);
            && |run.commands| >= 1
            && LastCommand(run) == Describe(name)
            && Healthy(run.result.value)
            && run.result == HealthVerdict(name, LastReply(replies, at, run))
  {
    HealthRunShape(name, replies, at);
    HealthSendsDescribes(name, replies, at);
  }

  /** A rollout that succeeds ends with the health wait and returns what it read. */
  lemma RolloutSucceedsHealthy(p: ParsedName, args: DeployArgs, replies: nat -> Response, at: nat)
    requires RolloutRun(p, args, replies, at).result.Success?
    ensures var run := RolloutRun(p, args, replies, at);
            && |run.commands| >= 1
            && LastCommand(run) == Describe(args.environmentName)
            && Healthy(run.result.value)
            && run.result == HealthVerdict(args.environmentName, LastReply(replies, at, run))
  {
    var name := args.environmentName;
    var change := ChangeRun(p, args, StatusOf(replies(at)).value, replies, at + 1);
    RolloutRunChanged(p, args, replies, at, change);
    var h := After(at + 1, change);
    var health := HealthRun(name, replies, h);
    HealthEndsHealthy(name, replies, h);
    PrecededEndsHealthy([Describe(name)] + change.commands, health, name, replies, at, h);
  }

  /** `deploy` fails whenever the upload does, so a successful deployment uploaded first. */
  lemma DeployUploaded(args: DeployArgs, replies: nat -> Response, at: nat)
    requires DeployRun(args, replies, at).result.Success?
    ensures UploadRun(args.archiveFilePath, replies, at).result.Success?
  {
  }

  /**
   * A deployment that succeeds ends with the health wait: it returns a
   * Green/Ready description, read from the reply to the last command, which
   * is a describe request for the environment.
   */
  lemma DeploySucceedsHealthy(args: DeployArgs, replies: nat -> Response, at: nat)
    requires DeployRun(args, replies, at).result.Success?
    ensures var run := DeployRun(args, replies, at);
            && |run.commands| >= 1
            && LastCommand(run) == Describe(args.environmentName)
            && Healthy(run.result.value)
            && run.result == HealthVerdict(args.environmentName, LastReply(replies, at, run))
  {
    DeployUploaded(args, replies, at);
    var upload := UploadRun(args.archiveFilePath, replies, at);
    var p := upload.result.value;
    DeployRunUploaded(args, replies, at, upload, p);
    var k := After(at, upload);
    RolloutSucceedsHealthy(p, args, replies, k);
    PrecededEndsHealthy(upload.commands, RolloutRun(p, args, replies, k), args.environmentName, replies, at, k);
  }

  /** The deployer: the service client and the archive and environment managers built over it. */
  class Application {
    const config: ClientConfig
    const client: Client
    const archive: Archive
    const environment: Environment

    /** Both managers share the one client, which is in a consistent state. */
    ghost predicate Valid()
      reads client
    {
      archive.client == client && environment.client == client && client.Valid()
    }

    /** Build the client configuration from the credentials and the managers over the client. */
    constructor (settings: Settings, client: Client)
      requires client.Valid()
      ensures Valid() && this.client == client
      ensures config == ClientConfigFor(settings)
      ensures fresh(archive) && fresh(environment)
    {
      config := ClientConfigFor(settings);
      this.client := client;
      archive := new Archive(client);
      environment := new Environment(client);
    }

    /** `deploy`: upload, update or create, wait for the transition, wait for health. */
    method Deploy(args: DeployArgs) returns (r: Result<EnvironmentDescription>)
      requires Valid()
      modifies client
      ensures Valid()
      ensures var run := DeployRun(args, client.replies, old(client.cursor));
              r == run.result && client.sent == old(client.sent) + run.commands
    {
      ghost var replies := client.replies;
      ghost var at := client.cursor;
      ghost var upload := UploadRun(args.archiveFilePath, replies, at);
      var uploaded := archive.Upload(args.archiveFilePath);
      if uploaded.Failure? {
        assert DeployRun(args, replies, at) == Run(Failure(uploaded.error), upload.commands);
        return Failure(uploaded.error);
      }
      DeployRunUploaded(args, replies, at, upload, uploaded.value);
      SentThen(old(client.sent), upload.commands, RolloutRun(uploaded.value, args, replies, After(at, upload)).commands);
      r := Rollout(uploaded.value, args, After(at, upload));
    }

    /** Steps 2 to 4 of `deploy`, once the archive is uploaded as `p`. */
    method Rollout(p: ParsedName, args: DeployArgs, ghost at: nat) returns (r: Result<EnvironmentDescription>)
      requires Valid() && at == client.cursor
      modifies client
      ensures Valid()
      ensures var run := RolloutRun(p, args, client.replies, at);
              r == run.result && client.sent == old(client.sent) + run.commands
    {
      ghost var spec := RolloutRun(p, args, client.replies, client.cursor);
      var name := args.environmentName;
      var status := environment.Status(name);
      if status.Failure? {
        return Failure(status.error);
      }
      ghost var change := ChangeRun(p, args, status.value, client.replies, client.cursor);
      var changed := Change(p, args, status.value);
      SentThen(old(client.sent), [Describe(name)], change.commands);
      if changed.Failure? {
        assert spec == Run(Failure(changed.error), [Describe(name)] + change.commands);
        return Failure(changed.error);
      }
      ghost var health := HealthRun(name, client.replies, client.cursor);
      assert spec == Preceded([Describe(name)] + change.commands, health);
      SentThen(old(client.sent), [Describe(name)] + change.commands, health.commands);
      r := environment.WaitUtilHealthy(name);
    }

    /** The create-or-update branch of `deploy`, with the wait for its transitional status. */
    method Change(p: ParsedName, args: DeployArgs, status: Option<string>) returns (r: Result<Option<string>>)
      requires Valid()
      modifies client
      ensures Valid()
      ensures var run := ChangeRun(p, args, status, client.replies, old(client.cursor));
              r == run.result && client.sent == old(client.sent) + run.commands
    {
      var name := args.environmentName;
      ghost var at := client.cursor;
      if Exists(status) {
        var updated := environment.Deploy(p.versionLabel, name, args.awsStackName, args.beanstalkConfig);
        if updated.Failure? {
          return Failure(updated.error);
        }
        assert client.cursor == at + 1;
        ghost var wait := WaitStatusRun("Updating", name, client.replies, at + 1);
        SentThen(old(client.sent), [UpdateFor(p, args)], wait.commands);
        r := environment.WaitUntilStatusIsNot("Updating", name);
      } else {
        ghost var create := CreateRun(p.applicationName, name, p.versionLabel, args.awsStackName,
                                      args.beanstalkConfig, args.tags, Some(TierOf(args)), client.replies, at);
        var created := environment.Create(p.applicationName, name, p.versionLabel, args.awsStackName,
                                          args.beanstalkConfig, args.tags, Some(TierOf(args)));
        if created.Failure? {
          return Failure(created.error);
        }
        assert client.cursor == After(at, create);
        ghost var wait := WaitStatusRun("Launching", name, client.replies, After(at, create));
        SentThen(old(client.sent), create.commands, wait.commands);
        r := environment.WaitUntilStatusIsNot("Launching", name);
      }
    }
  }
}
