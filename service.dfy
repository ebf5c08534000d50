/**
 * The managed deployment service and the object store, seen from the client.
 *
 * Both SDK clients (Elastic Beanstalk and S3) are replaced by one oracle:
 * a fixed function `replies` that gives the reply to the k-th command sent,
 * a cursor counting the commands sent so far, and a ghost trace of those
 * commands in the order they were sent. Nothing here models what the
 * service does with a command; only the shapes of requests and replies.
 */
module Service {

  datatype Option<+T> = None | Some(value: T) {
    function GetOr(default: T): T {
      match this
      case Some(v) => v
      case None => default
    }
  }

  /** The local error conditions of the deployer, and a rejected service call. */
  datatype Error =
    | InvalidFileName                       // the archive name has no '-'
    | ServiceError(reason: string)          // the service rejected the command
    | MalformedReply                        // the reply lacks the field that is read
    | DnsNotAvailable(environmentName: string)
    | HealthCheckFailed(environmentName: string)
    | NotHealthy(environmentName: string)

  datatype Result<+T> = Success(value: T) | Failure(error: Error)

  /** The text each local error is thrown with. */
  function Message(e: Error): string {
    match e
    case InvalidFileName =>
      "Please make sure file name includes application name and version label separated by '-'. e.g. tech-website-1d595d3"
    case ServiceError(reason) => reason
    case MalformedReply => "malformed reply"
    case DnsNotAvailable(name) => "DNS " + name + " is not available"
    case HealthCheckFailed(name) =>
      "Failed to heath check environment: " + name + ". Maybe the environment is terminated."
    case NotHealthy(name) => name + " is not healthy"
  }

  datatype OptionSetting = OptionSetting(namespace: string, optionName: string, value: string)
  datatype Tag = Tag(key: string, value: string)
  datatype EnvironmentTier = EnvironmentTier(name: string, tierType: string)

  /** The input of a create-environment request. */
  datatype CreateOptions = CreateOptions(
    applicationName: string,
    versionLabel: string,
    environmentName: string,
    solutionStackName: string,
    optionSettings: seq<OptionSetting>,
    cnamePrefix: Option<string>,
    tags: seq<Tag>,
    tier: EnvironmentTier)

  /** The input of an update-environment request. */
  datatype UpdateConfig = UpdateConfig(
    versionLabel: string,
    environmentName: string,
    optionSettings: seq<OptionSetting>,
    solutionStackName: Option<string>)

  /** One described environment; a field the service leaves out is "". */
  datatype EnvironmentDescription = EnvironmentDescription(
    status: string,
    health: string,
    versionLabel: string)

  /** Every command the deployer sends. Describe requests never include deleted environments. */
  datatype Command =
    | DescribeApplicationVersions(applicationName: string, versionLabels: Option<seq<string>>)
    | CreateStorageLocation
    | PutObject(bucket: string, key: string, bodyFile: string)
    | CreateApplicationVersion(applicationName: string, versionLabel: string,
                               s3Bucket: string, s3Key: string, autoCreateApplication: bool)
    | DescribeEnvironmentByName(environmentName: string)
    | DescribeEnvironmentsOfApplication(applicationName: string)
    | CheckDnsAvailability(cnamePrefix: string)
    | CreateEnvironment(options: CreateOptions)
    | UpdateEnvironment(config: UpdateConfig)
    | DeleteApplicationVersion(applicationName: string, versionLabel: string, deleteSourceBundle: bool)

  /** A reply: a rejection, or a successful reply of one of the shapes the deployer reads. */
  datatype Response =
    | Rejected(reason: string)
    | ApplicationVersions(labels: seq<string>)
    | StorageLocation(s3Bucket: string)
    | Environments(descriptions: seq<EnvironmentDescription>)
    | DnsAvailability(available: bool)
    | Acknowledged

  /** The outcome of a sequence of service calls, with the commands it sent. */
  datatype Run<+T> = Run(result: Result<T>, commands: seq<Command>)

  /** The position of the first reply after `run`, when its commands were sent from `at` on. */
  function After<T>(at: nat, run: Run<T>): nat
  {
    at + |run.commands|
  }

  /** The last command of `run`. */
  function LastCommand<T>(run: Run<T>): Command
    requires |run.commands| >= 1
  {
    run.commands[|run.commands| - 1]
  }

  /** The reply to the last command of `run`, when its commands were sent from `at` on. */
  function LastReply<T>(replies: nat -> Response, at: nat, run: Run<T>): Response
    requires |run.commands| >= 1
  {
    replies(at + |run.commands| - 1)
  }

  /**
   * The same position gets the same reply, however the position is written.
   * A proof step only: it points the solver at the arithmetic that equates two positions.
   */
  lemma SameReply(replies: nat -> Response, i: nat, j: nat)
    requires i == j
    ensures replies(i) == replies(j)
  {
  }

  /** A rejected reply becomes the error it carries; any other reply is passed on. */
  function Accepted(r: Response): (res: Result<Response>)
    ensures res.Failure? <==> r.Rejected?
    ensures res.Success? ==> res.value == r
    ensures r.Rejected? ==> res == Failure(ServiceError(r.reason))
  {
    if r.Rejected? then Failure(ServiceError(r.reason)) else Success(r)
  }

  /** `data.ApplicationVersions` mapped to version labels. */
  function VersionLabelsOf(r: Response): (res: Result<seq<string>>)
    ensures res.Success? <==> r.ApplicationVersions?
    ensures res.Success? ==> res.value == r.labels
    ensures r.Rejected? ==> res == Failure(ServiceError(r.reason))
  {
    match r
    case Rejected(reason) => Failure(ServiceError(reason))
    case ApplicationVersions(labels) => Success(labels)
    case _ => Failure(MalformedReply)
  }

  /** `data.Environments`. */
  function EnvironmentsOf(r: Response): (res: Result<seq<EnvironmentDescription>>)
    ensures res.Success? <==> r.Environments?
    ensures res.Success? ==> res.value == r.descriptions
    ensures r.Rejected? ==> res == Failure(ServiceError(r.reason))
  {
    match r
    case Rejected(reason) => Failure(ServiceError(reason))
    case Environments(ds) => Success(ds)
    case _ => Failure(MalformedReply)
  }

  /** The first described environment, if any: `data.Environments.shift()`. */
  function FirstEnvironmentOf(r: Response): (res: Result<Option<EnvironmentDescription>>)
    ensures res.Success? <==> r.Environments?
    ensures res.Success? ==> (res.value.None? <==> r.descriptions == [])
    ensures res.Success? && res.value.Some? ==> res.value.value == r.descriptions[0]
    ensures r.Rejected? ==> res == Failure(ServiceError(r.reason))
  {
    match EnvironmentsOf(r)
    case Failure(e) => Failure(e)
    case Success(ds) => Success(if ds == [] then None else Some(ds[0]))
  }

  /** `S3Bucket` of a create-storage-location reply. */
  function BucketOf(r: Response): (res: Result<string>)
    ensures res.Success? <==> r.StorageLocation?
    ensures res.Success? ==> res.value == r.s3Bucket
    ensures r.Rejected? ==> res == Failure(ServiceError(r.reason))
  {
    match r
    case Rejected(reason) => Failure(ServiceError(reason))
    case StorageLocation(bucket) => Success(bucket)
    case _ => Failure(MalformedReply)
  }

  /** `response.Available`; a reply without that field reads as false. */
  function AvailableOf(r: Response): (res: Result<bool>)
    ensures res.Failure? <==> r.Rejected?
    ensures r.Rejected? ==> res == Failure(ServiceError(r.reason))
    ensures res == Success(true) <==> r == DnsAvailability(true)
  {
    match r
    case Rejected(reason) => Failure(ServiceError(reason))
    case DnsAvailability(available) => Success(available)
    case _ => Success(false)
  }

  /** `n` copies of one command. */
  function Repeat(c: Command, n: nat): (cs: seq<Command>)
    ensures |cs| == n
  {
    if n == 0 then [] else [c] + Repeat(c, n - 1)
  }

  /** One more copy can be added at either end. */
  lemma {:induction false} RepeatSnoc(c: Command, n: nat)
    ensures Repeat(c, n) + [c] == [c] + Repeat(c, n) == Repeat(c, n + 1)
  {
    if n > 0 {
      RepeatSnoc(c, n - 1);
      assert Repeat(c, n) + [c] == [c] + (Repeat(c, n - 1) + [c]);
    }
  }

  /** Every element of `Repeat(c, n)` is `c`. */
  lemma {:induction false} RepeatAll(c: Command, n: nat)
    ensures forall i :: 0 <= i < n ==> Repeat(c, n)[i] == c
  {
    if n > 0 {
      RepeatAll(c, n - 1);
      assert forall i :: 1 <= i < n ==> Repeat(c, n)[i] == Repeat(c, n - 1)[i - 1];
    }
  }

  /**
   * Commands sent after a trace, then the rest: the same trace, whichever way it is grouped.
   * A proof step only: loop invariants use it to regroup the trace.
   */
  lemma SentThen(sent: seq<Command>, done: seq<Command>, rest: seq<Command>)
    ensures sent + done + rest == sent + (done + rest)
  {
  }

  /**
   * The two SDK clients as one oracle. `replies(k)` is what the k-th command
   * sent gets back; `sent` is the trace of the commands sent so far.
   */
  class Client {
    const replies: nat -> Response
    var cursor: nat
    ghost var sent: seq<Command>

    /** One reply is consumed per command sent. */
    ghost predicate Valid()
      reads this
    {
      |sent| == cursor
    }

    constructor (replies: nat -> Response)
      ensures Valid() && this.replies == replies
      ensures cursor == 0 && sent == []
    {
      this.replies := replies;
      cursor := 0;
      sent := [];
    }

    /** `send(command)`: record the command and hand back the next reply. */
    method Send(c: Command) returns (r: Response)
      requires Valid()
      modifies this
      ensures Valid()
      ensures r == replies(old(cursor))
      ensures sent == old(sent) + [c]
    {
      r := replies(cursor);
      cursor := cursor + 1;
      sent := sent + [c];
    }
  }
}
