/**
 * The archive: parsing the artifact's file name into application name and
 * version label, and uploading it as a new application version unless that
 * version is already registered.
 */
module Archives {
  import opened Service
  import opened Paths

  /** What `parse` returns: the file's base name and the two halves of its stem. */
  datatype ParsedName = ParsedName(archiveName: string, versionLabel: string, applicationName: string)

  /**
   * `parse`: the stem of the base name, split at '-'; the last piece is the
   * version label, the others joined with '-' are the application name.
   * The result is exactly "the stem cut at its last '-'".
   */
  function Parse(filePath: string): (r: Result<ParsedName>)
    ensures r.Failure? <==> '-' !in Stem(filePath)
    ensures r.Failure? ==> r.error == InvalidFileName
    ensures r.Success? ==> r.value.archiveName == BaseName(filePath) && '/' !in r.value.archiveName
    ensures r.Success? ==> r.value.applicationName + "-" + r.value.versionLabel == Stem(filePath)
    ensures r.Success? ==> '-' !in r.value.versionLabel
  {
    var pieces := Split(Stem(filePath), '-');
    if |pieces| <= 1 then Failure(InvalidFileName)
    else
      SplitJoin(Stem(filePath), '-');
      JoinSnoc(pieces, '-');
      Success(ParsedName(BaseName(filePath), pieces[|pieces| - 1], Join(pieces[..|pieces| - 1], '-')))
  }

  /**
   * `parse` cuts the stem at its last '-': the application name is what
   * comes before it (keeping every other '-'), the version label what follows.
   */
  lemma ParseCutsAtLastDash(filePath: string)
    ensures var s := Stem(filePath);
            match LastIndexOf(s, '-')
            case None => Parse(filePath) == Failure(InvalidFileName)
            case Some(i) => Parse(filePath) == Success(ParsedName(BaseName(filePath), s[i + 1..], s[..i]))
  {
    if Parse(filePath).Success? {
      var r := Parse(filePath).value;
      CutAtLast(Stem(filePath), '-', r.applicationName, r.versionLabel);
    }
  }

  /** The base name and stem of the file name the archive tests parse. */
  lemma StemExample(p: string)
    requires p == "/foo/bar/app-name-version.zip"
    ensures BaseName(p) == "app-name-version.zip" && Stem(p) == "app-name-version"
  {
    ExampleBaseName(p);
    ExampleStem(p);
  }

  lemma ExampleBaseName(p: string)
    requires p == "/foo/bar/app-name-version.zip"
    ensures BaseName(p) == "app-name-version.zip"
  {
    BaseNameAfter(p, 8);
  }

  lemma ExampleStem(p: string)
    requires BaseName(p) == "app-name-version.zip"
    ensures Stem(p) == "app-name-version"
  {
    StemBefore(BaseName(p), p, 16);
  }

  /** A path whose last '/' is at `i` has base name `p[i + 1..]`. */
  lemma BaseNameAfter(p: string, i: nat)
    requires i < |p| && p[i] == '/' && '/' !in p[i + 1..]
    ensures BaseName(p) == p[i + 1..]
  {
    LastIndexOfAt(p, '/', i);
  }

  /** A base name whose last '.' is at `i > 0` has stem `b[..i]`. */
  lemma StemBefore(b: string, p: string, i: nat)
    requires b == BaseName(p) && 0 < i < |b| && b[i] == '.' && '.' !in b[i + 1..]
    ensures Stem(p) == b[..i]
  {
    LastIndexOfAt(b, '.', i);
    assert ExtName(p) == b[i..];
  }

  /** That file name parses into `app-name` and `version`. */
  lemma ParseExample(p: string)
    requires p == "/foo/bar/app-name-version.zip"
    ensures Parse(p) == Success(ParsedName("app-name-version.zip", "version", "app-name"))
  {
    StemExample(p);
    CutAtStem(p);
  }

  lemma CutAtStem(p: string)
    requires Stem(p) == "app-name-version"
    ensures Parse(p) == Success(ParsedName(BaseName(p), "version", "app-name"))
  {
    LastDashOfExample(Stem(p));
    ParseCutsAtLastDash(p);
  }

  lemma LastDashOfExample(s: string)
    requires s == "app-name-version"
    ensures LastIndexOf(s, '-') == Some(8) && s[9..] == "version" && s[..8] == "app-name"
  {
    assert s[9..] == "version";
    LastIndexOfAt(s, '-', 8);
  }

  /** A file name whose stem has no '-' is refused. */
  lemma ParseRejectsExample(p: string)
    requires p == "/foo/bar/foo.zip"
    ensures Parse(p) == Failure(InvalidFileName)
  {
    RejectedBaseName(p);
    RejectedStem(p);
  }

  lemma RejectedBaseName(p: string)
    requires p == "/foo/bar/foo.zip"
    ensures BaseName(p) == "foo.zip"
  {
    BaseNameAfter(p, 8);
  }

  lemma RejectedStem(p: string)
    requires BaseName(p) == "foo.zip"
    ensures Stem(p) == "foo"
  {
    StemBefore(BaseName(p), p, 3);
  }

  /** How `alreadyUploaded` reads the describe-versions reply: is any version listed? */
  function VersionExists(reply: Response): (r: Result<bool>)
    ensures r.Success? <==> reply.ApplicationVersions?
    ensures r == Success(true) <==> reply.ApplicationVersions? && |reply.labels| > 0
    ensures reply.Rejected? ==> r == Failure(ServiceError(reply.reason))
  {
    match VersionLabelsOf(reply)
    case Failure(e) => Failure(e)
    case Success(labels) => Success(|labels| > 0)
  }

  /** The describe request `alreadyUploaded` sends for one version of one application. */
  function DescribeVersion(p: ParsedName): Command {
    DescribeApplicationVersions(p.applicationName, Some([p.versionLabel]))
  }

  /** The create-version request that registers the uploaded object. */
  function RegisterVersion(p: ParsedName, bucket: string): Command {
    CreateApplicationVersion(p.applicationName, p.versionLabel, bucket, p.archiveName, true)
  }

  /**
   * What `upload` does once the file name has parsed into `p`, when the k-th
   * command sent from `at` on is answered by `replies(at + k)`.
   */
  function UploadParsed(p: ParsedName, filePath: string, replies: nat -> Response, at: nat): (run: Run<ParsedName>)
    ensures 1 <= |run.commands| <= 4 && run.commands[0] == DescribeVersion(p)
    // a success returns the parsed name
    ensures run.result.Success? ==> run.result.value == p
    // a version that exists is not uploaded again
    ensures VersionExists(replies(at)) == Success(true) ==> run == Run(Success(p), [DescribeVersion(p)])
    // storage location, put, create version: only when the version is absent, in this order,
    // with the bucket of the storage location and the archive name as key
    ensures |run.commands| > 1 ==>
              VersionExists(replies(at)) == Success(false) && run.commands[1] == CreateStorageLocation
    ensures |run.commands| > 2 ==>
              (replies(at + 1).StorageLocation? &&
               run.commands[2] == PutObject(replies(at + 1).s3Bucket, p.archiveName, filePath))
    ensures |run.commands| > 3 ==> run.commands[3] == RegisterVersion(p, replies(at + 1).s3Bucket)
    // an upload that goes ahead succeeds exactly when all four commands are accepted
    ensures VersionExists(replies(at)) == Success(false) ==>
              (run.result.Success? <==> |run.commands| == 4 && replies(at + 1).StorageLocation? &&
                                        !replies(at + 2).Rejected? && !replies(at + 3).Rejected?)
    // a missing version goes on to the storage location, a bucket read goes on to the put,
    // and an accepted put goes on to the registration
    ensures VersionExists(replies(at)) == Success(false) ==> |run.commands| >= 2
    ensures |run.commands| >= 2 && replies(at + 1).StorageLocation? ==> |run.commands| >= 3
    ensures |run.commands| >= 3 && !replies(at + 2).Rejected? ==> |run.commands| == 4
    // a rejected put stops the upload before the registration
    ensures |run.commands| == 4 ==> !replies(at + 2).Rejected?
    // a describe that fails ends the upload with its error
    ensures VersionExists(replies(at)).Failure? ==>
              run == Run(Failure(VersionExists(replies(at)).error), [DescribeVersion(p)])
    // every failure is the error of the last reply: its rejection, or a reply without the field read
    ensures run.result.Failure? ==>
              var last := replies(at + |run.commands| - 1);
              run.result.error == if last.Rejected? then ServiceError(last.reason) else MalformedReply
  {
    var describe := DescribeVersion(p);
    match VersionExists(replies(at))
    case Failure(e) => Run(Failure(e), [describe])
    case Success(present) =>
      if present then Run(Success(p), [describe])
      else
        match BucketOf(replies(at + 1))
        case Failure(e) => Run(Failure(e), [describe, CreateStorageLocation])
        case Success(bucket) =>
          var put := PutObject(bucket, p.archiveName, filePath);
          match Accepted(replies(at + 2))
          case Failure(e) => Run(Failure(e), [describe, CreateStorageLocation, put])
          case Success(_) =>
            var all := [describe, CreateStorageLocation, put, RegisterVersion(p, bucket)];
            match Accepted(replies(at + 3))
            case Failure(e) => Run(Failure(e), all)
            case Success(_) => Run(Success(p), all)
  }

  /** What `upload(filePath)` does: parse the name, then go on as `UploadParsed`. */
  function UploadRun(filePath: string, replies: nat -> Response, at: nat): (run: Run<ParsedName>)
    // an invalid file name fails before any command is sent
    ensures Parse(filePath).Failure? ==> run == Run(Failure(InvalidFileName), [])
    // a success returns what parse returned
    ensures run.result.Success? ==> run.result == Parse(filePath)
  {
    match Parse(filePath)
    case Failure(e) => Run(Failure(e), [])
    case Success(p) => UploadParsed(p, filePath, replies, at)
  }

  /** The commands the archive sends: version lookups, storage, objects and version registration. */
  predicate ArchiveCommand(c: Command) {
    c.DescribeApplicationVersions? || c.CreateStorageLocation? || c.PutObject? || c.CreateApplicationVersion?
  }

  /** `upload` sends archive commands only. */
  lemma UploadSendsArchiveCommands(filePath: string, replies: nat -> Response, at: nat)
    ensures var run := UploadRun(filePath, replies, at);
            forall i :: 0 <= i < |run.commands| ==> ArchiveCommand(run.commands[i])
  {
    var run := UploadRun(filePath, replies, at);
    if Parse(filePath).Success? {
      var p := Parse(filePath).value;
      assert run == UploadParsed(p, filePath, replies, at);
      forall i | 0 <= i < |run.commands|
        ensures ArchiveCommand(run.commands[i])
      {
        assert i == 0 || i == 1 || i == 2 || i == 3;
      }
    }
  }

  /** The archive uploader, over the service client. */
  class Archive {
    const client: Client

    constructor (client: Client)
      ensures this.client == client
    {
      this.client := client;
    }

    /** `alreadyUploaded`: ask for the version and report whether it is listed. */
    method AlreadyUploaded(applicationName: string, versionLabel: string) returns (r: Result<bool>)
      requires client.Valid()
      modifies client
      ensures client.Valid()
      ensures client.sent == old(client.sent) + [DescribeApplicationVersions(applicationName, Some([versionLabel]))]
      ensures r == VersionExists(client.replies(old(client.cursor)))
    {
      var reply := client.Send(DescribeApplicationVersions(applicationName, Some([versionLabel])));
      r := VersionExists(reply);
    }

    /** `createStorageLocation`, read for its `S3Bucket`. */
    method CreateStorageLocation() returns (r: Result<string>)
      requires client.Valid()
      modifies client
      ensures client.Valid()
      ensures client.sent == old(client.sent) + [Command.CreateStorageLocation]
      ensures r == BucketOf(client.replies(old(client.cursor)))
    {
      var reply := client.Send(Command.CreateStorageLocation);
      r := BucketOf(reply);
    }

    /** `uploadToS3`: put the archive file under its name; the body is the file, left opaque. */
    method UploadToS3(bucket: string, archiveName: string, filePath: string) returns (r: Result<Response>)
      requires client.Valid()
      modifies client
      ensures client.Valid()
      ensures client.sent == old(client.sent) + [PutObject(bucket, archiveName, filePath)]
      ensures r == Accepted(client.replies(old(client.cursor)))
    {
      var reply := client.Send(PutObject(bucket, archiveName, filePath));
      r := Accepted(reply);
    }

    /** `makeApplicationVersionAvailableToBeanstalk`: register the object as a version. */
    method MakeApplicationVersionAvailable(applicationName: string, versionLabel: string,
                                           archiveName: string, bucket: string)
      returns (r: Result<Response>)
      requires client.Valid()
      modifies client
      ensures client.Valid()
      ensures client.sent == old(client.sent) +
                [CreateApplicationVersion(applicationName, versionLabel, bucket, archiveName, true)]
      ensures r == Accepted(client.replies(old(client.cursor)))
    {
      var reply := client.Send(CreateApplicationVersion(applicationName, versionLabel, bucket, archiveName, true));
      r := Accepted(reply);
    }

    /** `upload`: parse, then upload and register unless the version exists. */
    method Upload(filePath: string) returns (r: Result<ParsedName>)
      requires client.Valid()
      modifies client
      ensures client.Valid()
      ensures var run := UploadRun(filePath, client.replies, old(client.cursor));
              r == run.result && client.sent == old(client.sent) + run.commands
    {
      var parsed := Parse(filePath);
      if parsed.Failure? {
        return Failure(parsed.error);
      }
      r := UploadVersion(parsed.value, filePath);
    }

    /** Steps 2 to 6 of `upload`, for a file name that has parsed into `p`. */
    method UploadVersion(p: ParsedName, filePath: string) returns (r: Result<ParsedName>)
      requires client.Valid()
      modifies client
      ensures client.Valid()
      ensures var run := UploadParsed(p, filePath, client.replies, old(client.cursor));
              r == run.result && client.sent == old(client.sent) + run.commands
    {
      ghost var at := client.cursor;
      ghost var before := client.sent;
      var present := AlreadyUploaded(p.applicationName, p.versionLabel);
      if present.Failure? {
        return Failure(present.error);
      }
      if present.value {
        return Success(p);
      }
      var bucket := CreateStorageLocation();
      if bucket.Failure? {
        return Failure(bucket.error);
      }
      var put := UploadToS3(bucket.value, p.archiveName, filePath);
      if put.Failure? {
        return Failure(put.error);
      }
      var made := MakeApplicationVersionAvailable(p.applicationName, p.versionLabel, p.archiveName, bucket.value);
      assert client.sent == before + [DescribeVersion(p), Command.CreateStorageLocation,
                                      PutObject(bucket.value, p.archiveName, filePath),
                                      RegisterVersion(p, bucket.value)];
      if made.Failure? {
        return Failure(made.error);
      }
      r := Success(p);
    }
  }
}
