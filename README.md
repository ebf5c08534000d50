# beanstalkify, modelled in Dafny

beanstalkify deploys a zipped application to AWS Elastic Beanstalk. It does
this in four steps:

1. It parses the archive's file name into an application name and a version
   label.
2. It uploads the archive to S3 and registers it as an application version,
   unless that version already exists.
3. It updates the environment if it exists, or creates it if it does not.
4. It waits for the transitional status ("Updating" or "Launching") to pass,
   then waits for the environment to become healthy (Green and Ready).

It can also delete the application versions that no environment runs.

This project models that decision layer: the `Archive`, `Environment` and
`Application` classes.

The two SDK clients are replaced by one oracle, `Service.Client`:

- `replies(k)` is the reply to the k-th command sent.
- `cursor` counts the commands sent so far.
- `sent` is a ghost trace of those commands, in the order they were sent.

Every operation that talks to the service is a **method** of its class,
which sends commands through the client. Each method's postcondition ties it
to a pure function:

- A method that sends one command and reads its reply (`Status`,
  `CheckDnsAvailability`, `DescribeEnvironment`, `AlreadyUploaded`, ...)
  returns a reader function of that reply (`StatusOf`, `AvailableOf`,
  `FirstEnvironmentOf`, `VersionExists`, ...). Its trace grows by exactly
  that command.
- A method that sends several commands (`Upload`, `Create`, the two waits,
  `CleanApplicationVersions`, `Application.Deploy`, ...) has a function returning
  `Run(result, commands)`: what the operation returns and which commands it
  sends, given the replies from position `at` on. The method's result is
  the run's result, and the trace grew by exactly the run's commands.

The properties of each operation are proved about its function.

Files:

- `service.dfy` — module `Service`: the commands, replies and errors, the
  readers of reply fields, and the client oracle.
- `paths.dfy` — module `Paths`: `path.basename`, `path.extname`, `split` and
  `join`, on POSIX paths.
- `archives.dfy` — module `Archives`: `src/archive.ts`.
- `environments.dfy` — module `Environments`: `src/environment.ts`.
- `applications.dfy` — module `Applications`: `src/application.ts`.
- `scenarios.dfy` — module `Scenarios`: the scenarios of the unit tests,
  proved for all names and replies of the same shape.

## Model

| member | source | states |
|---|---|---|
| Service.Client.Send | src/environment.ts:34-36 | `send` hands back the reply at the current position and appends the command to the trace; one reply is used up per command |
| Service.Message | src/archive.ts:113-116 | the texts of the local errors: the invalid-file-name text here, and the texts thrown at src/environment.ts:66, 155-157 and 168. It has no contract; `Scenarios.NeverHealthyTimesOut` and `Scenarios.CreateStopsWhenDnsTaken` state the texts a run fails with |
| Service.Accepted | src/environment.ts:117-118 | an awaited `send` whose reply is not read: a rejection becomes `ServiceError` of its reason, and any other reply is accepted as it is |
| Service.VersionLabelsOf | src/environment.ts:224-227 | the read succeeds exactly when the reply is a version listing, and then gives that listing's labels; a rejection is the error |
| Service.EnvironmentsOf | src/environment.ts:233-238 | the read succeeds exactly when the reply is an environment listing, and then gives its descriptions; a rejection is the error |
| Service.FirstEnvironmentOf | src/environment.ts:28-37 | `Environments.shift()`: none exactly when the list is empty, otherwise the first description; a rejection is the error |
| Service.BucketOf | src/archive.ts:144 | the read succeeds exactly when the reply is a storage location, and then gives its `S3Bucket`; a rejection is the error |
| Service.AvailableOf | src/environment.ts:180-189 | `Available` is true exactly for a reply that says so; a reply without the field reads as false; a rejection is the error |
| Paths.BaseName | src/archive.ts:111 | the base name is the `/`-free suffix of the path that follows its last `/` |
| Paths.Extension | src/archive.ts:112 | the extension is empty, or a suffix that starts with its only `.` and is shorter than the base name |
| Paths.Stem | src/archive.ts:112 | the stem followed by the extension is the base name |
| Paths.ExtName | src/archive.ts:112 | `path.extname` of the whole path; it has no contract of its own, and `Paths.Extension` and `Paths.Stem` carry its properties |
| Paths.Split | src/archive.ts:112 | split gives at least one piece, more than one exactly when the separator occurs, and no piece contains it |
| Paths.SplitJoin | src/archive.ts:112-119 | joining the pieces of a split with the same separator gives back the string |
| Paths.Join | src/archive.ts:119 | `join('-')`; it has no contract of its own, and `Paths.SplitJoin` and `Paths.JoinSnoc` carry its properties |
| Paths.JoinSnoc | src/archive.ts:118-119 | joining all pieces is joining all but the last, then the separator, then the last |
| Archives.Parse | src/archive.ts:110-122 | fails (invalid file name) exactly when the stem has no `-`; otherwise the archive name is the base name, `applicationName + "-" + versionLabel` is the stem, and the label has no `-` |
| Archives.ParseCutsAtLastDash | src/archive.ts:112-119 | parse cuts the stem at its last `-`: the name is everything before it, interior dashes included, and the label everything after it |
| Archives.ParseExample | test/archive.spec.ts:46-49 | `/foo/bar/app-name-version.zip` parses into `app-name-version.zip`, `version`, `app-name` |
| Archives.ParseRejectsExample | test/archive.spec.ts:57-63 | `/foo/bar/foo.zip` is refused |
| Archives.VersionExists | src/archive.ts:30-39 | `alreadyUploaded` is true exactly when the listing names at least one version; a rejection is the error |
| Archives.DescribeVersion | src/archive.ts:31-34 | the describe request for one version of one application; a command builder with no contract, used in the contracts of `Archives.UploadParsed` and `Archives.Archive.AlreadyUploaded` |
| Archives.RegisterVersion | src/archive.ts:90-98 | the create-version request with the bucket and archive name as source bundle and auto-create on; a command builder with no contract, used in the contracts of `Archives.UploadParsed` and `Archives.Archive.MakeApplicationVersionAvailable` |
| Archives.UploadParsed | src/archive.ts:133-154 | describes the version first. An existing version sends nothing more and returns the parsed name. Otherwise it goes on to the storage location. Once the bucket is read, it goes on to the put-object (that bucket, the archive name as key). Once the put is accepted, it goes on to the create-version, and a rejected put stops the upload before it. These go out in that order. It succeeds exactly when all four commands are accepted. A failed describe ends the upload with its error. Every failure is the last reply's rejection, or `MalformedReply` when that reply lacks the field read |
| Archives.UploadRun | src/archive.ts:129-155 | an invalid file name fails before any command is sent; a success returns what parse returned |
| Archives.UploadSendsArchiveCommands | src/archive.ts:129-155 | `upload` sends only version, storage, object and registration commands |
| Archives.Archive.constructor | src/archive.ts:19-22 | the archive keeps the client it is given |
| Archives.Archive.AlreadyUploaded | src/archive.ts:30-39 | sends the describe request for the one version and returns `VersionExists` of its reply |
| Archives.Archive.CreateStorageLocation | src/archive.ts:45-49 | sends the storage-location request and returns its bucket |
| Archives.Archive.UploadToS3 | src/archive.ts:58-70 | sends the put-object request for bucket, key and file |
| Archives.Archive.MakeApplicationVersionAvailable | src/archive.ts:80-103 | sends the create-version request with the bucket and key as source bundle and auto-create on |
| Archives.Archive.Upload | src/archive.ts:129-155 | returns `UploadRun`'s result and sends exactly its commands |
| Archives.Archive.UploadVersion | src/archive.ts:133-154 | returns `UploadParsed`'s result and sends exactly its commands |
| Environments.StatusOf | src/environment.ts:39-43 | the Status of the first described environment, none when the list is empty; a rejection is the error |
| Environments.Describe | src/environment.ts:29-32 | the describe request for one environment by name, without deleted ones; a command builder with no contract, used in the contracts of the waits and of `Environments.Environment.Status` |
| Environments.CreateOptionsFor | src/environment.ts:61-95 | a Worker tier gives type SQS/HTTP and no CNAME prefix; any other tier gives type Standard with the environment name as prefix; tier and tags default to WebServer and [] |
| Environments.UpdateConfigFor | src/environment.ts:107-115 | always sets label, environment and options; sets the solution stack exactly when one is given |
| Environments.CreateRun | src/environment.ts:55-99 | the DNS check goes first. The create request goes out exactly when the name is reported available. An unavailable name fails with "DNS … is not available". A rejected DNS check or a rejected create request fails with `ServiceError` of its reason |
| Environments.StatusPolls | src/environment.ts:129-134 | the status loop from a given budget and last status; it has no contract of its own, and `Environments.StatusPollsShape` carries its properties |
| Environments.WaitStatusRun | src/environment.ts:121-138 | `waitUntilStatusIsNot`: one poll, then the loop; it has no contract of its own, and `Environments.WaitStatusRunShape` carries its properties |
| Environments.StatusPollsShape | src/environment.ts:129-134 | the status loop polls only while budget is left and the status is still the old one. Each poll costs 5 s of budget. Every poll but the last saw the old status. The result is the last poll's. The old status is returned only once the budget is spent |
| Environments.WaitStatusRunShape | src/environment.ts:121-138 | `waitUntilStatusIsNot` polls at least once and at most 1 + 1200/5 times. It returns the first status that differs from the old one, or the old one once the budget is spent, or a failed poll's error |
| Environments.Healthy | src/environment.ts:148-149 | the loop's and the final check's condition: Health is Green and Status is Ready; a predicate with no contract, used by `Environments.HealthPollsShape` and `Environments.HealthRunShape` |
| Environments.HealthVerdict | src/environment.ts:163-171 | the check after the loop: the healthy description, or "not healthy"; it has no contract of its own, and `Environments.HealthPollsShape` carries its properties |
| Environments.HealthPolls | src/environment.ts:146-161 | the health loop from a given budget and last description; it has no contract of its own, and `Environments.HealthPollsShape` carries its properties |
| Environments.HealthRun | src/environment.ts:140-172 | `waitUtilHealthy`; it has no contract of its own, and `Environments.HealthRunShape` carries its properties |
| Environments.HealthPollsShape | src/environment.ts:146-169 | the health loop polls only while budget is left and the last description is not Green/Ready. Every poll but the last described an unhealthy environment. The last poll decides the verdict. "Not healthy" comes only once the budget is spent |
| Environments.HealthRunShape | src/environment.ts:140-172 | `waitUtilHealthy` polls at least once and at most 300/5 times. It returns the first Green/Ready description, fails at once on a poll without an environment, and reports "not healthy" only after all 60 polls |
| Environments.Difference | src/environment.ts:240-243 | `_.difference`: an element is kept exactly when it is in the first list and not in the second |
| Environments.DifferenceAppend | src/environment.ts:240-243 | the difference keeps the order of the first list: it distributes over concatenation |
| Environments.LabelsInUse | src/environment.ts:236-238 | the version label of each listed environment, in order |
| Environments.DeleteVersion | src/environment.ts:250-254 | the delete request for one version, with its source bundle; a command builder with no contract, used in the contracts of `Environments.DeleteRunShape` and `Environments.CleanRunDeletes` |
| Environments.DeleteRun | src/environment.ts:245-256 | the delete loop over the unused versions; it has no contract of its own, and `Environments.DeleteRunShape` carries its properties |
| Environments.CleanRun | src/environment.ts:214-256 | `cleanApplicationVersions`; it has no contract of its own, and `Environments.CleanRunShape`, `Environments.CleanRunDeletes` and `Environments.CleanDeletesOnlyUnused` carry its properties |
| Environments.DeleteRunShape | src/environment.ts:245-256 | the delete loop sends the deletes of a prefix of the labels, in order, with their source bundles. It sends all of them unless one is rejected, and a rejection stops it with that error |
| Environments.CleanRunListed | src/environment.ts:221-245 | once both listings are read, the rest of the clean-up is the delete loop over the unused versions |
| Environments.CleanRunShape | src/environment.ts:214-256 | lists versions, then environments, then deletes the listed versions no environment runs, in listing order. A failed listing ends the run with its error. After both listings, a failure means the last delete was rejected, and that rejection is the error; otherwise all of them are deleted |
| Environments.CleanRunDeletes | src/environment.ts:240-256 | after the two listings, the k-th delete is the k-th unused version. Every delete but the last was accepted. The run succeeds exactly when every unused version was deleted and the last delete was accepted; a failure is the last delete's rejection |
| Environments.CleanDeletesOnlyUnused | src/environment.ts:240-256 | every delete names a listed version that no environment runs, of this application, with its source bundle |
| Environments.Environment.constructor | src/environment.ts:20-22 | the environment manager keeps the client it is given |
| Environments.Environment.DescribeEnvironment | src/environment.ts:28-37 | sends one describe request and returns the first described environment |
| Environments.Environment.Status | src/environment.ts:39-43 | sends one describe request and returns `StatusOf` its reply |
| Environments.Environment.CheckDnsAvailability | src/environment.ts:180-189 | sends the DNS check and returns `AvailableOf` its reply |
| Environments.Environment.Create | src/environment.ts:55-99 | returns `CreateRun`'s result and sends exactly its commands |
| Environments.Environment.Deploy | src/environment.ts:101-119 | sends the one update request built by `UpdateConfigFor` |
| Environments.Environment.WaitUntilStatusIsNot | src/environment.ts:121-138 | the polling loop returns `WaitStatusRun`'s result and sends exactly its commands (loop invariant: sent plus what is left to send is the whole run) |
| Environments.Environment.WaitUtilHealthy | src/environment.ts:140-172 | the polling loop returns `HealthRun`'s result and sends exactly its commands |
| Environments.Environment.DeleteApplicationVersion | src/environment.ts:204-207 | sends one delete request, with the source bundle |
| Environments.Environment.CleanApplicationVersions | src/environment.ts:214-257 | lists, takes the difference, then loops over the deletes; returns `CleanRun`'s result and sends exactly its commands |
| Applications.ClientConfigFor | src/application.ts:21-27 | region from the top level; the nested credentials when present, otherwise the object's own keys |
| Applications.TierOf | src/application.ts:54 | `args.tier` when given; WebServer when the tier is absent |
| Applications.Exists | src/application.ts:65 | `if (env)`, the choice between update and create: a status that is present and not empty; a predicate with no contract, used by `Applications.UpdateWaitsWhileUpdating`, `Applications.CreateWaitsWhileLaunching`, `Applications.ExistingEnvironmentIsUpdated` and `Applications.MissingEnvironmentIsCreated` |
| Applications.UpdateFor | src/application.ts:67-72 | the update request for the parsed version label, the environment, the stack and the options; a command builder with no contract, used in the contracts of `Applications.UpdateChangeCommands` and `Applications.ExistingEnvironmentIsUpdated` |
| Applications.ChangeRun | src/application.ts:63-94 | update then wait, or create then wait; it has no contract of its own, and `Applications.UpdateWaitsWhileUpdating`, `Applications.CreateWaitsWhileLaunching`, `Applications.UpdateChangeCommands` and `Applications.CreateChangeCommands` carry its properties |
| Applications.RolloutRun | src/application.ts:60-98 | the status read, the change and the health wait; it has no contract of its own, and `Applications.RolloutStopsOnFailure`, `Applications.RolloutCommands`, `Applications.ExistingEnvironmentIsUpdated`, `Applications.MissingEnvironmentIsCreated` and `Applications.RolloutSucceedsHealthy` carry its properties |
| Applications.DeployRun | src/application.ts:48-102 | `deploy`: the upload, then the rollout; it has no contract of its own, and `Applications.DeployStopsOnUploadFailure`, `Applications.DeployRunUploaded`, `Applications.DeployStopsOnStatusFailure`, `Applications.DeployStopsOnChangeFailure` and `Applications.DeploySucceedsHealthy` carry its properties |
| Applications.DeployStopsOnUploadFailure | src/application.ts:57-58 | a failed upload is the failure of `deploy`, with only the upload's commands sent: no environment command at all |
| Applications.DeployRunUploaded | src/application.ts:57-60 | after a successful upload, `deploy` goes on as the rollout of the parsed name, after the upload's commands |
| Applications.RolloutStopsOnFailure | src/application.ts:60-94 | a failed status read ends the rollout with its error after that one describe. A failed change (a rejected update, an unavailable name, a rejected create or a failed wait) ends it with its error after the change's commands. Nothing more is sent in either case |
| Applications.DeployStopsOnStatusFailure | src/application.ts:57-61 | after a successful upload, a failed status read ends `deploy` with its error after the upload's commands and that one describe |
| Applications.DeployStopsOnChangeFailure | src/application.ts:57-94 | after a successful upload and status read, a failed change ends `deploy` with its error, and nothing is sent after the change's commands |
| Applications.RolloutCommands | src/application.ts:60-98 | after the upload, `deploy` sends the status read, then the create-or-update commands, then only describe requests |
| Applications.UpdateChangeCommands | src/application.ts:65-76 | the update branch sends the update request, then only describe requests |
| Applications.CreateChangeCommands | src/application.ts:77-94 | the create branch sends the DNS check, then the create request for the parsed name and label and the tier, then only describe requests |
| Applications.UpdateWaitsWhileUpdating | src/application.ts:65-76 | a rejected update ends the change with its error. After an accepted update, the change makes 1 to 1 + 1200/5 status reads. Every read but the last saw "Updating", and the change returns what the last one read. "Updating" is returned only once the budget is spent |
| Applications.CreateWaitsWhileLaunching | src/application.ts:77-94 | a failed create ends the change with its error and commands. After a successful create, the change makes 1 to 1 + 1200/5 status reads. Every read but the last saw "Launching", and the change returns what the last one read. "Launching" is returned only once the budget is spent |
| Applications.ExistingEnvironmentIsUpdated | src/application.ts:65-76 | when the status is present and not empty, the update request follows the status read, and no create request or DNS check is ever sent |
| Applications.MissingEnvironmentIsCreated | src/application.ts:77-94 | when the status is missing or empty, the DNS check follows the status read, and the create request uses the parsed name, label and tier (WebServer by default). No update request is ever sent |
| Applications.HealthEndsHealthy | src/environment.ts:163-171 | a successful health wait returns the Green/Ready description read by its last request, which is a describe |
| Applications.RolloutSucceedsHealthy | src/application.ts:96-98 | a successful rollout ends with the health wait and returns the Green/Ready description read last |
| Applications.RolloutRunChanged | src/application.ts:96-98 | after a successful change, the rollout goes on as the health wait, after the status read and the change's commands |
| Applications.DeploySucceedsHealthy | src/application.ts:96-101 | a successful `deploy` ends with a describe request and returns the Green/Ready description its reply carries. Success here means the health wait succeeded; `deploymentInfo` is not modelled |
| Applications.Application.constructor | src/application.ts:21-36 | builds the client configuration with `ClientConfigFor`; the archive and environment managers share the one client |
| Applications.Application.Deploy | src/application.ts:48-102 | returns `DeployRun`'s result and sends exactly its commands |
| Applications.Application.Rollout | src/application.ts:60-98 | status, change, health wait: returns `RolloutRun`'s result and sends exactly its commands |
| Applications.Application.Change | src/application.ts:63-94 | returns `ChangeRun`'s result and sends exactly its commands; `UpdateWaitsWhileUpdating` and `CreateWaitsWhileLaunching` state which status each branch waits on |
| Scenarios.StatusChangesOnThirdPoll | test/environment.spec.ts:43-61 | statuses old, old, new: three describe requests, and the new status is returned |
| Scenarios.HealthyOnThirdPoll | test/environment.spec.ts:63-80 | two unhealthy descriptions, then a Green/Ready one: three describe requests, and that description is returned |
| Scenarios.NeverHealthyTimesOut | test/environment.spec.ts:82-94 | never healthy: 60 describe requests, then "<name> is not healthy" |
| Scenarios.CleanDeletesTheOthers | test/environment.spec.ts:96-144 | versions a, b, c with a in use: b then c are deleted with their source bundles, and a is kept |
| Scenarios.CreateStopsWhenDnsTaken | test/environment.spec.ts:34-41 | an unavailable name: only the DNS check goes out, and creation fails with "DNS <name> is not available" |

## Left out

- The service. What Elastic Beanstalk and S3 do with a command is not
  modelled. Replies are an arbitrary fixed function of the position of the
  command. A call the SDK throws on is a `Rejected(reason)` reply, which
  becomes `ServiceError(reason)`.
- Both SDK clients are one oracle with one trace. The model does not say
  which of the two clients a command goes to.
- A successful reply that lacks the field the code reads becomes the
  failure `MalformedReply` at the point it is read. The source throws a
  TypeError there. There are two exceptions:
  - A storage-location reply without `S3Bucket` lets the source go on with an
    undefined bucket, where the model stops.
  - A DNS-check reply without `Available` reads as false in the source. The
    model does the same (`AvailableOf`), so creation then fails with "DNS …
    is not available".
- Fields the service leaves out (Status, Health, VersionLabel) are the empty
  string. An absent stack or tier is also the empty string. JavaScript
  truthiness on these strings is `!= ""`.
- `wait`, `setTimeout`, the 1-second sleep between deletes,
  `process.stdout.write` and the logger are left out. They have no effect on
  the commands or the results. Time is the integer budget `timeLeft`.
- `fs.readFileSync` in `uploadToS3` is left out. The put-object command
  carries the file path in place of the file's contents. The model does not
  capture an unreadable archive. In the source, such an archive makes
  `uploadToS3` throw before the put-object is sent (src/archive.ts:64), and
  `upload` then rejects with that error. The model always sends the put.
- `path.basename` and `path.extname` are simplified:
  - a path has no trailing `/`;
  - the extension starts at the last `.` of the base name, unless that `.`
    is its first character, so `..` has extension `.` where Node gives the empty string.
- `waitUtilHealthy` checks `typeof environmentDescription !== 'object'`. In
  the model this is a poll whose reply lists no environment: describing an
  environment gives either a description or nothing.
- `deploymentInfo` is not part of this model (src/deployment-info.js).
  `Application.Deploy` returns the healthy environment description that
  `deploy` hands to it. In the model, a successful deploy means that the
  health wait succeeded. It does not mean that `deploy` resolves.
  src/application.ts:101 passes `deploymentInfo` one argument, but the
  function takes two and reads `environment.name` from the missing second
  one (src/deployment-info.js:6). So as written, `deploy` rejects with a
  TypeError after a healthy wait.
- `terminate`, `terminateEnvironment`, `deleteApplication` and the
  `Application.cleanApplicationVersions` pass-through are left out. Each is
  a single service call with no decision in it.
- Applications.ClientConfigFor: the "whole credentials object" is modelled
  as its top-level key pair. The region and any other fields the object
  carries are not passed on as credentials.
- The legacy JavaScript copies (src/*.js, lib/, archive.js), the CLI, the
  configuration loading, the build files and the acceptance scripts are not
  part of this model.
