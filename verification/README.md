# LITEPLOY's decision engine in Dafny

LITEPLOY deploys applications as Docker containers behind a Caddy reverse proxy. Around Docker, git and
HTTP there is a part that only decides: which route list Caddy gets, which job runs when, when the old
container may go, what a crash leaves on disk. This project models that part and proves what it is for.

| area | modules |
|---|---|
| routes: parsing entries, checking the table, compiling it, pushing it | `DomainRoute`, `RouteTable`, `RouteCompiler`, `RouterMeaning`, `ProxyManager` |
| jobs: queue, workers, locks, records | `DeploymentStatus`, `WorkerPool`, `PoolSafety`, `PoolHistory`, `PoolLiveness`, `SingleActive`, `DeploymentRecords` |
| deploying: the container swap and its health check | `Deployments`, `Pipeline`, `ZeroDowntime` |
| storing: the atomic write, the application cache | `CrashDisk`, `Applications`, `AppService`, `Reconcile` |
| environment text | `EnvFile` |
| groundwork | `Text`, `Decimal`, `Sorting`, `Options`, `Bags` |

Go's maps are iterated in no particular order, and so are the model's. Docker, Caddy, the file system and
the clock answer through parameters (`Replies`, `Reply`, `Faults`, `Env`): every theorem holds for all
answers. Objects that the source updates in place are classes whose methods are proved against a relation
or function on values; the theorems over runs are lemmas about those.

## What the code does not do

Some properties one would expect of the code do not hold. Each is kept in the model with an input that shows
it, and with the exact condition under which it does hold.

- **A path prefix with an asterisk in it misroutes** (`internal/proxy/proxy.go:440-452`). The entry `host/v*`
  is accepted and stored as `/v*/*` (`StarredEntryIsAccepted`); the pattern `/v*` then also catches
  `/vacation`. Among tables without `?`, `[` and backslash in their prefixes, first match means longest
  segment prefix for every request if and only if no configured prefix on a host other than the dashboard's
  has an asterisk (`CompilationMeansLookup`). This holds for every way of reading patterns that meets
  `Reads`; `GlobReadsSo` gives one. For every table without conflicts and any reading whatever, a request goes
  by the lookup if and only if nobody takes it away (`AgreesIff`), and an entry is reached on its own path if
  and only if it takes that path and no earlier one does (`ShadowedIff`). A question mark in a prefix does the
  same harm (`QuestionMarkMisroutes`).
- **The add-domain form stores a path typed with its domain in lower case**
  (`internal/api/handlers_extra.go:185`), though paths keep their case everywhere else: `b.co/A` becomes
  `b.co/a/*` (`TypedCaseIsLost`). The stored path is the one typed if and only if the path field names it or
  it has no upper-case letter (`StoredEntryMeansIntent`).
- **Host and path need not parse back to themselves** (`internal/application/application.go:325-334`): `a :8`
  parses to the host `"a "`, which parses to `"a"` (`SpaceBeforePort`). They do if and only if the host has no
  white space at its ends (`FixedPointIffTrimmed`).
- **A value that is one quote character crashes the `.env` parser**
  (`internal/api/handlers_extra.go:134-137`): the slice `v[1:len(v)-1]` runs backwards. This happens if and
  only if some line has such a value (`PanicsIffLoneQuote`; `LoneQuotePanics` is an instance).
- **One active deployment per application is not guaranteed**, although `Enqueue` refuses a second one
  (`internal/deployment/service.go:100-107`). It holds when records are keyed by application and ID and four
  things are one step each: check and insert, settling a job and recording it, a clear, and a prune
  (`NeverTwoActive`). The code does none of the five, and dropping any one of them breaks it:
  `SharedKeysHideActive`, which needs no concurrency, `CheckThenInsertRaces`, `SettleThenRecordRaces`,
  `ClearListsThenDeletes` and `PruneListsThenDeletes`. `SingleActiveIffAll` puts this together.
- **A dropped update error strands the record** (`internal/deployment/pipeline.go:418`). If storing the
  record fails, the old container is still removed, and the record names a container that is gone
  (`DroppedUpdateDangles`, and `DroppedUpdateHappens` for an instance). `RunSettlesIff` gives the exact
  condition.
- **An ID with a colon or a bracket cannot be routed**, although it passes the application check: the route
  check refuses the address (`ValidApplicationRouteIsValid`, both ways, and `ColonCannotBeRouted`).
  Generated IDs have none.
- **Applications whose ID starts with a dot are lost on restart** (`internal/application/service.go:229-231`,
  `HiddenApplicationIsLost`); all others are found (`NewService`). Generated IDs never start with a dot
  (`GeneratedIDIsUsable`).
- **Disk and map can part** (`internal/application/service.go:165-207`): a status change stays in memory when
  it cannot be stored (`StatusLagsBehind`), and a removal that fails late has taken the record away.
  `CallKeepsStep` says exactly which calls keep the two the same.
- **A failed update can relabel an application** (`internal/application/service.go:146-156`). `Get` hands out a
  copy that shares the stored record's label map (`internal/application/service.go:99`), and `Update` writes
  the managed labels into it before the record is written. When that fails, the stored record keeps its name
  and has the new name's label (`RenameFailsHalfway`). `CallKeepsLabels` says exactly which calls keep the
  name labels right: all but an update through such a copy that changes the name, passes the checks and cannot
  be written.
- **A restarted manager has no configuration of its own to go back to** (`internal/proxy/proxy.go:90-96`,
  `internal/proxy/proxy.go:176-188`): a Caddy that is still running keeps what the process before had loaded,
  until the first accepted load (`NothingLandedNothingChanged`).
- **Reconciliation stops the program on a short container ID** (`internal/system/recovery.go:121-126`), if and
  only if the record has to change (`ReconcileApps`; `ShortIDTrips` is an instance).
- **The ID counter wraps around** at the largest 64-bit number; that is the only way for a new ID to be
  taken (`NextIDIsFresh`, `GeneratedIDIsFresh`).

## Model

| member | source | states |
|---|---|---|
| DomainRoute.NormalizeMeans | internal/application/application.go:337-360 | a path, with a slash put in front if it has none, is a stem, slashes and perhaps one `/*`; its normal form is the stem with `/*` |
| DomainRoute.NormalizeIsNormal | internal/application/application.go:339-360 | every normalised path is `/*` or X`/*` with X starting and not ending in a slash |
| DomainRoute.NormalPathsAreFixedPoints | internal/application/application.go:337-360 | normalising leaves a path alone if and only if it has that form |
| DomainRoute.NormalizeIdempotent | internal/application/application.go:339-360 | normalising twice is normalising once |
| DomainRoute.ParseOfHostAndPath | internal/application/application.go:300-335 | a valid lower-case host followed by any path text parses to that host and the normalised path |
| DomainRoute.UrlParses | internal/application/application.go:303-335 | a full URL in any letter case parses to its lower-case host and normalised path: scheme and port are dropped |
| DomainRoute.ValidDomainOfLabels | internal/application/application.go:286-298 | dotted labels are a valid domain if and only if there are at least two, at most 253 characters in all, a top-level one at the end and labels before it |
| DomainRoute.LabelIff | internal/application/application.go:286-287 | a label is 1 to 63 letters, digits and hyphens with no hyphen at its ends |
| DomainRoute.TopLevelIff | internal/application/application.go:286-287 | a top-level label is two or more letters |
| DomainRoute.ParseAgain | internal/application/application.go:303-335 | parsing what an entry parsed to trims the host and changes nothing else |
| DomainRoute.FixedPointIffTrimmed | internal/application/application.go:303-335 | host and path of an entry parse back to themselves if and only if the host has no white space at its ends |
| DomainRoute.ParserFixedPoint | internal/application/application.go:303-335 | so they do for every entry whose host passes the domain check |
| DomainRoute.SpaceBeforePort | internal/application/application.go:325-334 | white space before a port is such a failure |
| DomainRoute.ParseLower | internal/api/handlers_extra.go:185-216 | lower-casing an entry before parsing keeps the host and lower-cases the path |
| DomainRoute.StoredEntryMeansIntent | internal/api/handlers_extra.go:185-216 | what the add-domain form stores parses to the host typed; the path is the normalised path field unless that is empty, `/` or `/*`, and else the path typed with the domain in lower case, so that it is the one typed if and only if it was in its own field or has no upper-case letter |
| DomainRoute.OnlyBlankIsRefused | internal/api/handlers_extra.go:185-191 | exactly blank domain fields are refused at once |
| DomainRoute.TypedCaseIsLost | internal/api/handlers_extra.go:185-213 | the path of `b.co/A` is stored as `/a/*` |
| EnvFile.ParseRawEnv | internal/api/handlers_extra.go:123-143 | the parsing loop computes the specification function, crash included |
| EnvFile.SkippedIff | internal/api/handlers_extra.go:125-142 | exactly blank lines, comments, lines without an equals sign and lines without a key bind nothing |
| EnvFile.SpacedPairReads | internal/api/handlers_extra.go:126-132 | white space around key and value does not matter |
| EnvFile.QuotesStripped | internal/api/handlers_extra.go:133-137 | a value in matching quotes is read without them; quotes that differ are part of the value |
| EnvFile.EnvMeaning | internal/api/handlers_extra.go:123-143 | the result holds exactly the keys bound by some line, each with the value of its last binding; parsing fails exactly when some line would slice backwards |
| EnvFile.PanicsIffLoneQuote | internal/api/handlers_extra.go:134-137 | the slice goes out of range if and only if some line's value is a single quote character |
| EnvFile.LoneQuotePanics | internal/api/handlers_extra.go:134-137 | the text `A='` is such an input |
| EnvFile.LineRoundTrip | internal/deployment/pipeline.go:214-217 | a printed pair with a good key reads back as itself if and only if the value is trimmed and not wrapped in quotes |
| EnvFile.EnvRoundTrip | internal/deployment/pipeline.go:214-217 | printing a map in any order, with either line end, and parsing gives the map back if and only if all its keys and values are clean |
| RouteTable.ValidateRoute | internal/proxy/proxy.go:239-262 | accepts exactly the routes that have an ID, domains that parse to a host, and an upstream with a port in range that is not a loopback |
| RouteTable.ValidRouteIff | internal/proxy/proxy.go:239-262 | a route is valid if and only if it names an application and an acceptable address and has domains, each of which parses to a host |
| RouteTable.UpstreamIff | internal/proxy/proxy.go:216-236 | an address of plain text is accepted if and only if its host is neither empty nor `localhost`, `127.0.0.1` or `0.0.0.0`, and its port is between 1 and 65535 |
| RouteTable.OtherSignsRefused | internal/proxy/proxy.go:221-224 | a host with colons or brackets, not itself in brackets, is refused |
| RouteTable.BracketsSplit | internal/proxy/proxy.go:221-224 | a host in brackets may hold colons |
| RouteTable.ValidateRoutes | internal/proxy/proxy.go:265-289 | in any iteration order, accepts if and only if every route is valid and no two applications claim the same host and path; an error names a real culprit |
| RouteTable.ValidityIsMonotone | internal/proxy/proxy.go:314-317 | removing routes keeps a table valid |
| RouteCompiler.ConfiguredIff | internal/proxy/proxy.go:394-416 | the configured entries are exactly what each application's domains parse to, with a host, under its ID and non-empty address |
| RouteCompiler.DomainItemsIff | internal/proxy/proxy.go:394-416 | one application's domains give those entries, and no more entries than domains |
| RouteCompiler.ArrangedInOrder | internal/proxy/proxy.go:417-437 | specific entries stand longest path first, then by host, path and application; catch-alls by host and application |
| RouteCompiler.SpecificLessIsOrder | internal/proxy/proxy.go:418-429 | the comparator for specific routes is a strict weak order |
| RouteCompiler.CatchAllLessIsOrder | internal/proxy/proxy.go:432-437 | so is the comparator for catch-all routes |
| RouteCompiler.AppendItems | internal/proxy/proxy.go:394-416 | every entry that parses to a host lands in exactly one of the two slices, catch-alls apart |
| RouteCompiler.BuildCaddyConfig | internal/proxy/proxy.go:390-520 | the list is the dashboard route, then the sorted specific entries, then the sorted catch-alls, of exactly the configured entries |
| RouterMeaning.DashboardFirst | internal/proxy/proxy.go:441-460 | in every compilation, whatever reads the patterns, every request for the dashboard's host reaches its target |
| RouterMeaning.OnlyConfiguredIsRouted | internal/proxy/proxy.go:439-507 | every route of a compilation is the dashboard's, if that is set, or leads from a configured entry's host to its application |
| RouterMeaning.LookupIsUnique | internal/proxy/proxy.go:265-289 | in a table without conflicts the longest covering entry for a request is one entry |
| RouterMeaning.FirstMatchIsLookup | internal/proxy/proxy.go:439-507 | in any list with longer paths first, on hosts whose prefixes hold no sign, the first match is the longest segment prefix, else the catch-all, else none |
| RouterMeaning.CompilationMeansLookup | internal/proxy/proxy.go:384-507 | for every reader of patterns, table and request not for the dashboard's host: first match over the compiled list is the declarative lookup, if and only if no prefix holds an asterisk |
| RouterMeaning.StarMisroutes | internal/proxy/proxy.go:440-452 | every entry with an asterisk in its prefix has a request that goes wrong on its own host |
| RouterMeaning.StarredEntryIsAccepted | internal/application/application.go:303-360 | the entry `host/v*` parses to such a prefix, and its route passes the route check |
| RouterMeaning.GlobReadsSo | internal/proxy/proxy.go:440-452 | a reader in which an asterisk matches any text without a slash, and a lone one at the end any text, meets what is assumed of readers |
| RouterMeaning.ServedIff | internal/proxy/proxy.go:384-507 | for any reader, table without conflicts and path: a configured entry answers the request if and only if its patterns take the path and those of no earlier entry of the host do |
| RouterMeaning.ShadowedIff | internal/proxy/proxy.go:384-507 | requesting an entry's own prefix reaches its application if and only if its own patterns take that path and no earlier entry of the host does |
| RouterMeaning.OnlyStarredShadow | internal/proxy/proxy.go:440-452 | without other signs such an earlier entry has an asterisk in its prefix |
| RouterMeaning.AgreesIff | internal/proxy/proxy.go:384-507 | for any reader and table without conflicts: first match is the declarative lookup on a request if and only if the looked-up entry's patterns take it and those of no earlier entry do, or, where nothing is looked up, no entry's do |
| RouterMeaning.QuestionMarkMisroutes | internal/proxy/proxy.go:440-452 | the entry `host/a?b`, read with single-character wildcards, takes `/axb` from nobody |
| RouterMeaning.NoRouteShadowed | internal/proxy/proxy.go:384-389 | without any signs, requesting an entry's own prefix, or `/` for a catch-all, reaches its application |
| RouterMeaning.TiesAreEqual | internal/proxy/proxy.go:418-437 | entries that a comparator leaves tied are equal in every field |
| RouterMeaning.CompilationIsDeterministic | internal/proxy/proxy.go:390-437 | the configuration depends on the table alone: any iteration order and any correct, even unstable, sort give the same list |
| ProxyManager.Manager.Apply | internal/proxy/proxy.go:321-368 | its own check never fails; an accepted load is a compilation of the current table and becomes last known good; a rejected one sends the last known good, if any, again and leaves the server as it was |
| ProxyManager.Manager.UpsertRoute | internal/proxy/proxy.go:292-311 | refused by validation if and only if the route or the table with it is invalid, and then nothing changes and nothing is sent; otherwise the route is in the table, even when the server refuses it |
| ProxyManager.Manager.RemoveRoute | internal/proxy/proxy.go:314-317 | the application's route goes, all others and the dashboard stay, whatever the server replies; one step of the transaction machine |
| ProxyManager.Manager.SetDashboardRoute | internal/proxy/proxy.go:191-195 | domain and target are set and no route changes, whatever the server replies; one step of the machine |
| ProxyManager.Manager.RemoveDashboardRoute | internal/proxy/proxy.go:198-202 | domain and target are emptied and no route changes; one step of the machine |
| ProxyManager.StepKeepsGood | internal/proxy/proxy.go:292-368 | every operation keeps the table valid, keys equal to application IDs, and the server at last known good or, before there is one, at what it was found with |
| ProxyManager.RunStaysGood | internal/proxy/proxy.go:163-203 | so every state of every run is good, whatever the server replies and whatever it held when the manager started |
| ProxyManager.ActiveIsLastLanded | internal/proxy/proxy.go:342-368 | between accepted loads the server keeps exactly the compilation of the table and dashboard at the last accepted one, through rejections and rollbacks |
| ProxyManager.NothingLandedNothingChanged | internal/proxy/proxy.go:346-362 | until a load is accepted the server keeps what it was found with |
| ProxyManager.LiveRoutingMeansTable | internal/proxy/proxy.go:321-507 | right after an accepted operation, requests to the server are answered by lookup in the current table, if its prefixes hold no sign |
| ProxyManager.DashboardIsLive | internal/proxy/proxy.go:191-195 | after an accepted dashboard route, every request to the server for its host reaches the dashboard |
| ProxyManager.RemovedIsGone | internal/proxy/proxy.go:314-317 | after an accepted removal, every route of the server is the dashboard's or stands for another application's entry |
| ProxyManager.DashboardIsGone | internal/proxy/proxy.go:198-202 | after the dashboard's accepted removal, every route of the server stands for an entry |
| DeploymentStatus.TransitionIff | internal/deployment/deployment.go:137-162 | the allowed edges: one step along the chain, from any unfinished status to failed or cancelling, from queued or cancelling to cancelled |
| DeploymentStatus.GraphClimbs | internal/deployment/deployment.go:137-162 | the transition graph never goes back in rank and never leaves a terminal status |
| PoolSafety.StepKeepsInv | internal/deployment/service.go:97-331 | every step of callers and workers, in any interleaving, keeps jobs conserved, starts accounted, statuses fitting, locks exact and the queue bounded |
| PoolSafety.RunKeepsInv | internal/deployment/service.go:237-331 | so does every run from a fresh start, and the number of workers stays |
| PoolSafety.PoolIsSafe | internal/deployment/service.go:97-331 | in every reachable state the queue holds at most 64 jobs, no two workers execute for the same application, every job is in exactly one place, and none was started twice |
| PoolSafety.EveryJobIsSomewhere | internal/deployment/service.go:97-148 | a job is queued, with a worker, about to be sent, or finished in a terminal status: none is lost |
| PoolSafety.NeverTwice | internal/deployment/service.go:245-256 | no job is queued, started or run twice; a refused job never starts |
| PoolSafety.ActiveRecordsAreLive | internal/deployment/service.go:126-148 | an active record belongs to a job in the queue, in a worker or about to be sent |
| PoolSafety.TerminalStays | internal/deployment/service.go:259-331 | no step of anybody changes a deployment that has reached a terminal status |
| PoolSafety.TerminalForever | internal/deployment/service.go:97-331 | so a terminal status is never left in any run |
| PoolHistory.FirstInFirstOut | internal/deployment/service.go:136-140 | along every run, the jobs sent are the jobs taken followed by those queued, in the same order |
| PoolHistory.SendOutcome | internal/deployment/service.go:136-144 | a deployment's job is queued last or, exactly when 64 are queued, refused and failed; a rollback waits instead and is never refused |
| PoolHistory.RunKeepsOutcomes | internal/deployment/service.go:136-331 | in every reachable state a refused job has failed, a job that succeeded was started, and a job that is no longer queued was started or refused |
| PoolHistory.StatusMoves | internal/deployment/service.go:259-331 | a job keeps its application and ID, and its status changes only upwards, from queued only to preparing or to an end |
| PoolHistory.JobStep | internal/deployment/service.go:259-331 | a worker holds the lock from its start to its release, gives the job the statuses announced, and writes the record when it begins and when it has ended; it changes no other job |
| PoolHistory.RecordsMove | internal/deployment/service.go:127-420 | a drop takes exactly its keys off the records; no other event takes one away, and it files under a key only a job of that ID |
| PoolHistory.CallStep | internal/deployment/service.go:99-112 | a call that passes its check keeps its kind and application until its deployment is made |
| PoolHistory.InsertedHow | internal/deployment/service.go:114-128 | a new deployment is queued under its name and is the one on record for it |
| PoolHistory.NamedIsFresh | internal/deployment/service.go:541-557 | the name given to a deployment is no record's of its application, unless the counter wrapped around |
| PoolHistory.ShutdownIsFinal | internal/deployment/service.go:211-256 | a shutdown is never undone, and a worker that stopped takes no job any more |
| PoolLiveness.NoDeadlock | internal/deployment/service.go:244-331 | before shutdown, while a job is unfinished, some step is enabled |
| PoolLiveness.InternalDecreases | internal/deployment/service.go:244-331 | every step that carries an accepted job on lowers a measure on queue, callers and workers |
| PoolLiveness.OthersAddNothing | internal/deployment/service.go:211-256 | prunes, clears, checks, refused inserts, shutdown and stopping workers leave the measure as it is |
| PoolLiveness.DrainBound | internal/deployment/service.go:244-331 | in a run that accepts no new job, with prunes, clears, checks and shutdown wherever they fall, such steps number at most the measure at its start |
| PoolLiveness.DrainedWhenStuck | internal/deployment/service.go:244-331 | and when no such step is left before shutdown, all jobs have finished |
| SingleActive.NeverTwoActive | internal/deployment/service.go:99-128 | with check-and-insert, settle-and-record, clear and prune each one step, and keys per application, no run with enqueues, rollbacks, job steps, prunes and clears has two active deployments of one application |
| SingleActive.PruneSparesActive | internal/deployment/service.go:335-355 | then pruning never drops an active record |
| SingleActive.CheckThenInsertRaces | internal/deployment/service.go:100-128 | with the check under its own lock section, a run ends with two active deployments |
| SingleActive.SharedKeysHideActive | internal/deployment/service.go:46-46 | with records keyed by ID alone, another application's deployment hides an active one: a run without any race ends with two active deployments |
| SingleActive.SettleThenRecordRaces | internal/deployment/service.go:294-322 | with the status set before the record is written back, clearing failed records in between loses one for a while, and two are active |
| SingleActive.ClearListsThenDeletes | internal/deployment/service.go:358-375 | with a clear's listing and deletions apart, one clear deletes the record of a new deployment whose ID another clear freed, and two are active |
| SingleActive.PruneListsThenDeletes | internal/deployment/service.go:335-349 | with a prune's listing and deletions apart, the same happens after a clear |
| SingleActive.SingleActiveIffAll | internal/deployment/service.go:99-128 | for every choice of assumptions: all runs have at most one active deployment per application if and only if all five are made |
| DeploymentRecords.Store.NextDeploymentID | internal/deployment/service.go:541-557 | the result is one more, in 64 bits, than the highest number in the application's IDs |
| DeploymentRecords.NextIDIsFresh | internal/deployment/service.go:541-557 | that ID is taken if and only if the counter wrapped onto an existing ID |
| DeploymentRecords.WrappedIDCollides | internal/deployment/service.go:553-556 | the wrapped ID can be taken |
| DeploymentRecords.IDsAreSharedAcrossApps | internal/deployment/service.go:127-127 | two applications at the same count get the same ID, and the second record takes the first one's key |
| DeploymentRecords.FirstIDs | internal/deployment/service.go:541-557 | IDs count up from "0001" |
| DeploymentRecords.Store.ListByApp | internal/deployment/service.go:177-192 | exactly the application's records, each once, newest first |
| DeploymentRecords.Store.PruneOldDeployments | internal/deployment/service.go:335-355 | exactly min(n, maxKeep) of the application's records stay, none older than a removed one; all other records stay as they are |
| DeploymentRecords.Store.ClearFailedDeployments | internal/deployment/service.go:358-375 | exactly the application's failed and cancelled records go, and their number is returned |
| Decimal.ScanUndoesFormat | internal/deployment/service.go:551-556 | scanning undoes zero-padded printing for every 64-bit number, beyond the pad width too |
| Decimal.ScanReadsPrefix | internal/deployment/service.go:551-552 | scanning reads a number at the start of a text and ignores what follows |
| Decimal.ScanDigits | internal/deployment/service.go:551-552 | digits scan as their value, signed plus or not, and as zero when it does not fit in 64 bits |
| Decimal.PaddedSamples | internal/deployment/service.go:556-556 | padding fills up to the width with zeros in front of the digits |
| Deployments.JudgeIff | internal/deployment/pipeline.go:456-486 | a tick passes exactly when the container runs, is not reported unhealthy, and is reported healthy, answers its health URL, or has no check at all; it fails exactly on a cancelled check, a failed inspection, an ended container or a running one reported unhealthy |
| Deployments.PassMeans | internal/deployment/pipeline.go:433-490 | a container passes at a tick on those merits, with nothing wrong at any tick up to it |
| Deployments.PassesWhen | internal/deployment/pipeline.go:433-490 | and passes whenever there is such a tick with nothing wrong before it |
| Deployments.WaitForHealth | internal/deployment/pipeline.go:433-490 | passes if and only if the first tick before the deadline that decides anything is a pass |
| Deployments.HealthyMeansRunning | internal/deployment/pipeline.go:456-486 | a container passes only while it reports running, and not after an exit |
| Pipeline.Pipeline.BringUp | internal/deployment/pipeline.go:313-401 | up to routing: succeeds exactly when create, start, health check and route do, does exactly the container calls of `UpActs`, and on failure leaves the server's configuration alone |
| Pipeline.Pipeline.Execute | internal/deployment/pipeline.go:90-430 | every run is one step of the relation `Runs`, makes exactly the container calls of `ActsOf` in order with the container sets they lead to, and enters a prefix of the five stages in order |
| ZeroDowntime.RunSucceedsIff | internal/deployment/pipeline.go:90-401 | a run succeeds if and only if there is an application, its source and image are at hand unless it is a rollback, its container comes up healthy, and a public application's route is valid, fits the table and is accepted |
| ZeroDowntime.CreatedFirst | internal/deployment/pipeline.go:108-165 | the container is created from the rollback target, the build's tag or the application's image reference, and then started |
| ZeroDowntime.StoppedBeforeRemoved | internal/deployment/pipeline.go:333-425 | a container that was started is stopped before it is removed |
| ZeroDowntime.FailureLeavesAll | internal/deployment/pipeline.go:343-401 | a failed run leaves record, live routing and every old container; nothing new stays if and only if the clean-up call worked |
| ZeroDowntime.SuccessSwitches | internal/deployment/pipeline.go:407-430 | a successful run has a healthy container up; it is the only one and the recorded one if the old one was removed and the update stored |
| ZeroDowntime.SuccessRecords | internal/deployment/pipeline.go:407-418 | the record after a successful run is running on the new container under this deployment, with the image rolled back to, pulled or built, and otherwise as before |
| ZeroDowntime.SuccessRoutesTraffic | internal/deployment/pipeline.go:374-400 | after a successful run of a routed application the live configuration is compiled from a table with its route |
| ZeroDowntime.RunSettlesIff | internal/deployment/pipeline.go:313-430 | containers and record agree after a run if and only if its best-effort calls and the update succeeded |
| ZeroDowntime.DroppedUpdateDangles | internal/deployment/pipeline.go:418-425 | otherwise the record can name a removed container |
| ZeroDowntime.DroppedUpdateHappens | internal/deployment/pipeline.go:418-425 | a worker application whose update is dropped ends up so |
| ZeroDowntime.ServesAcrossRuns | internal/deployment/pipeline.go:313-430 | over any sequence of deployments with arbitrary failures, between runs the containers are exactly the recorded one, which is that of the last successful run |
| ZeroDowntime.NoGapDuringRun | internal/deployment/pipeline.go:313-430 | at every moment of a run, failing or not, the old container is up, or the new one is and has passed and, where routed, its route has been accepted |
| ZeroDowntime.ServedAtEveryMoment | internal/deployment/pipeline.go:313-430 | over any sequence of deployments, at every moment of every run, the container of the last successful run is up, or the run's own is and has passed and been routed |
| ZeroDowntime.OldIsTouchedLast | internal/deployment/pipeline.go:420-425 | no other container is stopped or removed before the new one has passed and, where routed, its route has been accepted |
| ZeroDowntime.JobHistoryClimbs | internal/deployment/deployment.go:19-39 | the statuses a job shows climb strictly in rank, and only the last is terminal |
| ZeroDowntime.JobRunner.RunJob | internal/deployment/service.go:259-331 | every job ends in exactly one terminal status with its finish time set, lock and cancel function released, after all stages if it succeeded |
| Applications.ValidApplicationIff | internal/application/application.go:160-211 | an application is valid if and only if it has an ID, a valid name, a port from 0 to 65535, an accepted source, a known kind of service with domains only if that is public, and domains that parse to valid hosts |
| Applications.ValidNameIff | internal/application/application.go:155-158 | a name is 1 to 64 letters, digits, hyphens and underscores, with a letter or digit at its ends |
| Applications.RoutedHow | internal/deployment/pipeline.go:366-384 | exactly applications that are not worker or internal, with domains and a port, are routed, to `liteploy-app-` with their ID and port |
| Applications.ValidApplicationRouteIsValid | internal/deployment/pipeline.go:374-391 | the route built for a valid application passes the route check if and only if its ID has no colon and no bracket |
| Applications.ColonCannotBeRouted | internal/deployment/pipeline.go:374-391 | a valid application whose route does not pass |
| CrashDisk.WritingIsSafe | internal/storage/storage.go:213-240 | while the temporary file is written, a crash shows every other file as before |
| CrashDisk.RenamedIsSafe | internal/storage/storage.go:250-255 | after sync and rename, a crash shows the old target or exactly the new contents, depending on whether the rename survived |
| CrashDisk.CleanedIsSafe | internal/storage/storage.go:224-230 | after a failed write and its clean-up, a crash shows every file as before |
| CrashDisk.Disk.AtomicWrite | internal/storage/storage.go:213-258 | a crash in any state of the call leaves old or new contents under the target and all other paths alone; success means a reader finds the new contents, an error the old |
| AppService.WellKeptMeans | internal/application/service.go:60-66 | the service invariant: names unique without case within a project, no domains for worker and internal services, the managed and ID labels right |
| AppService.NameTakenIff | internal/application/service.go:60-66 | a name is taken if and only if another application of the same non-empty project has it in some letter case |
| AppService.CreatedFields | internal/application/service.go:68-80 | a new record is the caller's, with the kind filled in and the managed labels, created and updated now |
| AppService.UpdatedFields | internal/application/service.go:142-153 | an updated record is the caller's, with the kind filled in and the managed labels over the caller's or the shared ones, created when the old one was and updated now |
| AppService.LabelsOverlaid | internal/application/application.go:214-220 | the three managed labels win, all other labels stay |
| AppService.WritableIff | internal/storage/storage.go:192-197 | a record is written if and only if its ID has no two dots in a row, the temporary name is free, and no call fails |
| AppService.Service.Create | internal/application/service.go:48-88 | keeps the invariant and all creation times; succeeds exactly for a valid, new, unclashing application that can be written; an error leaves map and disk records as they were; a crash leaves an earlier map or the new one |
| AppService.Service.Update | internal/application/service.go:121-161 | likewise for an existing application, whose creation time stays; an error leaves the disk records as they were, and the map too, except for labels written through a shared label map |
| AppService.Service.UpdateStatus | internal/application/service.go:165-181 | changes status, container and time of one application, in the map even when writing fails |
| AppService.Service.Delete | internal/application/service.go:185-207 | removes the application from map and disk; an interrupted removal keeps it in the map; a crash leaves an earlier map or the one without it |
| AppService.Service.Persist | internal/application/service.go:210-216 | one write extends the history of what the disk holds, in every crash state |
| AppService.Service.LoadAll | internal/application/service.go:219-247 | merges exactly the records of the visible directories into the map |
| AppService.Service.Reload | internal/application/service.go:250-254 | changes no identity, and nothing at all when disk and map agree |
| AppService.Service.NewService | internal/application/service.go:31-44 | a restart finds the map on disk, and all of it if and only if no ID starts with a dot |
| AppService.CrashLandsOnSavedMap | internal/storage/storage.go:3-8 | a crash during a call, keeping any number of directory changes, leaves a disk that holds exactly one map of the history or the one being saved |
| AppService.RestartAfterCrash | internal/application/service.go:219-247 | the service started on that disk loads that map and is valid |
| AppService.HiddenApplicationIsLost | internal/application/service.go:229-231 | an application that passes every check on creation and that a restart does not find |
| AppService.Serve | internal/application/service.go:48-207 | every call the program makes is one step of the relation on map and stored map, keeps the invariant, and keeps the creation time of every application it leaves |
| AppService.ServeAll | internal/application/service.go:48-207 | so every sequence of calls is a history of such steps, every view along it meets the invariant, and name labels stay right while each call keeps them so |
| AppService.CallKeepsStep | internal/application/service.go:121-207 | a call keeps disk and map equal if and only if a status change is stored or changes nothing, a removal that takes the record away completes, and labels left behind by a failed update are those that were there |
| AppService.CallKeepsLabels | internal/application/service.go:146-156 | a call keeps every name label right, in the map and on the disk, if and only if it is not a failed update through a shared label map that passed the checks and changed the name |
| AppService.RenameFailsHalfway | internal/application/service.go:146-156 | a rename from "shop" to "store" that cannot be written leaves the name "shop" with the label "store" |
| AppService.SameLabelsIff | internal/application/application.go:214-220 | of the managed labels an update writes, only the name's can differ from those there, and it does exactly when the name changes |
| AppService.StatusLagsBehind | internal/application/service.go:165-181 | a status change that cannot be stored is a call that does not |
| AppService.StaysInStep | internal/application/service.go:48-207 | along a history, disk and map stay equal as long as each call meets that condition |
| AppService.LabelsStay | internal/application/service.go:146-156 | along a history, name labels stay right as long as each call meets that condition |
| AppService.Service.GenerateID | internal/application/service.go:258-271 | the result is one more, in 64 bits, than the highest number in an `app-N` ID |
| AppService.FirstAppID | internal/application/service.go:256-271 | IDs count up from "app-001" |
| AppService.OtherIDsDoNotCount | internal/application/service.go:263-269 | an ID that does not start with `app-` does not move the counter |
| AppService.GeneratedIDIsFresh | internal/application/service.go:256-271 | it is taken if and only if the counter wrapped onto an existing ID |
| AppService.GeneratedIDIsUsable | internal/application/service.go:270-270 | it can be stored, survives a restart and gives an address the route check accepts |
| Reconcile.ManagedContainerIsFound | internal/system/recovery.go:84-88 | a container with an application's managed labels stands for that application |
| Reconcile.IndexByApp | internal/system/recovery.go:82-88 | every application with a labelled container gets the last one, and no other application gets any |
| Reconcile.ReconcileApp | internal/system/recovery.go:92-127 | one application ends up agreeing with Docker and is untouched, on disk too, if it agreed before; the pass breaks off exactly if it did not and the container's ID is short |
| Reconcile.ShortIDTrips | internal/system/recovery.go:120-126 | a stopped container with a short ID and a record that says it runs are such a case |
| Reconcile.ReconcileApps | internal/system/recovery.go:67-128 | afterwards each application whose container was inspected is running if and only if that container is and records its ID, each without a container is not running, all others are unchanged; the pass breaks off if and only if some such record has to change to a short ID |
| Reconcile.OutcomeMeans | internal/system/recovery.go:92-127 | the record names the last labelled container and runs exactly when that runs; without a container a running record is stopped; a failed inspection changes nothing |
| Reconcile.ReconcileTwice | internal/system/recovery.go:91-128 | a second pass with the same answers does not break off and changes nothing |

## Left out

- Docker, git, HTTP, DNS and the clock: their answers are parameters. Caddy's `/load` is taken to be all or nothing, and an unreachable server to have changed nothing.
- Caddy's own matching: a host is compared exactly, and a path pattern is read by an unknown reader, of which `Reads` says what some theorems assume. Letter case, encoded paths and wildcard hosts are not modelled.
- `sort.Slice` stands for any correct sort; the model runs an insertion sort and proves that the choice does not matter.
- Error texts: the model returns verdicts and, for route conflicts, the culprits.
- The job queue, maps and locks of the deployment service are components of one state value; a step is one of the code's lock sections, channel operations or field writes, and any interleaving is allowed; only the first status of a run is written together with its record (`internal/deployment/service.go:294-295`), both statuses around it being active; a step of `SingleActive` may join several, and its `Assumptions` say which. Channels and mutexes themselves are not modelled.
- Nil route pointers. Records are values; of the parts that a copy shares with the stored record, the label map is modelled (`shared`), while registry logins and resource limits, which a handler writes into before it calls `Update` (`internal/api/handlers_app.go:229-250`), have no counterpart.
- Directory changes are taken to reach the disk in the order in which they were made, as on a journalling file system; how many of the latest a crash loses is left open.
- A Caddy that drops or changes its configuration by itself.
- Text is ASCII. `Sscanf` on an ID with a newline before the number, and the space that `Sscanf` accepts inside literal text, are not modelled.
- URL, image-reference and sub-path checks of a source (`internal/application/application.go:239-281`): one verdict, `accepted`.
- JSON: taken as a faithful encoding of a record; the 16 MB read limit is not modelled.
- The form-key branch of the environment handler (`internal/api/handlers_extra.go:144-157`): no parsing happens there.
- Concurrent edits of an application during its deployment, and concurrent use of the proxy manager, which takes no lock.
- Cancelling a queued job: the function registered by `Enqueue` belongs to a context nothing reads.
- Log files, event streams, durations, project records and the network name stored with an application.
- The pruning call at the end of `runJob` is modelled by itself, in `DeploymentRecords` and, as an event that may fall anywhere, in `PoolLiveness` and `SingleActive`, not inside `RunJob`.
- "Incomplete deployments are marked failed on restart" (`internal/system/recovery.go:50-64`): the code marks copies, so runs of the pool start without loaded active records.
- AppService.Service.Create: for IDs that name a directory of their own, that is without a slash and not a single dot. The program creates applications under generated IDs only (`internal/api/handlers_app.go:114`, `internal/api/handlers_app.go:514`), and `Serve` makes those calls without any condition.
- Files beside the record in an application's directory, and directories that nothing in the service made.
- Pipeline.Pipeline.Execute: takes container IDs to have the 12 characters that its log lines cut off; only reconciliation is modelled with shorter ones.
- SingleActive.NeverTwoActive: needs the five assumptions named above, each shown to be needed by a counterexample; the code meets none of them. Pruning is taken as the exported method, which anybody may call with any limit, as `PruneListsThenDeletes` does.
- ZeroDowntime.ServesAcrossRuns: assumes that best-effort calls and the final update succeed, because `RunSettlesIff` shows that they must.
