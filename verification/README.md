# Verified model of the bot's plugin contract and runtime services

This project models ten components of the bot in Dafny and proves what they promise: over every
definition, every history of calls, every interleaving of goroutines or runners. `dafny verify
dfyconfig.toml` checks it all.

Three forms recur. Code that changes state is a class or a method with the source's own loops,
and its contract ties the new state to a function of the old one; the theorems are about that
function. Concurrent code is a state machine: goroutines or runners are processes with program
counters, each lock region, channel operation or transaction is one event, and `Run` takes any
sequence of events, skipping those that cannot happen, so that a statement about `Run` holds in
every reachable state. Code that only computes is functions.

## The components

**Plugin contract** (`PluginContract`, `DefinitionValidation`, `DefinitionValidator`,
`DefinitionPatterns`, `DefinitionPlaces`, `DefinitionParts`, `DefinitionAcceptance`, `RouteCompilation`,
`RouteOwnership`, `RuntimeOptions`, `RouteResolution`, `RouteTheorems`, `RouteCounts`,
`OutcomeValidation`). Validating a definition is processing a list of claims on
routes, command paths and ids; the validator's methods thread the tables through recursive calls
as the source does. It accepts exactly when all claims are sound, every two are compatible and
the command counts stay within their limits. `AcceptedIff` says the same of the definition itself,
without claims, tables or keys: each part is well formed, no two commands anywhere in the tree
have one root kind and one path, no two items one id, and no route two uses. From that follows
that compiling loses and invents no signature, that two signatures share a route only as
autocomplete references to different options, hence that `Resolve` never finds two matches, and
that each declared handler is reached by exactly the invocations written out for it. Outcomes are
accepted exactly when all they name is declared.

**Guild list cache** (`GuildListCache`). Callers interleave between the three lock regions of
`fetchGuildsCached`. One fetch at a time for a key, each waiter gets its leader's raw result, the
age of what is served is bounded although the rate-limit branch pushes the expiry, and no list
crosses from one key to another. The settled fetches are kept as a log, and what a caller gets is a
function of the log: a fresh list is served without a fetch, and a rate limit is waited out.

**Interaction dispatcher** (`RejectionDispatcher`). Handlers, submitters and workers interleave
between channel operations. No wakeup is lost; jobs are conserved one by one and start at most
once, in the order they were queued; a rejection is submitted exactly for the launches refused and the handlers that panicked;
and once launches stop, every schedule comes to rest with an empty queue.

**Token bucket** (`TokenBucket`). For any history, clock moving either way, a call is allowed
exactly when no window of calls that ends with it is overdrawn; keys do not affect each other.

**Migrations** (`MigrationFiles`, `MigrationRunner`, `MigrationRuns`). Any number of runners, over
a directory that only gains files, with transactions that fail or whose reply is lost, leave the
versions 1 to k applied, each recorded once and in order, none destructive. A run that fails leaves
exactly the versions before the one it names.

**Value tree** (`ValueTree`). The recursive check with its shared counter accepts exactly the
legal values within the depth and item limits, and its size is the length of the JSON text.

**Bundle stores** (`BundleHash`, `BundleStores`, `BundleCoherence`, `BundleCopies`,
`BundleInstalls`, `BundleSigning`, `BundleNames`, `BundleRepositories`, `BundlePaths`). Over any run of installs, signings and
resolutions the copies of a bundle agree in every file but the signature, and in the signature too
exactly when no two plugin roots have ids that differ in surrounding whitespace alone. Nothing
installed is altered by a later install, signing is not a modification, and what is read after an
install is the source exactly when no other bundle was there under its name. Signing succeeds
exactly when there is a bundle to sign, writes the signature into it and its copies, and nothing else.

**Embed fields** (`FieldChunker`), **custom ids** (`CustomId`), **guild configuration**
(`GuildConfig`) and the **command catalog** (`CommandCatalog`).

## Where the code does not do what one would expect

- `EmbedFieldChunked` settles what a line adds to the running length before it flushes, so the
  length of every later group of ordinary lines is one too high. Later fields of several lines
  hold at most 1023 bytes, and a field too many can be made (`FieldChunker.OneFieldTooMany`).
  `LeastIff` says exactly when the number of fields is the least, `IdealIff` exactly when the
  fields are the ideal ones, and `RunningLengthIff` when the length is right.
- Saving `AllowChannelReminders = false` for wellness loses it: `omitempty` drops the member and
  loading puts the default, true, back (`GuildConfig.SaveThenLoad`).
- `HashDir` separates paths and contents by NUL bytes, which contents may hold, so that two
  different bundles can hash alike, any one file that looks like two
  (`BundleHash.NulHidesFiles`). `HashExact` says what the hash
  tells apart; for files without NUL bytes it is everything but the signature (`TextHashExact`).
- The object store trims plugin ids where the caches do not. Two plugin roots whose ids differ in
  surrounding whitespace share a stored bundle but not its copies, and signing for one leaves the
  other's active copy stale (`BundleCopies.RootsDisagree`, for instance `UntidyRootsDisagree`).
  `CopiesAgreeIff` says that this is the only way for copies to disagree, a directory of a root's own
  apart, which takes precedence over the store.
- An install whose source hashes as a bundle already there succeeds and keeps that bundle. With NUL
  bytes it may be a different one (`BundleInstalls.SecondInstallLost`); `InstalledIsSource` says
  exactly when what is read back is the source.
- A relative bundle directory may lead out of the plugin root and back to the root itself, which
  "." is not allowed to name (`BundlePaths.BackToTheRoot`).
- A number option with limits accepts NaN, which no comparison refuses, and a choice that
  an option declares outside its own limits is never accepted (`RuntimeOptions.AllowedIff`).
- A transaction whose reply is lost stops the run with a failure and leaves its migration applied
  (`MigrationRuns.UpStopsAt`).

## Model

| member | source | states |
|---|---|---|
| DefinitionValidator.Validate | internal/runtime/plugins/contract/definition.go:354-472 | The imperative validator, with its tables threaded through recursive calls, yields exactly the fault (or none) of processing the definition's claims in order |
| DefinitionValidator.Validator.ValidateCommand | internal/runtime/plugins/contract/definition.go:474-580 | One command and everything below it: the tables afterwards, or the first fault, are those of processing its claims |
| DefinitionValidator.Validator.ValidateOwn | internal/runtime/plugins/contract/definition.go:474-560 | The checks a command makes before its children: name, path, route or container rules, shape, options and checks, in that order |
| DefinitionValidator.Validator.ValidateOptions | internal/runtime/plugins/contract/definition.go:582-696 | Names are distinct, required options come first, limits and choices hold, and autocomplete routes are entered as references |
| DefinitionValidator.Validator.ValidateChecks | internal/runtime/plugins/contract/definition.go:724-757 | Each check is of a known kind with the arguments of its kind; custom checks enter their route as a shared reference |
| DefinitionValidator.Validator.ValidateNamedRoute | internal/runtime/plugins/contract/definition.go:759-768 | An id is entered once in its class and its route is entered as owned |
| DefinitionValidator.Validator.AddRoute | internal/runtime/plugins/contract/definition.go:786-799 | An owned route must be canonical and not yet in the table |
| DefinitionValidator.Validator.AddRouteReference | internal/runtime/plugins/contract/definition.go:770-784 | A reference may repeat in its own class, and clashes with any other use of the route |
| DefinitionValidator.Validator.ValidateTopLevel | internal/runtime/plugins/contract/definition.go:384-398 | Top-level commands: kind, count limit of the kind, then the command |
| DefinitionValidator.Validator.ValidateCog | internal/runtime/plugins/contract/definition.go:366-469 | All parts of a cog in the source's order |
| DefinitionValidation.ValidationAccepts | internal/runtime/plugins/contract/definition.go:354-472 | Validation accepts exactly when every claim is sound, every two claims are compatible, and the commands of each kind stay within the limit: no dependence on order |
| DefinitionValidation.ProcessAccepts | internal/runtime/plugins/contract/definition.go:759-799 | The same from any tables: what is admitted is what the tables admit and is pairwise compatible |
| DefinitionAcceptance.AcceptedIff | internal/runtime/plugins/contract/definition.go:354-799 | A definition is accepted exactly when each part is well formed, cog names and ids differ, the commands of each kind stay within their limit, no two commands at any positions have one root kind and one lower-cased name path, and no route is owned twice or used in two ways |
| DefinitionAcceptance.PathsClashIff | internal/runtime/plugins/contract/definition.go:516-522 | The keys of two commands of a well-formed definition, at any positions, are equal exactly when their root kinds and their name paths are |
| DefinitionAcceptance.LimitsIff | internal/runtime/plugins/contract/definition.go:384-398 | The running counts stay within the limits exactly when at most 100 slash, 5 user and 5 message commands are declared in all |
| DefinitionPlaces.PathKeyTells | internal/runtime/plugins/contract/definition.go:516-522 | Path keys of top-level kinds and paths of slash names, or of one context name, tell kind and path apart, although context names may hold spaces |
| DefinitionPlaces.DefinitionCounts | internal/runtime/plugins/contract/definition.go:354-472 | What the walk enters in a table it enters as often as there are places in the tree that declare it |
| DefinitionParts.DefinitionSound | internal/runtime/plugins/contract/definition.go:354-768 | The checks that read no table pass exactly when every command, option, choice, check, component, modal, listener and task, at any depth, is well formed as written out field by field |
| DefinitionPatterns.RouteShapeFits | internal/runtime/plugins/contract/definition.go:347-351 | A route passes the check on its parts between colons exactly when the whole of it matches the regular expression |
| DefinitionPatterns.SlashNameFits | internal/runtime/plugins/contract/definition.go:347-351 | The same for names of slash commands and options |
| DefinitionPatterns.HandlerIdFits | internal/runtime/plugins/contract/definition.go:347-351 | The same for ids |
| RouteCompilation.Compile | internal/runtime/plugins/contract/catalog.go:74-114 | The loops over cogs and their items build the catalog of all declared signatures |
| RouteCompilation.RouteCatalog.AddSignature | internal/runtime/plugins/contract/catalog.go:144-153 | A signature is appended to its route, a check only if the route holds none |
| RouteCompilation.RouteCatalog.AddCommand | internal/runtime/plugins/contract/catalog.go:116-136 | The recursion over a command adds its checks, its autocomplete options and itself, with the full path and the root's kind |
| RouteOwnership.CompiledShape | internal/runtime/plugins/contract/catalog.go:74-153 | Compiling an accepted definition keeps exactly the declared signatures, and routes are shared only by autocomplete references that differ in path or option |
| RouteOwnership.ModalIdsUnique | internal/runtime/plugins/contract/definition.go:446-468 | Two modal signatures of an accepted definition with one id are the same signature |
| RuntimeOptions.ValidateRuntimeOptions | internal/runtime/plugins/contract/catalog.go:279-307 | The loop that deletes from a map while scanning computes the two-pass function |
| RuntimeOptions.AcceptedIffAdmissible | internal/runtime/plugins/contract/catalog.go:279-366 | Given distinct declared names, values are accepted exactly when their names are distinct and declared, required options are there if demanded, and each value has its definition's kind, bounds and choice |
| RuntimeOptions.AllowedIff | internal/runtime/plugins/contract/catalog.go:309-379 | A value is allowed exactly when it has the kind, lies between the limits, is of this guild and a listed channel kind, and is one of the choices if there are any |
| RouteResolution.ResolveInvocation | internal/runtime/plugins/contract/catalog.go:155-186 | The loop over candidates: not found, ambiguous, no match, or the one match |
| RouteResolution.MatchingMembers | internal/runtime/plugins/contract/catalog.go:163-185 | At most one candidate is found exactly when no two candidates match the invocation |
| RouteTheorems.NeverAmbiguous | internal/runtime/plugins/contract/catalog.go:155-255 | For every accepted definition and every invocation the "matches multiple signatures" error is unreachable |
| RouteTheorems.ResolvesExactly | internal/runtime/plugins/contract/catalog.go:155-255 | An invocation resolves to a signature exactly when it is well formed and that signature is declared on its route and matches it |
| RouteTheorems.SignaturesDeclared | internal/runtime/plugins/contract/catalog.go:74-136 | The signatures compiled are exactly those of what is declared: leaf commands at any depth, their autocomplete options, listeners, tasks, components, modals and custom checks |
| RouteTheorems.ResolvesDeclared | internal/runtime/plugins/contract/catalog.go:155-255 | Whatever resolves is declared on its route; "not registered" is answered exactly when nothing is declared there |
| RouteTheorems.LeafCommandResolves | internal/runtime/plugins/contract/catalog.go:116-136 | An invocation on the route of a leaf command at any depth resolves exactly when it is a well-formed command invocation of the root kind and the full path, in the response state of the defer mode, with admissible options; then to that command |
| RouteTheorems.AutocompleteResolves | internal/runtime/plugins/contract/catalog.go:116-136 | An invocation resolves to an autocomplete option of a leaf command exactly when it has its path, its name, its kind, a finite number if any, and admissible other options |
| RouteTheorems.ItemsResolve | internal/runtime/plugins/contract/catalog.go:84-110 | On the route of a listener, task, component or modal an invocation resolves exactly when it is well formed and has the event, the id, the id with a supported kind, or the id with every field supplied declared and every required one filled in, each in the response state of its defer mode |
| RouteResolution.FieldsAcceptedIff | internal/runtime/plugins/contract/catalog.go:381-400 | With distinct field ids, modal values are accepted exactly when each is for a declared field and each required field is present and not empty |
| RouteTheorems.CheckResolves | internal/runtime/plugins/contract/catalog.go:138-153 | On the route of a custom check, wherever it is declared, exactly the well-formed check invocations resolve, to the one shared signature |
| RouteCounts.CompiledTotal | internal/runtime/plugins/contract/catalog.go:74-153 | The catalog holds as many signatures as there are declared items, with each route of a custom check declared anywhere counted once |
| OutcomeValidation.ValidateOutcome | internal/runtime/plugins/contract/catalog.go:401-449 | An accepted outcome leaves no handler of any operation undeclared |
| OutcomeValidation.ValidateOperation | internal/runtime/plugins/contract/catalog.go:549-602 | One operation, and the one inside a guarded or best-effort operation |
| OutcomeValidation.ValidateRows | internal/runtime/plugins/contract/catalog.go:473-490 | Rows pass exactly when each non-link button and each select names a supported component |
| OutcomeValidation.ComponentSupports | internal/runtime/plugins/contract/catalog.go:509-518 | Some compiled component signature has this id and supports this kind |
| OutcomeValidation.NoDanglingHandler | internal/runtime/plugins/contract/catalog.go:401-518 | Every button and select shown by an accepted outcome names an id and kind that a declared component supports |
| OutcomeValidation.OutcomeAcceptedIff | internal/runtime/plugins/contract/catalog.go:401-602 | An outcome is accepted exactly when its invocation resolves, it is well formed, and every button, select and modal it shows, nested operations included, is declared |
| OutcomeValidation.ValidateModalView | internal/runtime/plugins/contract/catalog.go:520-547 | Whatever order the map is walked in, the view passes exactly when it agrees with a modal of its id |
| OutcomeValidation.AgreeIffRearranged | internal/runtime/plugins/contract/catalog.go:529-545 | The field comparison that deletes from a map accepts exactly the rearrangements of the declared fields, required flags included |
| OutcomeValidation.ModalViewMatches | internal/runtime/plugins/contract/catalog.go:520-547 | For an accepted definition the modal view passes exactly when its fields are a permutation of those of the one modal with that id |
| OutcomeValidation.OpensDeclaredModal | internal/runtime/plugins/contract/catalog.go:520-547 | Opening a modal passes exactly when some cog declares a modal of that id with those fields in some order |
| OutcomeValidation.CompiledModalsUnique | internal/runtime/plugins/contract/catalog.go:520-547 | In the compiled catalog one id means one modal, so that the map's iteration order cannot matter |
| GuildListCache.GuildCache.Enter | internal/adminapi/guilds/service.go:142-190 | The first lock region decides as `Lookup` says, registers a fresh record only for a leader, and changes nothing else |
| GuildListCache.GuildCache.Finish | internal/adminapi/guilds/service.go:194-214 | The second lock region removes the registration, settles the entry and closes the call with the raw result |
| GuildListCache.GuildCache.Recheck | internal/adminapi/guilds/service.go:216-230 | After a rate limit: a list of at most ten minutes, or the public error |
| GuildListCache.Reachable | internal/adminapi/guilds/service.go:134-234 | The invariant of all interleavings: leaders registered, open calls led, entries and replies sound |
| GuildListCache.SingleFlight | internal/adminapi/guilds/service.go:176-195 | The fetches under way for a key number one if it is registered and none otherwise, and each leader's registration is its own |
| GuildListCache.WaitersServed | internal/adminapi/guilds/service.go:176-214 | A waiter waits on a call of its own key that is closed or has a live leader, and gets exactly what that leader's fetch returned |
| GuildListCache.CacheAge | internal/adminapi/guilds/service.go:150-230 | An ordinary hit was fetched under 30 s before the caller's clock reading; a list served while rate limited is at most 10 minutes old |
| GuildListCache.ListsWereFetched | internal/adminapi/guilds/service.go:134-234 | Every list any caller is given was fetched for that caller's key |
| GuildListCache.EnterExactly | internal/adminapi/guilds/service.go:142-190 | What a caller gets on entering, as a function of the settled fetches of its key alone: the last list while fresh, a list of at most 10 minutes or a refusal while a limit lasts; otherwise it joins the fetch under way or becomes the leader |
| GuildListCache.FreshListServed | internal/adminapi/guilds/service.go:169-173 | A non-empty list fetched under 30 s ago, with no later list or limit, is served, and no fetch is started |
| GuildListCache.LimitRespected | internal/adminapi/guilds/service.go:150-168 | Until a rate limit with its delay has passed no caller of that key starts a fetch |
| GuildListCache.RecheckExactly | internal/adminapi/guilds/service.go:216-230 | A rate-limited leader serves the last list if it is non-empty and at most 10 minutes old, and otherwise refuses with the delay left |
| GuildListCache.FinishExactly | internal/adminapi/guilds/service.go:194-214 | A finished fetch closes its call with the raw result, frees the key and touches no other caller |
| RejectionDispatcher.Dispatcher.Launch | internal/runtime/discord/interactions/dispatcher.go:37-71 | Accepts while a handler slot is free, and leaves the channels as the launch event does |
| RejectionDispatcher.Dispatcher.StartRejection | internal/runtime/discord/interactions/dispatcher.go:94-102 | A worker starts with the job exactly when a worker slot is free |
| RejectionDispatcher.Dispatcher.PushJob | internal/runtime/discord/interactions/dispatcher.go:86-91 | The job is queued at the end, or not at all when 128 wait |
| RejectionDispatcher.Dispatcher.StartQueued | internal/runtime/discord/interactions/dispatcher.go:104-110 | The recheck after a push or a release starts a worker exactly when a worker slot is free |
| RejectionDispatcher.Dispatcher.ReceiveJob | internal/runtime/discord/interactions/dispatcher.go:122-129 | Takes the first job, or finds the queue empty |
| RejectionDispatcher.HolderHasSlot | internal/runtime/discord/interactions/dispatcher.go:46-48 | The slots that handlers and workers give back are there to give back |
| RejectionDispatcher.NoLostWakeup | internal/runtime/discord/interactions/dispatcher.go:73-130 | In every reachable state a waiting job has a worker with a slot, or a goroutine between its push or release and its recheck |
| RejectionDispatcher.Capacity | internal/runtime/discord/interactions/dispatcher.go:8-30 | At most 128 handlers, 8 workers and 128 waiting jobs |
| RejectionDispatcher.Conservation | internal/runtime/discord/interactions/dispatcher.go:73-139 | Submitted jobs are those in hand, queued, running, finished and dropped, one by one and in number; none starts twice or starts and is dropped |
| RejectionDispatcher.FirstInFirstOut | internal/runtime/discord/interactions/dispatcher.go:86-129 | At any time the jobs pushed are, in order, those received and then those waiting |
| RejectionDispatcher.QueueSteps | internal/runtime/discord/interactions/dispatcher.go:86-129 | Only a push with room adds a job, at the end, and only a receive takes one, the first, and starts it |
| RejectionDispatcher.WorkerStartsIff | internal/runtime/discord/interactions/dispatcher.go:94-110 | A worker starts exactly while fewer than 8 hold a slot, counted over all goroutines |
| RejectionDispatcher.LaunchRunsIff | internal/runtime/discord/interactions/dispatcher.go:37-71 | A launch is accepted exactly while fewer than 128 goroutines hold a handler slot, and is otherwise rejected if it can be |
| RejectionDispatcher.RejectedExactly | internal/runtime/discord/interactions/dispatcher.go:45-70 | A rejection is submitted, once, exactly for a launch with one that was refused or whose handler panicked |
| RejectionDispatcher.DroppedOnlyWhenFull | internal/runtime/discord/interactions/dispatcher.go:60-91 | A job is dropped only with a full queue, a launch refused only with all handler slots held |
| RejectionDispatcher.StepProgresses | internal/runtime/discord/interactions/dispatcher.go:112-130 | Every step but a launch decreases a measure: release-and-recheck cannot go round for ever |
| RejectionDispatcher.Drains | internal/runtime/discord/interactions/dispatcher.go:37-139 | From any reachable state and under any schedule, once launches stop all goroutines end, the queue is empty, and each submitted job has finished or was dropped |
| TokenBucket.NewLimits | internal/runtime/discord/pluginbridge/automation.go:200-212 | Whatever is asked for, the rate is positive and the burst at least one |
| TokenBucket.Limiter.Allow | internal/runtime/discord/pluginbridge/automation.go:214-246 | The answer and the whole state afterwards, blank keys and the zero time included |
| TokenBucket.ExactAdmission | internal/runtime/discord/pluginbridge/automation.go:226-245 | A call on a key is allowed exactly when, for every earlier start, admitting it stays within burst plus rate times the forward moves of the clock |
| TokenBucket.WindowBound | internal/runtime/discord/pluginbridge/automation.go:226-245 | Any window of calls admits at most that |
| TokenBucket.SteadyBudget | internal/runtime/discord/pluginbridge/automation.go:233-237 | For a clock that never goes back, the bound is burst plus rate times the window's length |
| TokenBucket.TokensInRange | internal/runtime/discord/pluginbridge/automation.go:237-245 | After any history the tokens lie between 0 and the burst |
| TokenBucket.KeysApart | internal/runtime/discord/pluginbridge/automation.go:214-246 | A key's bucket is that of its own calls alone, in any history over many keys |
| TokenBucket.AnswerIsExact | internal/runtime/discord/pluginbridge/automation.go:214-246 | In a history over many keys a call is allowed exactly when its trimmed key is not blank and no window of that key is overdrawn |
| TokenBucket.ZeroMeansClock | internal/runtime/discord/pluginbridge/automation.go:214-246 | A call without a time is a call at the clock reading; with a time the clock does not matter |
| MigrationFiles.LoadDefinitions | internal/migration/migrate.go:140-209 | The two loops, whatever the sort, yield what loading may yield |
| MigrationFiles.LoadsExactly | internal/migration/migrate.go:140-209 | Loading yields given definitions exactly when they are the directory's versions 1 to n, one readable file each, and nothing else there is named as or like a migration |
| MigrationFiles.ParsesExactly | internal/migration/migrate.go:140-209 | A file name parses to a version and a name exactly when it is three digits, an underscore, the name and ".up.sql" |
| MigrationFiles.KindIsDeclared | internal/migration/migrate.go:367-391 | The kind is the one declared in the first line that is not blank, a comment |
| MigrationFiles.ReadExactly | internal/migration/migrate.go:152-200 | What a readable file is read to, field by field |
| MigrationFiles.ReadFaults | internal/migration/migrate.go:354-391 | Which fault a file has, exactly: no bytes, only whitespace, or no kind declared |
| MigrationFiles.DefinitionsGrow | internal/migration/migrate.go:140-209 | When files are only added, the definitions loaded later extend those loaded before |
| MigrationRunner.ValidateAppliedChecksums | internal/migration/migrate.go:281-304 | In any map order: every applied version is in the directory with the same checksum |
| MigrationRunner.HighestAppliedVersion | internal/migration/migrate.go:420-428 | The greatest applied version, or 0 |
| MigrationRunner.BuildStatus | internal/migration/migrate.go:393-418 | Current version, applied items and pending items, each in definition order |
| MigrationRunner.Database.ApplyUp | internal/migration/migrate.go:306-353 | Both rows commit or neither, and never for a version that is there |
| MigrationRunner.Up | internal/migration/migrate.go:80-118 | The database and the result are those of the runner's steps taken to the end |
| MigrationRuns.AppliedInOrder | internal/migration/migrate.go:80-118 | After any interleaving and any failures: versions 1 to k, in the history once and in order, equal in both tables, each from its file and none destructive |
| MigrationRuns.HistoryOnlyGrows | internal/migration/migrate.go:306-353 | What is recorded is never changed or removed |
| MigrationRuns.SuccessStatus | internal/migration/migrate.go:98-118 | A successful run reports everything applied, nothing pending and the last version current, and all of it is committed |
| MigrationRuns.StatusAnyTime | internal/migration/migrate.go:120-138 | At any time: the first k definitions applied, the rest pending, k current |
| MigrationRuns.LoadedSound | internal/migration/migrate.go:281-304 | In every reachable world the checksum check passes for whatever the directory loads as |
| MigrationRuns.UpSucceedsIff | internal/migration/migrate.go:80-118 | A run alone succeeds exactly when no pending migration is destructive and each transaction commits |
| MigrationRuns.UpStopsAt | internal/migration/migrate.go:80-118 | Whether it fails or not, a run alone leaves exactly the versions before the first that is destructive or whose transaction does not commit, and that one too if only its reply was lost; the failure is that one's |
| MigrationRuns.UpAgainChangesNothing | internal/migration/migrate.go:80-118 | Up after a successful Up leaves the database and the result the same, whatever the database would do |
| ValueTree.Validate | internal/runtime/plugins/contract/value.go:153-237 | The recursion with its shared counter computes the size or failure, and the counter, of the functional check |
| ValueTree.AcceptsExactly | internal/runtime/plugins/contract/value.go:131-237 | Accepted exactly when depth is at most 16, items at most 500 in all, and keys, floats, strings and kinds are legal; then the size is the length of the JSON text and the counter the number of items |
| ValueTree.CheckExact | internal/runtime/plugins/contract/value.go:153-237 | The same from any depth and any number of items already counted |
| ValueTree.IntegerReads | internal/runtime/plugins/contract/value.go:153-237 | The text whose length counts for an integer is its decimal numeral, without leading zeros, after its sign |
| ValueTree.PartsAcceptable | internal/runtime/plugins/contract/value.go:153-237 | Every value inside a valid value is valid on its own |
| ValueTree.ValidateState | internal/runtime/plugins/contract/value.go:137-146 | State values are the valid ones whose JSON text has at most 16384 bytes |
| ValueTree.Clone | internal/runtime/plugins/contract/value.go:124-129 | A copy is the same value |
| ValueTree.ListValue | internal/runtime/plugins/contract/value.go:67-73 | Yields the list exactly when it is valid |
| ValueTree.ObjectValue | internal/runtime/plugins/contract/value.go:75-92 | Yields the object exactly when it is valid: the key checks made first reject nothing else |
| BundleHash.HashDir | internal/bundles/local.go:269-293 | Feeds the listed files in byte order, the top-level signature left out |
| BundleHash.CopyDirSafe | internal/bundles/local.go:350-390 | Copies exactly the directories with no file over 8 MiB and no more than 32 MiB in all |
| BundleHash.HashIgnoresSignature | internal/bundles/local.go:303-332 | Signing does not change the hash |
| BundleHash.HashExact | internal/bundles/local.go:269-293 | Two directories hash alike exactly when the strings between NUL bytes are the same |
| BundleHash.TextHashExact | internal/bundles/local.go:269-301 | Without NUL bytes they hash alike exactly when all files but the signature are equal |
| BundleHash.NulHidesFiles | internal/bundles/local.go:275-287 | With them, for any two names and texts, one file hashes as those two |
| BundlePaths.ResolvesWithin | internal/bundles/local.go:145-170 | A relative directory passes exactly when it is not blank, absolute, "." or "..", and leads to the plugin root or below it |
| BundlePaths.BundleResolves | internal/bundles/local.go:145-170 | The names that repositories make lead to their own directory below the root |
| BundlePaths.CleanIsFixed | internal/bundles/local.go:145-170 | A cleaned path has no empty or "." segment and ".." only in front of a relative path, and cleaning it again changes nothing |
| BundleNames.BundleNameIs | internal/bundles/local.go:334-348 | A bundle is called "git-" and the revision from its first to its last letter or digit, with dashes for what is no name character, or by its hash if the revision has no letter or digit |
| BundleNames.BundleNameResolves | internal/bundles/local.go:145-348 | Whatever the revision says, the bundle resolves to a directory of that name under the plugin root |
| BundlePaths.BackToTheRoot | internal/bundles/local.go:157-168 | A directory that leads out and back may name the root itself |
| BundleRepositories.EnsureCachedBundle | internal/bundles/cached.go:262-298 | A copy with the same hash stays, any other is removed and made anew |
| BundleRepositories.LocalRepository.MaterializeBundle | internal/bundles/local.go:172-236 | Result and file system are those of the local install |
| BundleRepositories.LocalRepository.WriteBundleSignature | internal/bundles/local.go:238-248 | Writes the signature of the bundle that the state names, if it is there |
| BundleRepositories.CachedRepository.ResolveActiveDir | internal/bundles/cached.go:104-126 | Brings the active copy up to date with the local or stored bundle |
| BundleRepositories.CachedRepository.MaterializeBundle | internal/bundles/cached.go:136-204 | Result and file system are those of the cached install |
| BundleRepositories.CachedRepository.WriteBundleSignature | internal/bundles/cached.go:206-222 | Signs the bundle, then its active copy |
| BundleRepositories.DirObjectStore.Put | internal/bundles/object_store.go:32-73 | Keeps an equal bundle, refuses a different one, adds a new one |
| BundleRepositories.DirObjectStore.WriteBundleFile | internal/bundles/object_store.go:91-109 | Writes the signature, making the directory where there is none |
| BundleRepositories.ObjectStoreRepository.ResolveBundleRelativeDir | internal/bundles/object_store.go:196-210 | A local directory wins; otherwise the artifact is brought up to date |
| BundleRepositories.ObjectStoreRepository.MaterializeBundle | internal/bundles/object_store.go:244-297 | Result and file system are those of the object-store install |
| BundleRepositories.ObjectStoreRepository.WriteBundleSignature | internal/bundles/object_store.go:299-348 | Signs the stored bundle, the artifact and the active copy, in that order |
| BundleSigning.LocalSigns | internal/bundles/local.go:238-248 | Signing succeeds exactly when the root has a state and its bundle is there; then that directory has its files with the signature as given, every other directory is unchanged, and it is what is read |
| BundleSigning.OwnDirSigned | internal/bundles/cached.go:206-222 | A directory of the root's own is signed and its active copy follows; the store and the artifacts stay |
| BundleSigning.CachedSigned | internal/bundles/cached.go:206-222 | Otherwise signing succeeds exactly when the store has the bundle, which gets the signature and nothing else, and the active copy follows |
| BundleSigning.ObjectSigned | internal/bundles/object_store.go:299-348 | The same for the object store: it is written unless its id is refused, even where signing then fails for want of an artifact |
| BundleSigning.SigningIsRead | internal/bundles/object_store.go:299-348 | In all three repositories: signing succeeds exactly when it can, and the bundle resolved and the active copy read afterwards have that signature |
| BundleCopies.CopiesAgreeIff | internal/bundles/object_store.go:32-348 | The active copy and the artifact, where they exist, equal the stored bundle file for file, signature included, after every run over given plugin roots exactly when no two of the roots have ids that differ but are the same trimmed |
| BundleCopies.CopiesMatch | internal/bundles/object_store.go:196-348 | After any run at all they equal it in every file but the signature |
| BundleCopies.RootsDisagree | internal/bundles/object_store.go:32-109 | For any two roots with ids that differ but are the same trimmed: after an install for each and signing for one, the active copy of the other is stale |
| BundleCopies.UntidyRootsDisagree | internal/bundles/object_store.go:32-109 | For instance any two directories side by side whose names differ by a space in front |
| BundleCoherence.SignKeepsInFull | internal/bundles/object_store.go:299-348 | Signing keeps all copies in step with the store when no other copies share the bundle that the root's state names |
| BundleInstalls.NeverModified | internal/bundles/cached.go:224-230 | After any run no bundle counts as modified against the hash recorded at its install; there is no answer exactly when it has no artifact and cannot be copied into one |
| BundleInstalls.ModifiedExactly | internal/bundles/object_store.go:350-356 | From any state: a root's own directory, else the stored bundle, counts as modified exactly when it hashes otherwise; the exact cases of no answer |
| BundleInstalls.InstallAltersNothing | internal/bundles/cached.go:136-204 | After any run, installing changes no bundle that is there, in a store or in a cache |
| BundleInstalls.InstallYields | internal/bundles/local.go:172-236 | In all three repositories, what is read after installing hashes as the source does, unless exactly the root has another directory of that name of its own |
| BundleInstalls.InstallSucceedsIff | internal/bundles/local.go:172-236 | In all three repositories: an install succeeds exactly when the root is named, the source has no links and is within the limits, the id is not refused, what is there under the name hashes as the source, and the copies to be made are within the limits |
| BundleInstalls.InstalledIsSource | internal/bundles/object_store.go:244-297 | After any run, in all three repositories: what is read after installing has the files of the source, signature apart, exactly when no bundle with other files was there under its name; a new bundle is the source itself |
| BundleInstalls.TextInstalledIsSource | internal/bundles/local.go:269-301 | With no NUL byte in the source or in a bundle already there it always is |
| BundleInstalls.TextRunsReadBack | internal/bundles/local.go:172-301 | In runs that install text over text, every install reads back as its source |
| BundleInstalls.SecondInstallLost | internal/bundles/local.go:202-212 | For any such two directories within the size limit: the second install succeeds and is read back as the first |
| FieldChunker.JoinLines | internal/runtime/discord/interactions/theme.go:40-56 | The trimmed non-blank lines, joined by newlines |
| FieldChunker.EmbedFieldChunked | internal/runtime/discord/interactions/theme.go:60-107 | One field for each group of lines of the loop's running state, in order, with the trimmed name |
| FieldChunker.ContentKept | internal/runtime/discord/interactions/theme.go:60-107 | The values, joined by newlines, are the trimmed non-blank lines in order, over-long ones truncated |
| FieldChunker.ValueSizes | internal/runtime/discord/interactions/theme.go:86-103 | Each value has at most 1024 bytes, but for a truncated line alone (1026), and at most 1024 characters |
| FieldChunker.RunningLengthIff | internal/runtime/discord/interactions/theme.go:85-104 | The running length is the joined length exactly while all lines so far fit one field, or when the last one was truncated |
| FieldChunker.LeastWithSpareByte | internal/runtime/discord/interactions/theme.go:60-107 | No order-preserving split into groups that are single or hold 1024 bytes, the first, and 1023, the others, has fewer groups |
| FieldChunker.LeastIff | internal/runtime/discord/interactions/theme.go:60-107 | The number of fields is the least for 1024 bytes exactly when some least split leaves a byte spare in each later group of several lines |
| FieldChunker.IdealIff | internal/runtime/discord/interactions/theme.go:60-107 | The fields are those of the ideal packing exactly when no later ideal field of several lines has all its 1024 bytes |
| FieldChunker.LeastUnlessFull | internal/runtime/discord/interactions/theme.go:60-107 | Then no order-preserving split for 1024 bytes has fewer fields |
| FieldChunker.OneFieldTooMany | internal/runtime/discord/interactions/theme.go:91-104 | Three lines that fit in two fields and are put into three |
| CustomId.BuildsExactly | internal/runtime/plugins/customid/codec.go:18-34 | Build succeeds exactly on valid ids of at most 87 characters together |
| DefinitionPatterns.CustomIdsFit | internal/runtime/plugins/customid/codec.go:10-34 | The two kinds of ids in custom ids are those that match the regular expressions |
| CustomId.ParseBuilt | internal/runtime/plugins/customid/codec.go:18-59 | Parsing what was built gives the ids back |
| CustomId.BuildInjective | internal/runtime/plugins/customid/codec.go:18-34 | Different ids build different custom ids |
| CustomId.ParsesExactly | internal/runtime/plugins/customid/codec.go:36-59 | What parses to given ids is exactly the text Build makes of them with whitespace around the two segments, within 100 bytes |
| GuildConfig.Default | internal/guildconfig/config.go:50-68 | All commands of the plugin on, and the defaults of moderation and wellness |
| GuildConfig.Normalize | internal/guildconfig/config.go:164-186 | The plugin's own commands as given or on, clamped numbers, and nothing of another plugin |
| GuildConfig.Load | internal/guildconfig/config.go:70-120 | Defaults for a missing target or text, an error for a store out of order, else the decoded and normalized text |
| GuildConfig.Save | internal/guildconfig/config.go:122-139 | Stores the encoding of the normalized configuration under its guild and plugin, and nothing else |
| GuildConfig.CommandEnabled | internal/guildconfig/config.go:149-162 | On without a guild or plugin, the store's error if it is out of order; otherwise off when the plugin is off, else as the loaded commands say, and on for a command they do not name |
| GuildConfig.Clamp | internal/guildconfig/config.go:221-232 | In range, the value itself where that is in range, the fallback for 0 |
| GuildConfig.NormalizedFields | internal/guildconfig/config.go:164-232 | Field by field: a number inside its bounds is kept, outside gets the nearer bound, 0 the default; `enabled` and the wellness fields are as given; a command is as given or on |
| GuildConfig.InRangeIsKept | internal/guildconfig/config.go:164-186 | Normalizing changes nothing exactly when the configuration is in range |
| GuildConfig.LoadedFields | internal/guildconfig/config.go:70-120 | Each field loaded is the one stored, or its default where there is none of its type, then normalized |
| GuildConfig.DefaultsAreNormal | internal/guildconfig/config.go:50-68 | The defaults are what the all-zero configuration is normalized to, and what a blank or malformed text loads as |
| GuildConfig.SaveThenLoad | internal/guildconfig/config.go:13-186 | Loading what was saved gives the normalized configuration, except exactly that a wellness refusal of channel reminders comes back as true |
| GuildConfig.SavedInRange | internal/guildconfig/config.go:13-186 | A configuration in range is loaded as it was saved, but for that exception |
| GuildConfig.NormalizedIsFixed | internal/guildconfig/config.go:164-186 | Normalizing twice is normalizing once |
| GuildConfig.LoadedInRange | internal/guildconfig/config.go:70-120 | Whatever the store holds, what is loaded has exactly the plugin's commands and every number in range |
| GuildConfig.SavedCommands | internal/guildconfig/config.go:122-162 | After a save, a command is enabled just when the plugin and the command were |
| CommandCatalog.Runtime.Refresh | internal/runtime/discord/catalog/runtime.go:65-112 | The loops build the snapshot of first claimants, with statistics to match; a store out of order leaves the snapshot alone |
| CommandCatalog.AddPlugin | internal/runtime/discord/catalog/runtime.go:141-168 | The inner loop grants each name to the plugin unless it is taken or builtin, by kind |
| CommandCatalog.RuntimeStats | internal/runtime/discord/catalog/stats.go:20-47 | The counters are the sizes of the sets they count, in any map order |
| CommandCatalog.Runtime.SetModuleEnabled | internal/runtime/discord/catalog/runtime.go:216-233 | Its refusals, and the stored states afterwards |
| CommandCatalog.Runtime.ResetModule | internal/runtime/discord/catalog/runtime.go:235-248 | Its refusals, and the stored states afterwards |
| CommandCatalog.FirstClaimantWins | internal/runtime/discord/catalog/runtime.go:141-168 | A name is granted exactly when some eligible claim is made to it, and to the first |
| CommandCatalog.ModuleOf | internal/runtime/discord/catalog/modules.go:20-58 | Each module listed is that of its plugin or builtin, with the state stored for it, else its entry in the modules file, else the defaults there in their order |
| CommandCatalog.RefreshedNames | internal/runtime/discord/catalog/runtime.go:65-170 | The whole snapshot in terms of the listing: a plugin name is granted exactly when an enabled plugin offers it and, for a slash name, no builtin has it; to the first to offer it |
| CommandCatalog.GrantedToFirstOffer | internal/runtime/discord/catalog/runtime.go:114-170 | The same for the names of one kind, for any set of reserved names |
| CommandCatalog.BuiltinToFirst | internal/runtime/discord/catalog/runtime.go:65-112 | A builtin name belongs to the first enabled builtin module that has it, and to its first command of that name |
| CommandCatalog.PluginNamesToFirst | internal/runtime/discord/catalog/runtime.go:114-170 | A plugin command name of each kind belongs to the first enabled plugin, in listing order, that claims it; a slash name only if no builtin has it |
| CommandCatalog.NamesDisjoint | internal/runtime/discord/catalog/stats.go:20-47 | Order and table hold the same commands once each, no plugin slash name is a builtin's, and the slash count is the size of the union |
| CommandCatalog.ToggleThenRefresh | internal/runtime/discord/catalog/runtime.go:211-248 | After set and refresh a toggleable module is what was set, after reset and refresh its default, and no other module changed |

## Left out

- GoText.ToLower: what becomes of letters outside ASCII is a table left open (`LOWERED`); nothing
  depends on what is in it.
- DefinitionValidator.Validate: faults are an enumeration; the texts of error messages and the
  paths in them are not modelled.
- RouteResolution.ResolveInvocation: `Invocation.Validate` is a flag of the invocation.
- OutcomeValidation.ValidateOutcome: `Outcome.Validate` is a flag of the outcome, and operations
  that show no component and open no modal are one case; `ValidateCheckDecision` and the response
  rules that read no catalog are not modelled.
- RuntimeOptions.ValidateRuntimeOptions: numbers are integers, reals, infinities and NaN; float
  rounding is not modelled.
- Deep copies of definitions and signatures: they are values here, so aliasing of slices is not
  modelled.
- GuildListCache.GuildCache.Enter: access tokens are their keys; cloning of lists is not modelled,
  and panics inside a fetch are not.
- RejectionDispatcher.Dispatcher.Launch: a nil dispatcher, a nil handler and a dispatcher without
  channels, which do nothing, are left out, as are logging and the failure callback.
- RejectionDispatcher.Drains: handlers and rejection jobs are taken to return or panic in the end.
- TokenBucket.Limiter.Allow: reals instead of floats, and `Sub` does not saturate after 292 years.
- MigrationRunner.Up: times of rows are left out; SQL is a transaction that commits or not; that
  the metadata tables answer is a parameter. Which of two broken rows is reported is not modelled.
- MigrationFiles.LoadDefinitions: a directory that cannot be read ends a run as a dying runner does.
- ValueTree.Validate: string escaping and float printing are a parameter; strings are bytes.
- BundleHash.HashDir: SHA-256 and base64 are taken to be injective, so a hash is the bytes fed to it.
- BundleRepositories.LocalRepository.MaterializeBundle: temporary directories, state file text and
  I/O errors other than the copy limits are left out; empty directories are not modelled.
- BundleRepositories.ObjectStoreRepository.MaterializeBundle: directory arguments are not trimmed
  again; the names made here carry no whitespace.
- BundlePaths.ResolvesWithin: slash-separated paths only.
- BundleStores.StoreKey: the plugin ids `.`, `..` and `/`, which joining paths would clean away, are
  names like any other.
- Removing plugin roots and listing them.
- FieldChunker.EmbedFieldChunked: stray bytes that together would decode to a rune stay apart, and a
  stray byte is known by the rune it was cut from.
- GuildConfig.Load: JSON text is its members; a text that does not parse is one case.
- CommandCatalog.Runtime.Refresh: the listing of modules carries no command names, locales or
  signatures beyond a flag; `GuildCommandEnabled` and the enabled jobs and subscribers are one-line
  reads of the snapshot and are left out.
- CommandCatalog.Runtime.SetModuleEnabled: the actor and the time of a change are left out.
- Reminders, the marketplace, HTTP handlers, sessions and the dashboards are not modelled.
