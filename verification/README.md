# RAGdoll: a verified model of its core algorithms and protocols

RAGdoll is a multi-tenant pipeline platform. This project models the parts of
it whose correctness does not show from reading one body: the stage projector,
lease-based leader election with the cron scheduler it guards, the bulk chunker, the
configuration resolver, scoped RBAC with its caches, three single-flight
caches, the job consumer, the Builder rooms, cursor pagination, session token
revocation and the repository file layout.

`dafny verify dfyconfig.toml` checks everything.

## How the model is made

- Code that updates state in place is a class or a method with loops whose
  contract gives the new state, as a function of the old one or as a property of
  the result. What the code is for is then proved about those functions.
- Asynchronous code is cut at its `await`s. A class holds the pieces between
  them; a state machine with the same step functions holds every interleaving of
  requests, replies, settlements and clean-ups. Theorems about it quantify over
  every run.
- Clocks, host functions, the network and random ids are parameters. Hash,
  signature, JSON and base64url are abstract functions; injectivity and
  invertibility are named hypotheses (`CollisionFree`, `Faithful`, `FaithfulFor`).
- Numbers are mathematical. Where fractions matter (expiry in seconds, token
  deadlines) they are reals.

| file | models |
|---|---|
| `StageGraph.dfy`, `StagesProjection.dfy` | paths, cycles, longest paths; the stage projector |
| `LeaderElection.dfy` | the Redis lease and its pods |
| `Schedules.dfy`, `Scheduler.dfy` | the schedule table; `prime` and `tick` |
| `CronFleet.dfy`, `FleetTick.dfy` | both together: the ticks of all pods, cut at their awaits; one tick alone |
| `BulkIndex.dfy`, `BulkWire.dfy` | the bulk chunker and its retries; its bodies in bytes |
| `ConfigResolver.dfy`, `ConfigEntries.dfy` | the scope-ordered configuration resolver; what it shows and reports |
| `Scopes.dfy`, `Authz.dfy` | scope strings; catalog, evaluator, `Authorizer` |
| `AuthzRuns.dfy`, `AuthzBuilds.dfy` | the `Authorizer`'s caches while reads, writes and invalidations overlap; one build alone |
| `TokenSource.dfy`, `ClientRegistry.dfy`, `RetryableLazy.dfy` | the single-flight caches |
| `NatsConsumer.dfy` | redelivery policy and pull loop |
| `BuilderRooms.dfy`, `RoomMembers.dfy` | rooms of the WebSocket server; who is in them and who is told |
| `ExecutionsPage.dfy` | cursor pagination of executions |
| `SessionTokens.dfy` | session tokens and the revocation store |
| `RepoLayout.dfy` | repository paths and their parser |
| `Sorting.dfy`, `Strings.dfy`, `Arithmetic.dfy`, `Wrappers.dfy` | stable sort, filter, split, join, products, option, result |

## Where the code differs from what it says

Each of these is stated as theorems about the code as it is: an input or a run
that shows it, and where a promise fails the condition under which it holds.

- Bulk limit: it counts UTF-16 units, not bytes. It holds in bytes for the batches
  written in an alphabet if and only if the alphabet is ASCII
  (`WireLimitHoldsIff`, `WireLimitExceeded`).
- Stages: the inputs of a node are all in earlier rows if and only if the graph has
  no cycle; edges inside the pinned last row exist as soon as it has one
  (`EdgesGoDown`, `InputsEarlierIffAcyclic`, `PinnedRowHasEdges`). Self-loops are
  ignored, not treated as cycles (`SelfLoopsChangeNothing`).
- `parseScope` inverts `scopeToString` if and only if the tenant has no slash and
  the environment or pipeline no line terminator, which `.+` does not match
  (`ParseInvertsPrint`).
- Config: a value without a scope id applies to every request that names no
  environment id, or no pipeline version, if that is its scope, since both are
  undefined (`UnscopedApplies`).
- Token source: the empty audience and no audience share a cache key, so one may
  be served the other's token (`EmptyAudienceShares`).
- Leader election: the split-brain bound needs distinct pod ids; with a reused
  `WORKER_ID` two pods lead at the same moment (`SharedTokenSplitsBrain`).
- Scheduler: `markRun` bounds what several leaders fire twice to once per pod and
  arming of a row, not to once (`FiresPerArming`, `PausedLeaderFiresAgain`). The
  bound holds per arming and not per instant: a late mark can arm a row for an
  instant already past (`LateMarkGoesBack`) or one already fired, which one pod
  then fires twice (`PodFiresInstantTwice`). The fleet fires each instant at most
  once while leases cover the ticks (`EachInstantOnce`). A mark that fails after
  the enqueue fires the row again (`UnmarkedFiresAgain`).
- Authorizer: closures follow every write at once if writes are followed by their
  invalidation, no answer waits to be cached during a write and no read throws
  (`DisciplineKeepsClosuresCurrent`; for one user, `CurrentSinceInvalidation`).
  Otherwise a failed read of the role table is cached as the built-in defaults
  (`FailedReadSticks`, `DefaultsStillAllow`), a failed read of a user's grants as
  none, for the user and for the user's API keys (`FailedGrantReadSticks`,
  `FailedGrantReadDeniesKeys`), and an overtaken read as the old grants or roles
  (`LateFillGoesStale`, `LateRolesGoStale`), so that what was revoked is still
  allowed (`RevokedStillAllowed`, `RemovedRoleStillAllows`).
- `closeClient` disposes through the driver now registered for the kind, which is
  the one that built the client if and only if no other registered since is in
  force (`BuilderDisposesUnlessReplaced`, `WrongDriverDisposes`).
- Consumer: a budget above 25 never terminates the message (`AlwaysFailing`), a
  budget of 0 means 3 (`ZeroAttemptsMeansDefault`), a concurrency below 1 means 1
  (`ZeroConcurrencyRunsOne`).
- Rooms: the reaper is described as reaping idle members. It never takes out a
  live one; it only removes forgotten connections that a late join put back, as
  after the shutdown hook (`ReaperOnlyTakesGhosts`, `LateJoinLeavesGhost`,
  `JoinAfterShutdown`).
- Revocation: `verify` reads the clock twice. If the token expires between the
  readings the store has forgotten the revocation and the token is accepted once
  more (`RevokedVerifiesAcrossExpiry`); with a fractional expiry this needs no
  second reading (`ForgettingMakesDifferenceIff`).

## Model

| member | source | states |
|---|---|---|
| StageGraph.PlacedIsLongest | packages/pipeline-spec/src/stagesProjection.ts:70-97 | In any partial layering that puts roots at 0 and every other placed node one past its deepest dependency, a placed node's stage is the length of the longest path reaching it from a root |
| StageGraph.PlacedUntainted | packages/pipeline-spec/src/stagesProjection.ts:76-93 | A placed node has no ancestor on a cycle |
| StageGraph.UnplacedTainted | packages/pipeline-spec/src/stagesProjection.ts:94-106 | At a fixpoint an unplaced node is on a cycle or reachable from one |
| StageGraph.RelistedIsSame | packages/pipeline-spec/src/stagesProjection.ts:50-58 | Order, repetition, self-loops and edges out of the set do not change the graph |
| StagesProjection.BuildDeps | packages/pipeline-spec/src/stagesProjection.ts:50-58 | The dependency map lists, for each node, exactly its in-set, non-self predecessors, each once |
| StagesProjection.DeepestDep | packages/pipeline-spec/src/stagesProjection.ts:78-88 | Resolved if and only if every dependency has a stage; then the result is the deepest one's |
| StagesProjection.Sweep | packages/pipeline-spec/src/stagesProjection.ts:75-93 | A round keeps the layering, places as many nodes as it lists, and lists none only at the fixpoint |
| StagesProjection.Relax | packages/pipeline-spec/src/stagesProjection.ts:60-97 | The rounds end at a fixpoint of the layering; the safety counter never ends them |
| StagesProjection.PinRest | packages/pipeline-spec/src/stagesProjection.ts:99-106 | Placed nodes keep their stage, all others get the one stage past the deepest |
| StagesProjection.Bucket | packages/pipeline-spec/src/stagesProjection.ts:110-115 | The buckets are exactly the inhabited stages, each holding exactly its nodes once |
| StagesProjection.SortedKeysAreContiguous | packages/pipeline-spec/src/stagesProjection.ts:116-121 | Stage numbers without gaps, sorted, are their own positions: the renumbering is the identity |
| StagesProjection.ListRows | packages/pipeline-spec/src/stagesProjection.ts:116-121 | Row i is the sorted bucket i, for every stage and nothing else |
| StagesProjection.ProjectStages | packages/pipeline-spec/src/stagesProjection.ts:42-123 | For every graph: rows numbered from 0, non-empty, without repetition, sorted; every node in a row; a node with no ancestor on a cycle in the row of its longest path; the others in one row past all of those |
| StagesProjection.RowsPartition | packages/pipeline-spec/src/stagesProjection.ts:108-121 | No node is in two rows |
| StagesProjection.EdgesGoDown | packages/pipeline-spec/src/stagesProjection.ts:2-9 | An edge goes to a strictly later row if and only if no cycle reaches its source, and stays in its row if and only if one does |
| StagesProjection.InputsEarlierIffAcyclic | packages/pipeline-spec/src/stagesProjection.ts:4-9 | The inputs of every node are all in earlier rows if and only if no node is on a cycle |
| StagesProjection.PinnedRowHasEdges | packages/pipeline-spec/src/stagesProjection.ts:11-12 | Two nodes that feed each other share the only row |
| StagesProjection.SelfLoopsChangeNothing | packages/pipeline-spec/src/stagesProjection.ts:54-55 | Graphs that differ in self-loops only have the same projections |
| StagesProjection.TaintedAreLastRow | packages/pipeline-spec/src/stagesProjection.ts:99-106 | The last row is exactly the nodes on or reachable from a cycle, when there are any |
| StagesProjection.OrderIrrelevant | packages/pipeline-spec/src/stagesProjection.ts:42-123 | Two listings of the same graph have the same rows with the same nodes in the same sort order |
| LeaderElection.OthersLeaseUntouched | apps/worker/src/leader-election.ts:116-133 | No acquire, renew or release of a pod changes a live lease held under another token |
| LeaderElection.RedisLeaderElection.BeginIteration | apps/worker/src/leader-election.ts:198-214 | Which request an iteration sends: none when stopped, renew when leading, else acquire |
| LeaderElection.RedisLeaderElection.EndIteration | apps/worker/src/leader-election.ts:204-223 | How the reply changes the flags, and the pause that follows; `AnswerDecides` says what that means for leadership |
| LeaderElection.RedisLeaderElection.AbortIteration | apps/worker/src/leader-election.ts:225-235 | An error gives up leadership and backs off |
| LeaderElection.RedisLeaderElection.BeginStop | apps/worker/src/leader-election.ts:265-272 | Stopping is recorded before the release is sent, which only the first call does |
| LeaderElection.RedisLeaderElection.EndStop | apps/worker/src/leader-election.ts:272-273 | After the release the flag is cleared and the pod stays stopped |
| LeaderElection.SplitBrainBound | apps/worker/src/leader-election.ts:188-254 | In every run of pods with distinct ids, of two that report leadership at once one had its last successful acquire or renew a lease time or more ago |
| LeaderElection.LastOkIsLastGrant | apps/worker/src/leader-election.ts:204-223 | In every run that time is when Redis last granted the pod an acquire or renew, if it ever did |
| LeaderElection.AnswerDecides | apps/worker/src/leader-election.ts:197-236 | In every run the end of an iteration decides: a pod that was not stopped leads afterwards if and only if Redis granted its acquire or renew; a denial or an error ends leadership; only a pod that just took the lease goes on without a pause |
| LeaderElection.LeadsIffLastGranted | apps/worker/src/leader-election.ts:188-236 | In every run a pod reports leadership if and only if it has not been stopped and the last answer its loop got was a grant |
| LeaderElection.StoppedForGood | apps/worker/src/leader-election.ts:188-275 | Once stopped a pod never reports leadership again and sends nothing after its release |
| LeaderElection.StopHandsOver | apps/worker/src/leader-election.ts:116-275 | From every state of a run in which a leader holding the lease is stopped: once its release has reached Redis, the next pod to try leads, with no time lost |
| LeaderElection.NeverDisplaced | apps/worker/src/leader-election.ts:125-133 | A holder whose requests reach Redis less than a lease time apart keeps the lease, and no one else is granted it |
| LeaderElection.SharedTokenSplitsBrain | apps/worker/src/leader-election.ts:152-152 | With one token for two pods a run exists in which both lead at the same moment, both freshly granted |
| Scheduler.CronScheduler.RunRow | apps/worker/src/scheduler.ts:160-274 | One due row: next instant first, grant re-check, enqueue, then mark, with each failure where it happens |
| Scheduler.CronScheduler.Mark | packages/db/src/postgres/pipelines.ts:465-479 | Sets both run times of one row and nothing else |
| Scheduler.CronScheduler.RunTick | apps/worker/src/scheduler.ts:148-276 | The whole tick in place equals the row-by-row specification, leadership gate included |
| Scheduler.CronScheduler.RunPrime | apps/worker/src/scheduler.ts:112-146 | Priming in place equals its specification |
| Scheduler.TickFrame | apps/worker/src/scheduler.ts:158-275 | A tick touches only due rows, fires only due rows at its own time, and on success reports as many as it put on the queue |
| Scheduler.TickOutcomes | apps/worker/src/scheduler.ts:163-273 | In a successful tick: an unparsable cron leaves its row untouched and due, a denied one only advances its next run, every other due row has its job put on the queue exactly once and is marked run and is no longer due |
| Scheduler.TickQueues | apps/worker/src/scheduler.ts:158-273 | In any tick, failed or not: exactly which jobs are added to the queue, one for each row that the tick gets to and that may fire |
| Scheduler.TickFails | apps/worker/src/scheduler.ts:148-274 | A tick fails if and only if it has leadership and some due row's re-check, enqueue or mark fails, with the error of the first; without leadership it does nothing |
| Scheduler.MarkedWasQueued | apps/worker/src/scheduler.ts:263-264 | In any tick a row marked as run had its job put on the queue, and a row that fails is unchanged and still due, on the queue only if its mark was all that failed |
| Scheduler.FiredWereAllowed | apps/worker/src/scheduler.ts:209-254 | Everything enqueued was due, had a next instant and passed the re-check that applies to it |
| Scheduler.PrimeEffects | apps/worker/src/scheduler.ts:112-146 | Priming gives exactly the enabled rows without a next run the next instant of their cron, counts them, fires nothing and does nothing the second time |
| Scheduler.FiresAreSeparated | apps/worker/src/scheduler.ts:157-264 | In every run of non-overlapping ticks with a clock that does not go back, between a marked fire of a schedule and any later one lies an instant of its cron |
| Scheduler.FiresBounded | apps/worker/src/scheduler.ts:157-264 | If all fires of a schedule were marked, they are one more than a set of distinct cron instants elapsed between the first and the last |
| Scheduler.UnmarkedFiresAgain | apps/worker/src/scheduler.ts:263-264 | If the mark fails after the enqueue the row stays due and fires again |
| Scheduler.OverlapFiresTwice | apps/worker/src/scheduler.ts:158-264 | Two ticks that listed the same due row both fire it |
| CronFleet.TickFiresOnce | apps/worker/src/scheduler.ts:157-274 | In every run of any pods' ticks cut at their awaits: a tick fires a row at most once, and a mark ends the arming it was for |
| CronFleet.PodFiresOnce | apps/worker/src/scheduler.ts:149-274 | If no pod's ticks overlap and marks land, each pod fires an arming of a row at most once, however many lead |
| CronFleet.FiresPerArming | apps/worker/src/leader-election.ts:30-39 | So an arming, a mark's setting of the next run, is fired at most as often as there are pods that ticked; one instant can be armed for more than once |
| CronFleet.CoveredIsExclusive | apps/worker/src/leader-election.ts:8-17 | Ticks covered by their pods' leases are all of one pod |
| CronFleet.EachInstantOnce | apps/worker/src/leader-election.ts:18-39 | While leases cover the ticks, the whole fleet fires each instant of a schedule at most once and in order |
| CronFleet.PausedLeaderFiresAgain | apps/worker/src/leader-election.ts:30-33 | A leader that pauses for its lease's time between listing and enqueuing fires what its successor has fired and marked |
| CronFleet.LateMarkGoesBack | apps/worker/src/scheduler.ts:264-264 | Its late mark overwrites the successor's: if an instant came up between the two ticks, a row armed for a moment still to come is armed for that past instant and is due |
| CronFleet.PodFiresInstantTwice | apps/worker/src/leader-election.ts:30-39 | A run in which no pod's ticks overlap and every mark lands, and one pod fires the same instant of a schedule twice, because another pod's late mark armed the row for it again |
| FleetTick.TickAlone | apps/worker/src/scheduler.ts:148-276 | From every state of a run of the fleet, a leader's tick that nothing interrupts and in which nothing throws leaves the table, and puts on the queue the jobs, that the scheduler's whole tick gives |
| BulkIndex.TakeChunk | packages/opensearch/src/client.ts:283-288 | A chunk has a document, is within the limit or is one document, and the next would not fit |
| BulkIndex.PostChunk | packages/opensearch/src/client.ts:291-317 | The body is sent once, or twice after a 429; the last answer decides: success if no item failed, else `ItemErrors` or its status |
| BulkIndex.BulkIndex | packages/opensearch/src/client.ts:273-353 | The requests are those of the chunks in order, two for a chunk if and only if its first was answered 429. On success the chunks split all documents within the limit and each one's last answer reports no failed item; on failure that holds for the earlier chunks and the last answer of all is the error |
| BulkIndex.BodyLength | packages/opensearch/src/client.ts:276-290 | The body's length is the sum of the lines' `bytes` |
| BulkIndex.PostedBodyLength | packages/opensearch/src/client.ts:275-290 | Every body posted is within the limit or carries a single document |
| BulkIndex.ChunksConcatenate | packages/opensearch/src/client.ts:281-289 | The chunks joined in order are the input |
| BulkIndex.GreedyAhead | packages/opensearch/src/client.ts:282-288 | After any number of chunks no other split within the limit has got further |
| BulkIndex.GreedyMinimal | packages/opensearch/src/client.ts:282-288 | No contiguous split within the limit has fewer chunks |
| BulkIndex.RequestsPerChunk | packages/opensearch/src/client.ts:291-317 | k chunks cost between k and 2k requests |
| BulkIndex.FewestRequests | packages/opensearch/src/client.ts:281-317 | The requests sent are at most twice the chunks of any split within the limit |
| BulkWire.WireSize | packages/opensearch/src/client.ts:279-279 | The counted length is at most the encoded size and at least a third of it, and equal to it if and only if the text is ASCII |
| BulkWire.AsciiWithinOnWire | packages/opensearch/src/client.ts:275-290 | Every body of several documents posted for an ASCII batch is within the limit in bytes |
| BulkWire.WireLimitExceeded | packages/opensearch/src/client.ts:275-290 | For any one character beyond ASCII, two documents with one text field of it that are posted as one chunk and over the limit in bytes |
| BulkWire.WireLimitHoldsIff | packages/opensearch/src/client.ts:265-290 | The limit holds in bytes for every batch written in an alphabet if and only if the alphabet is ASCII |
| ConfigResolver.ConfigResolver.constructor | packages/config-resolver/src/index.ts:31-33 | A definition given twice keeps its first place and its last content |
| ConfigResolver.ConfigResolver.Resolve | packages/config-resolver/src/index.ts:35-98 | Strict mode fails exactly when something is reported, with all that is; otherwise each key has its specified entry, or none |
| ConfigResolver.ResolveKeys | packages/config-resolver/src/index.ts:43-84 | The loop over definitions: all reports in order, and every key's entry |
| ConfigResolver.ResolveKey | packages/config-resolver/src/index.ts:52-83 | One key: its violations and its entry, with default, locking and redaction |
| ConfigResolver.ReportCandidates | packages/config-resolver/src/index.ts:52-54 | The violations of a key's candidates in order |
| ConfigResolver.RejectedHasViolation | packages/config-resolver/src/index.ts:118-152 | A candidate is rejected if and only if a violation is reported for it |
| ConfigResolver.WinnerIsDeclared | packages/config-resolver/src/index.ts:46-59 | The winner is the last in input order of the highest scope among the eligible candidates; the default is used exactly when there is none |
| ConfigResolver.LockCapsWinner | packages/config-resolver/src/index.ts:56-56 | Under a lock every applicable candidate is at or below the locked scope |
| ConfigResolver.LockCapsEntry | packages/config-resolver/src/index.ts:131-137 | Under a lock the entry comes from the locked scope or a more trusted one |
| ConfigResolver.LockNonInterference | packages/config-resolver/src/index.ts:46-83 | Any candidates added or removed strictly above a lock, locked or not, leave the key's entry unchanged |
| ConfigResolver.OverridesCannotUnlock | packages/config-resolver/src/index.ts:36-42 | No runtime overrides change a key that is locked below runtime |
| ConfigResolver.ReorderAcrossScopes | packages/config-resolver/src/index.ts:47-50 | Interleaving candidates of different scopes differently leaves the sorted list unchanged |
| ConfigResolver.InterleavedViolations | packages/config-resolver/src/index.ts:35-84 | Such requests report the same violations |
| ConfigResolver.InterleavingIrrelevant | packages/config-resolver/src/index.ts:35-84 | Such requests resolve to the same values |
| ConfigResolver.StrictThrows | packages/config-resolver/src/index.ts:61-88 | Something is reported if and only if, for some key, a candidate of this request is not eligible or a required value is missing |
| ConfigResolver.UnscopedApplies | packages/config-resolver/src/index.ts:100-116 | For every scope, when a value without a scope id applies |
| ConfigResolver.UnscopedLockCaps | packages/config-resolver/src/index.ts:105-110 | A locked one caps the key for every request that names no id at its scope |
| ConfigEntries.ShowsWinner | packages/config-resolver/src/index.ts:57-83 | A key's entry shows its winning candidate and names it as the source: as it is with redaction off, else nothing of a secret and the redactor's output for what is only sensitive; it is locked if the definition says so or a candidate the request may take is |
| ConfigEntries.ShowsDefault | packages/config-resolver/src/index.ts:57-83 | Without an eligible candidate the same of the default |
| ConfigEntries.SecretsStayHidden | packages/config-resolver/src/index.ts:69-73 | Unless redaction is off, two requests that differ in the values of secrets only resolve to equal values |
| ConfigEntries.EntryIsAllowed | packages/config-resolver/src/index.ts:118-148 | An entry that is not the default's comes from an allowed scope and shows a permitted value |
| ConfigEntries.ReportedIff | packages/config-resolver/src/index.ts:52-63 | Exactly which violations are reported, reason by reason |
| ConfigEntries.FitsTypes | packages/config-resolver/src/index.ts:171-188 | Which types a value fits |
| ConfigEntries.ScopedApplies | packages/config-resolver/src/index.ts:100-116 | A value with a scope id applies to the requests it names and no others |
| Scopes.ParsesIffSpelled | packages/authz/src/index.ts:181-188 | Any string is parsed to a tenant's scope if and only if it spells that scope: a tenant without slash, and perhaps one environment or pipeline on one line |
| Scopes.TrimmedMeans | packages/authz/src/index.ts:167-179 | Trimming takes white space off both ends and leaves none there |
| Scopes.ParseInvertsPrint | packages/authz/src/index.ts:167-188 | Parsing a printed scope gives the trimmed parts back if and only if the tenant has no slash and the leaf no line terminator |
| Scopes.PrintedTenant | packages/authz/src/index.ts:167-188 | A printed scope is never parsed to another tenant than its own |
| Scopes.CoversReflexive | packages/authz/src/index.ts:196-208 | Every scope covers itself, the global one covers all and is covered by itself alone |
| Scopes.CoversAntisymmetric | packages/authz/src/index.ts:196-208 | Two strings that cover each other are equal |
| Scopes.CoversTransitive | packages/authz/src/index.ts:196-208 | Covering is transitive on all strings |
| Scopes.CoversMeansAncestor | packages/authz/src/index.ts:190-208 | On printed scopes covering is being the global scope, the same scope, or the tenant of the other |
| Authz.BuildCatalog | packages/authz/src/index.ts:227-238 | The catalog built in place is the specified one |
| Authz.CatalogDescribes | packages/authz/src/index.ts:227-238 | A role is in the catalog with a permission if and only if a row says so |
| Authz.Evaluate | packages/authz/src/index.ts:253-266 | Allowed if and only if some grant covers the scope and its role has the permission or all |
| Authz.AllowsMonotone | packages/authz/src/index.ts:253-266 | More grants, wider grants and more role permissions never turn allow into deny |
| Authz.MoreRowsEnlarge | packages/authz/src/index.ts:227-238 | More rows, in any order, make a larger catalog |
| Authz.Authorizer.Invalidate | packages/authz/src/index.ts:415-419 | Forgets the catalog and one user's grants, or everyone's for a missing or empty id |
| Authz.Authorizer.FinishCatalog | packages/authz/src/index.ts:424-435 | The catalog made of the answer is cached, with the defaults for an empty or failed read |
| Authz.Authorizer.FinishGrants | packages/authz/src/index.ts:457-467 | The answer is cached; a failed read as no grants |
| Authz.Authorizer.FinishOwner | packages/authz/src/index.ts:480-489 | The answer is cached; a failed read is not |
| Authz.Authorizer.GetCatalog | packages/authz/src/index.ts:421-436 | The cached catalog, or the one read and cached |
| Authz.Authorizer.GetGrants | packages/authz/src/index.ts:447-468 | Carried roles at the own scope, or the cached or read grants; a failed read is cached as none |
| Authz.Authorizer.GetOwnerGrants | packages/authz/src/index.ts:476-490 | The cached or read grants; a failed read is not cached |
| Authz.Authorizer.AuthorizeClosure | packages/authz/src/index.ts:501-549 | The caches and the closure after one build |
| Authz.Decide | packages/authz/src/index.ts:538-548 | The closure's decision: the snapshot, and the owner's grants for an API key |
| Authz.FallbackOnlyWithoutTenant | packages/authz/src/index.ts:531-543 | A resource that names a tenant is decided alike whatever the fallback, one that names none as if it named the fallback |
| Authz.OtherTenantDenied | packages/authz/src/index.ts:538-548 | Grants within one tenant allow nothing on a resource that names another |
| Authz.GrantReaches | packages/authz/src/index.ts:196-208 | Where one grant reaches: everywhere, its tenant, its environment, or its pipeline |
| AuthzRuns.CurrentSinceInvalidation | packages/authz/src/index.ts:404-549 | In every run: from an invalidation of the user (or the start) with no earlier answer left to be cached, as long as no read for the user or of the role table throws and no write changes the user's grants or the role table, every closure begun for the user decides exactly as the uncached store; an API key as the conjunction of its carried roles and its owner's live grants |
| AuthzRuns.DisciplineKeepsClosuresCurrent | packages/authz/src/index.ts:400-403 | In every run in which the store is never down and each write, made while no answer waits to be cached, is followed by an invalidation of those it concerns: every closure begun after the invalidation decides exactly as the uncached store until the next write |
| AuthzRuns.DisciplineKeepsClean | packages/authz/src/index.ts:400-419 | In such a run nothing in the caches is out of date for any user, and no bad answer is on its way, at any moment not between a write and its invalidation |
| AuthzRuns.WriteThenInvalidate | packages/authz/src/index.ts:400-419 | A write followed by the invalidation of whom it concerns, with no read on its way, leaves nothing dirty |
| AuthzRuns.FailedReadSticks | packages/authz/src/index.ts:424-435 | A run in which the store is down at the first read and later closures decide by the built-in roles |
| AuthzRuns.DefaultsStillAllow | packages/authz/src/index.ts:424-435 | ... so that a role only the built-in table knows may do everything in its scope, where the store allows it nothing |
| AuthzRuns.FailedGrantReadSticks | packages/authz/src/index.ts:457-467 | A run in which a user's read throws once and later closures of the user allow nothing; they are wrong on exactly the requests the store's own grants allow |
| AuthzRuns.FailedGrantReadDeniesKeys | packages/authz/src/index.ts:476-490 | In that run the user's API keys are denied everything as well |
| AuthzRuns.LateFillGoesStale | packages/authz/src/index.ts:455-467 | A run in which an answer overtaken by a write and its invalidation is cached and decides later closures |
| AuthzRuns.RevokedStillAllowed | packages/authz/src/index.ts:401-467 | In that run with the user's only, all-powerful grant revoked: later closures allow every request, the store none |
| AuthzRuns.LateRolesGoStale | packages/authz/src/index.ts:424-435 | A run in which an answer about the role table, overtaken by a rewrite of the table and an invalidation of everything, is cached and decides later closures |
| AuthzRuns.RemovedRoleStillAllows | packages/authz/src/index.ts:401-435 | In that run with an all-powerful role taken out of the table: a service that carries it may still do everything in its scope, where the store allows it nothing |
| AuthzBuilds.BuildAlone | packages/authz/src/index.ts:501-549 | From every world of a run, a build that nothing interrupts leaves the caches and returns the closure that the specification of `AuthorizeClosure` gives, whatever is cached and whether or not the store is up |
| TokenSource.TokenSource.BeginGet | packages/connection-sdk/src/token-source.ts:93-136 | Serves a token that is not stale, else joins the mint in flight, else starts one and takes the slot |
| TokenSource.TokenSource.FinishGet | packages/connection-sdk/src/token-source.ts:137-143 | The waiter caches the minted token under its own key with its refresh deadline |
| TokenSource.TokenSource.ReleaseSlot | packages/connection-sdk/src/token-source.ts:131-135 | The slot is cleared only by the mint that owns it |
| TokenSource.TokenSource.Invalidate | packages/connection-sdk/src/token-source.ts:105-111 | Forgets one or all tokens and leaves mints in flight alone |
| TokenSource.TokenSource.Clear | packages/connection-sdk/src/token-source.ts:113-117 | Nothing is cached and no slot is taken |
| TokenSource.RefreshDeadline | packages/connection-sdk/src/token-source.ts:146-151 | The deadline is within the skew before the expiry if and only if the skew is not negative, and leaves at least half of a positive lifetime |
| TokenSource.SingleFlight | packages/connection-sdk/src/token-source.ts:124-143 | In every interleaving without `clear` at most one mint per audience key is pending |
| TokenSource.ServedOwnAudience | packages/connection-sdk/src/token-source.ts:93-143 | In every interleaving a token served was minted for the audience asked for, up to the shared key of no audience and the empty one |
| TokenSource.EmptyAudienceShares | packages/connection-sdk/src/token-source.ts:94-142 | A run in which a get for the empty audience is served the token minted for no audience |
| TokenSource.ReleaseOnlyOwnSlot | packages/connection-sdk/src/token-source.ts:131-135 | An older mint that settles never removes a newer one's slot |
| TokenSource.FailedMintRetries | packages/connection-sdk/src/token-source.ts:124-137 | Once earlier mints have been cleaned up and nothing is cached the next get starts a new one |
| TokenSource.ServedUntilDeadline | packages/connection-sdk/src/token-source.ts:93-151 | In every run a token a waiter cached is served to the next `get` for its audience, without a mint, exactly until the skew, or half of the time it had left, before it expires |
| TokenSource.WaiterIsAnswered | packages/connection-sdk/src/token-source.ts:124-143 | In every run a `get` that waits joins the mint in flight or starts one, and is given its token once, or nothing if it failed |
| TokenSource.InvalidationForgets | packages/connection-sdk/src/token-source.ts:105-111 | In every run a `get` after an invalidation waits for a mint until a waiter has cached a token again; mints in flight go on |
| TokenSource.ClearMintsAnew | packages/connection-sdk/src/token-source.ts:113-117 | In every run the first `get` for an audience after `clear` mints, although an earlier mint may still run |
| ClientRegistry.Registry.BeginAcquire | packages/connection-sdk/src/index.ts:318-341 | Serves the cached client, else joins, else fails without a driver, else creates and takes the slot |
| ClientRegistry.Registry.StoreClient | packages/connection-sdk/src/index.ts:336-339 | The created client is cached with its kind |
| ClientRegistry.Registry.ReleaseSlot | packages/connection-sdk/src/index.ts:343-349 | Only the owner clears the slot |
| ClientRegistry.Registry.BeginClose | packages/connection-sdk/src/index.ts:389-405 | Forgets the client and names the driver of its kind, if one with a dispose hook is registered |
| ClientRegistry.Registry.Register | packages/connection-sdk/src/index.ts:279-290 | A kind has the driver registered last |
| ClientRegistry.Registry.Reset | packages/connection-sdk/src/index.ts:408-412 | All three tables are empty |
| ClientRegistry.SingleBuild | packages/connection-sdk/src/index.ts:318-352 | Without close or reset a connection has at most one `create()` that has not failed, ever |
| ClientRegistry.SameClientForAll | packages/connection-sdk/src/index.ts:318-352 | ... and all successful callers got the same client |
| ClientRegistry.FailedBuildRetries | packages/connection-sdk/src/index.ts:341-349 | After failed creates the next acquire starts a new one with the registered driver |
| ClientRegistry.DisposedThroughOwnKind | packages/connection-sdk/src/index.ts:389-405 | In every interleaving a client is disposed of only through the kind it was built for |
| ClientRegistry.BuilderDisposesUnlessReplaced | packages/connection-sdk/src/index.ts:393-404 | In every run the driver that built a client disposes of it on close if and only if no other driver registered for the kind since the build began is still in force |
| ClientRegistry.WrongDriverDisposes | packages/connection-sdk/src/index.ts:279-404 | A run in which another driver, registered after the client was built, disposes of it |
| ClientRegistry.CloseDisposesIff | packages/connection-sdk/src/index.ts:389-405 | Closing disposes of one client if the driver now registered for its kind has a hook, else of none |
| ClientRegistry.HandedWhileCached | packages/connection-sdk/src/index.ts:318-322 | In every run, once a client is stored every acquire is handed it at once until the connection is closed or the registry reset |
| ClientRegistry.CallerIsAnswered | packages/connection-sdk/src/index.ts:323-351 | In every run a caller that waits joins the build in flight or starts one, and is handed its client once, or nothing if it failed |
| ClientRegistry.ClosingForgets | packages/connection-sdk/src/index.ts:389-412 | In every run an acquire after a close or a reset is handed nothing until a client is stored again |
| ClientRegistry.ResetForgetsDrivers | packages/connection-sdk/src/index.ts:408-412 | In every run the first acquire after a reset fails without a trace if no driver has been registered since |
| ClientRegistry.SettlingUnblocks | packages/connection-sdk/src/index.ts:336-349 | A failed `create()` lets its callers go on and its slot be cleaned up at once, a successful one once its client is stored |
| RetryableLazy.RetryableLazy.Get | apps/worker/src/nats.ts:204-214 | Returns the kept promise or keeps the new attempt's |
| RetryableLazy.RetryableLazy.OnRejected | apps/worker/src/nats.ts:209-211 | A rejection drops the promise only if it is still the kept one |
| RetryableLazy.OneAttemptAtATime | apps/worker/src/nats.ts:198-219 | In every interleaving at most one attempt has not been rejected, all callers that got a value got the same, and a get after the rejections were handled attempts anew |
| RetryableLazy.CallerIsAnswered | apps/worker/src/nats.ts:204-214 | In every run a caller waits for the kept attempt, or the one it made, and is given once what that one resolved to |
| RetryableLazy.SettledForGood | apps/worker/src/nats.ts:204-214 | What an attempt settled to it stays |
| NatsConsumer.ProcessOne | apps/worker/src/nats.ts:390-452 | Each delivery is settled exactly once: acked, terminated or negatively acked with its delay |
| NatsConsumer.RunsOfFailure | apps/worker/src/nats.ts:63-72 | From any delivery on, how often a failing message still runs and how it ends |
| NatsConsumer.DelaysOfFailure | apps/worker/src/nats.ts:68-71 | The remaining delays sum to a difference of two powers of two times the backoff |
| NatsConsumer.AlwaysFailing | apps/worker/src/nats.ts:45-72 | With 1 to 25 attempts it runs exactly that often and the delays sum to backoff times (2^(attempts-1) - 1); it is terminated if and only if the budget is at most 25 |
| NatsConsumer.EventualSuccess | apps/worker/src/nats.ts:422-452 | A message that succeeds within its budget runs up to then and is acked |
| NatsConsumer.ZeroAttemptsMeansDefault | apps/worker/src/nats.ts:395-395 | A job enqueued with 0 attempts is tried as often as one without a budget |
| NatsConsumer.EnqueuedBudget | apps/worker/src/nats.ts:285-285 | A job is tried as often as it says, or as the queue's option says, or three times |
| NatsConsumer.SettlementMeans | apps/worker/src/nats.ts:390-452 | Undecodable: terminated. Else acked if and only if the handler succeeded; after a failure terminated at the last try, before that negatively acked with a doubling delay |
| NatsConsumer.PullLoop.OnMessage | apps/worker/src/nats.ts:455-463 | A message is taken up unless stopped; the next one waits when the limit is reached |
| NatsConsumer.PullLoop.OnFinished | apps/worker/src/nats.ts:457-457 | A finished delivery frees its own place |
| NatsConsumer.NeverMoreThanLimit | apps/worker/src/nats.ts:386-464 | In every run never more handlers than the concurrency, or one if it is less than one |
| NatsConsumer.EachSettledOnce | apps/worker/src/nats.ts:390-464 | In every run a delivery taken up is settled once, when its handler is done, as the policy says |
| NatsConsumer.SettledAsHandled | apps/worker/src/nats.ts:390-464 | ... namely as the end of its own handler called for |
| NatsConsumer.StopTakesNothing | apps/worker/src/nats.ts:455-456 | In every run nothing is taken up after a stop, and the next message ends the loop |
| NatsConsumer.FreeSlotIsUsed | apps/worker/src/nats.ts:455-463 | From every run that is not stopped, with fewer handlers running than the limit, the loop can go on and take the next message up |
| NatsConsumer.ZeroConcurrencyRunsOne | apps/worker/src/nats.ts:455-463 | With a concurrency below one a handler runs all the same |
| BuilderRooms.RoomServer.RosterFor | apps/api/src/websocket.ts:172-181 | The roster loop gives the presences of the members found, in order |
| BuilderRooms.RoomServer.SendRoster | apps/api/src/websocket.ts:183-191 | Every member found is sent the whole roster |
| BuilderRooms.RoomServer.LeaveRoom | apps/api/src/websocket.ts:193-200 | The new tables and messages of a leave, empty room dropped |
| BuilderRooms.RoomServer.OnConnect | apps/api/src/websocket.ts:229-245 | A new connection is in no room |
| BuilderRooms.RoomServer.OnJoin | apps/api/src/websocket.ts:293-319 | Both tables get the member, or nothing changes when forbidden |
| BuilderRooms.RoomServer.OnPresence | apps/api/src/websocket.ts:323-328 | Ignored outside the room, else touches the presence and sends the roster |
| BuilderRooms.RoomServer.OnEdit | apps/api/src/websocket.ts:329-363 | Error outside the room; else edits to the others, then the roster with the bumped presence |
| BuilderRooms.RoomServer.OnClose | apps/api/src/websocket.ts:367-371 | The loop over the connection's own rooms, then the connection is forgotten |
| BuilderRooms.RoomServer.Reap | apps/api/src/websocket.ts:381-401 | The sweep of all rooms in place equals its specification; each room it changed and kept is sent the roster of who is left |
| BuilderRooms.RoomServer.OnShutDown | apps/api/src/websocket.ts:212-223 | No connection can be looked up and no room is stored any more |
| BuilderRooms.RoomsAgree | apps/api/src/websocket.ts:167-200 | In every run without late messages an id is in a room if and only if its connection is live and has the room among its own; no stored room is empty in any run |
| BuilderRooms.RosterListsLiveMembers | apps/api/src/websocket.ts:172-181 | In every run the roster lists exactly the live members, each once, with current presence |
| BuilderRooms.EditReachesOthers | apps/api/src/websocket.ts:329-363 | In every run an edit reaches each other live member once and nobody else, then each member gets the fresh roster; from outside the room it reaches nobody |
| BuilderRooms.ReaperOnlyTakesGhosts | apps/api/src/websocket.ts:381-401 | In every run the reaper removes exactly the closed connections from a room, at any cutoff |
| BuilderRooms.ReaperIdlesWithoutGhosts | apps/api/src/websocket.ts:381-401 | It changes something if and only if there is one; without late messages it changes and sends nothing |
| BuilderRooms.LateJoinLeavesGhost | apps/api/src/websocket.ts:309-317 | A join processed after its connection was forgotten leaves it in the room until the next sweep, which restores every room |
| BuilderRooms.JoinAfterShutdown | apps/api/src/websocket.ts:212-317 | A run in which the shutdown hook has cleared both tables and a join from a socket still closing puts its connection back into a room, whose roster is empty |
| RoomMembers.LiveIff | apps/api/src/websocket.ts:212-245 | In every run a connection is live if and only if it was made, has not been closed and the server has not been shut down since |
| RoomMembers.MemberIff | apps/api/src/websocket.ts:193-322 | In every run a live connection is in a room if and only if it was let in and has not left since, whatever others and the reaper did |
| RoomMembers.PresenceIsOwn | apps/api/src/websocket.ts:309-363 | In every run a presence shows the focus and time of the connection's own last join, presence message or edit in the room |
| RoomMembers.JoinAndFocusTell | apps/api/src/websocket.ts:183-328 | In every run a join, and a presence message from a member, sends each live member the fresh roster once; one from outside sends nothing |
| RoomMembers.LeaveTells | apps/api/src/websocket.ts:193-200 | In every run a leave sends the remaining live members the roster without the one who left |
| RoomMembers.EditTellsLiveOnly | apps/api/src/websocket.ts:329-363 | An edit, from wherever it comes, sends nothing to a connection that is not live |
| RoomMembers.CloseTells | apps/api/src/websocket.ts:367-371 | In every run everyone who shared a room with a connection that closes is shown the room without it |
| ExecutionsPage.ParseInvertsEncode | packages/db/src/postgres.ts:386-406 | Parsing an encoded cursor gives its timestamp and id back |
| ExecutionsPage.BuildFilter | packages/db/src/postgres.ts:297-306 | The numbered clauses bind and hold of exactly the rows the filter wants |
| ExecutionsPage.AddCursor | packages/db/src/postgres.ts:310-319 | With the cursor's clause they hold of exactly the wanted rows older than the cursor, and fail to bind exactly when it does not cast |
| ExecutionsPage.ListExecutionsPage | packages/db/src/postgres.ts:290-355 | The page is the first `limit` rows, newest first, that match and are older than the cursor, with a cursor exactly when there are more, and the count of all matches |
| ExecutionsPage.PageMeans | packages/db/src/postgres.ts:290-355 | A page is in order, holds at most `limit` of the rows asked for after the cursor's place and leaves none out before its last; it has a cursor, to its last row, exactly if there are more; and the total |
| ExecutionsPage.FetchFailsIff | packages/db/src/postgres.ts:316-319 | The fetch fails exactly if the cursor decodes and does not cast |
| ExecutionsPage.RestAfterPage | packages/db/src/postgres.ts:313-350 | Below the last row of a page lies exactly the rest of the list, whatever changed above it |
| ExecutionsPage.EveryRowOnce | packages/db/src/postgres.ts:284-355 | Following the cursors to the end over changing tables shows every matching row of the first table exactly once, newest first |
| ExecutionsPage.WalkEnds | packages/db/src/postgres.ts:339-349 | After n pages there is a further cursor if and only if more than n full pages match |
| ExecutionsPage.EveryTableIsRead | packages/db/src/postgres.ts:284-355 | Following the cursors comes to an end on every table, and shows every row asked for once, newest first |
| ExecutionsPage.ZeroLimitShowsNothing | packages/db/src/postgres.ts:339-349 | With a limit of zero there is one empty page without a cursor, and still the right total |
| SessionTokens.InMemorySessionRevocationStore.Gc | packages/auth/src/index.ts:400-405 | The clean-up loop keeps exactly the entries that expire later |
| SessionTokens.InMemorySessionRevocationStore.Revoke | packages/auth/src/index.ts:390-393 | Adds the entry, then cleans up |
| SessionTokens.InMemorySessionRevocationStore.IsRevoked | packages/auth/src/index.ts:394-397 | Cleans up, then answers |
| SessionTokens.SessionTokenService.Verify | packages/auth/src/index.ts:469-513 | The verdict with every error case in order, and what the store holds afterwards |
| SessionTokens.SessionTokenService.Revoke | packages/auth/src/index.ts:429-446 | What the store holds after a revocation, with the default horizon; nothing changes for a malformed token |
| SessionTokens.WholeExpiriesHaveAHost | packages/auth/src/index.ts:452-467 | One collision-free host is faithful for all whole times to live at once |
| SessionTokens.SignedIsAccepted | packages/auth/src/index.ts:452-513 | A signed token whose payload reads back passes the checks, with the principal it was signed for, exactly until its time to live is over |
| SessionTokens.PassesIff | packages/auth/src/index.ts:469-513 | Any string passes the checks, as some principal, if and only if it is a header, a body and their signature, and the body holds that principal's claims and an expiry still to come |
| SessionTokens.FailsAs | packages/auth/src/index.ts:469-500 | Which fault a string of three parts is rejected for, in the order of the checks |
| SessionTokens.MalformedIff | packages/auth/src/index.ts:470-474 | Malformed are exactly the strings that are not three dot-free parts |
| SessionTokens.WholeSecondsAgree | packages/auth/src/index.ts:492-493 | For a whole expiry the test in seconds and the test in milliseconds agree at every moment |
| SessionTokens.ForgettingImpliesExpiredIff | packages/auth/src/index.ts:403-403 | Forgotten implies expired at every moment if and only if the expiry is less than a millisecond below a whole second |
| SessionTokens.ListHoldsRevoked | packages/auth/src/index.ts:429-446 | In every run the list of all revocations holds exactly the tokens revoked, with their expiry |
| SessionTokens.RevocationHorizon | packages/auth/src/index.ts:429-446 | A revoked token is remembered until its expiry, or for a day from the second of its revocation if it names none; a malformed one is not remembered |
| SessionTokens.VerdictInRun | packages/auth/src/index.ts:429-513 | In every run the verdict depends on the token, the clock and whether this very token was revoked, not on other revocations |
| SessionTokens.RevokedAcceptedIff | packages/auth/src/index.ts:492-505 | A revoked token is accepted if and only if it passes the other checks at the first clock reading and is forgotten at the second |
| SessionTokens.RevokedNeverVerifies | packages/auth/src/index.ts:427-505 | A token signed for whole seconds and revoked never verifies again when both readings fall into one second |
| SessionTokens.RevokedVerifiesAcrossExpiry | packages/auth/src/index.ts:492-505 | One millisecond between the readings, across the expiry, and it is accepted |
| SessionTokens.ForgettingMakesNoDifference | packages/auth/src/index.ts:388-406 | The forgetting store gives every verdict that one that never forgets gives, for whole expiries and readings in one second |
| SessionTokens.ForgettingMakesDifferenceIff | packages/auth/src/index.ts:388-406 | At one moment it differs on a revoked token if and only if the token is forgotten before it is expired |
| RepoLayout.ParseRepoPath | packages/git-storage/src/layout.ts:54-95 | The parser in place equals its specification |
| RepoLayout.ParseSegmentsIs | packages/git-storage/src/layout.ts:72-94 | Below the prefix the parser accepts exactly the spellings of well-formed components |
| RepoLayout.FileIsJoined | packages/git-storage/src/layout.ts:24-46 | A file path is the prefix's segments and the component's, joined by slashes |
| RepoLayout.ParseInvertsLayout | packages/git-storage/src/layout.ts:31-95 | For every prefix and path the parser returns a component if and only if it is well formed and the path, without leading slashes, is its file's |
| RepoLayout.FileLeadsBackIff | packages/git-storage/src/layout.ts:31-95 | A component's file leads back to it if and only if it is well formed |
| RepoLayout.DistinctFiles | packages/git-storage/src/layout.ts:31-46 | Different well-formed components have different files |
| RepoLayout.OuterSlashesIgnored | packages/git-storage/src/layout.ts:24-62 | Slashes around the prefix and in front of the path make no difference |
| RepoLayout.FilesByName | packages/git-storage/src/layout.ts:31-46 | The four kinds of files by name, below a prefix or not |

## Left out

- Redis, NATS, Postgres, OpenSearch and git themselves: kept are key expiry, compare-then-act scripts, delivery counts, ordered comparison and LIMIT.
- Cryptography, JSON and base64url: abstract functions with the hypotheses named above; lone surrogates in tokens and cursors are not modelled.
- Casbin and croner: the built-in policy engine is modelled; the cron library is a function that returns a strictly later instant or nothing.
- LeaderElection.RedisLeaderElection.constructor: does not state the check that the lease time is at least twice the renewal interval, since the bounds hold without it; timers, the connection factory and `quit` are left out.
- StagesProjection.OrderIrrelevant: does not fix the order of two different ids that the host's string comparison calls equal; that comparison is a rank given as a parameter.
- Scheduler: the payload builder and the interval timer; non-overlapping ticks are a hypothesis of the run.
- BulkIndex: how an item error is worded, and the backoff pause.
- ConfigResolver: `redactValue` and the allowed-value comparison are parameters; the class keeps definitions in a map with a key list for its order.
- AuthzRuns.CurrentSinceInvalidation: the rows and the grants of one read are those of one moment; a closure handed out earlier is not re-checked after later writes.
- CronFleet.EachInstantOnce: schedules are not edited, and `prime` does not run, while ticks do.
- TokenSource.SingleFlight: runs with `clear` are excluded, since `clear` drops the slot of a mint that is still pending.
- ClientRegistry.SingleBuild: runs with close or reset are excluded for the same reason.
- NatsConsumer.AlwaysFailing: redelivery because an acknowledgement expired is not modelled; the heartbeat is left out.
- BuilderRooms: authentication, grant refresh and `canSee` (one decision without state); messages are counted as sent when they are handed to an open socket; connection records are values in a map, so that two names for one record are not modelled; in which order the reaper's rooms get their rosters.
- ExecutionsPage.EveryRowOnce: start times are whole milliseconds; rows below the reader's place do not change between fetches.
- SessionTokens: the Redis store and `verifyAsync`; a service without a store, which skips the list; `ttl` is finite.
- RepoLayout: none of the two paths is normalised beyond its slashes.
- HTTP routes, the MCP catalog and the CLI: they translate requests into calls of the parts modelled here and hold no state of their own.
- The web UI, telemetry and logging: they show or record what happened and do not feed back into it.
- Seeds, migrations and plugin loading: they run once before the modelled parts start.
- Job handlers and the git mirror: sequences of calls to repositories and runtimes outside this model.
