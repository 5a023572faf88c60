# Verified model of the RETINA server's protocols

This project models the stateful protocols and the tree and graph transformations of the RETINA
server in Dafny and proves what they are for. Each module models one source file, or one part of
it; `dafny verify dfyconfig.toml` checks them all. `Wrappers` and `Selections` hold the option
types and what a filtering loop builds.

Code that works by steps is modelled twice over. A class or method with the source's own fields,
branches and loops is proved equal to a specification function on values, and what the source
promises is proved of that function: over every run, every interleaving, every input. What an
operation returns is also stated on its own, in the values a caller sees and without the functions
its body is written with. Where several parties interleave or a crash may fall between two
commits, the specification is a step machine, `Step`, and a theorem quantifies over arbitrary
sequences of its events.

| module | models |
|---|---|
| `FrameQueue` | frame ingress sharded by node, one worker per shard |
| `RuntimeFile` | the crash-atomic file writer over volatile and durable directories and contents |
| `TemplateLines`, `Conditionals`, `Includes` | the nginx template compiler, on texts and characters |
| `Hoisting`, `RefClosure`, `OpenApiDocuments` | the cutter of the two published OpenAPI documents |
| `AssetWalk` | the bounded walk of a page's assets |
| `SigningKeys` | the signing-key cache with its time to live, grace and floors |
| `MagicLinks` | the table of emailed links |
| `NodeClaim`, `NodeClaimRoutes` | claiming a node by email: the commits in any order and the handlers whole |
| `LinkQuota` | the sliding-window admission limiter |
| `ArchiveKeys` | the archive's key codec and its two filters |
| `AdsbCache` | the per-area aircraft cache |
| `FrameTracks` | the two whole-frame validators |

## Findings

Six properties the source states or suggests hold only under a condition. The code is modelled
as it is, and the condition is exact.

- **Key fetches 30 s apart** (`backend/core/access_identity.py:165-178`). A fetch ended by an
  exception outside `_FETCH_ERRORS`, a cancelled request among them, is not remembered. Every
  fetch of a run holds the next one off for 30 s, whatever request that is, exactly when no such
  exception ends a fetch of the run in less than 30 s (`SigningKeys.HeldOffExactlyWhenCalm`).
- **Outage lines 60 s apart** (`backend/core/access_identity.py:180-238`). The interval runs from
  the moment a request began, and the line is logged once the refresh it waited for has failed.
  Every line of a run is 60 s before the next exactly when none waited, and 60 s less some slack
  exactly when none waited longer than the slack (`SigningKeys.LinesApartExactlyWhenPrompt`): with
  the client's timeout of 10 s, lines can be 50 s apart (`SigningKeys.LinesFiftySecondsApart`).
- **Keys used within their grace** (`backend/core/access_identity.py:206-239`). The age is judged
  when the request begins. At the moment it is used a set is within the time to live and 6 h
  exactly unless the request waited past that for a fetch that failed
  (`SigningKeys.UsedInGraceExactlyUnlessOverstaying`, `SigningKeys.KeysUsedPastTheirGrace`).
- **One redeemable claim link per node** (`backend/routes/node_claim.py:256-258`). A binding click,
  an administrator's assignment and a release drop the challenge row without invalidating the link
  it names. On a clock that never runs back, every delivered link `redeem_magic_link` would spend, at
  every moment of a run, is the one its node's row names exactly when no step dropped a row while the link it named
  was live in a mailbox, or mailed a live link whose row had been dropped before it was sent
  (`NodeClaim.AccountedExactlyWhenCareful`). A row dropped after its link expired does no harm, nor
  does one dropped before a crash that keeps the link from being mailed.
  `NodeClaim.TwoRedeemableLinks` is a run after which two links of one node both redeem. Claim
  requests, crashes, clicks and declines alone never lead there (`NodeClaim.RequestsAreCareful`).
- **Hoisting preserves meaning** (`backend/routes/openapi_documents.py:117-136`). Resolving the
  injected references of a hoisted document gives it back exactly when it held none of those
  references before (`Hoisting.HoistingPreservesMeaningExactly`). Refusing an already declared name
  is what guarantees that: an application referring only to its own models is given back, paths and
  models (`OpenApiDocuments.ClashGuardPreservesMeaning`).

- **Archive keys round trip** (`backend/routes/archive.py:48-79`). A published key is read back as
  the same file of the same node exactly when the node's ref leads back to it and, in a bare
  (legacy) segment, neither is written with `=` (`ArchiveKeys.PublishedKeyIsReadBack`). Synthetic
  nodes are published as themselves, so a bare `test-a=b` directory is listed, filtered on `b`, and
  its listed key is refused (`ArchiveKeys.TestNodeIsListedAndRefused`). The listing and the download
  agree on a key, whatever nodes are private, exactly when the key is legible in this sense
  (`ArchiveKeys.ListedExactlyWhenDownloadable`).

Two things a reader of the comments may not expect. The five-second poll interval of
`backend/clients/adsb_lol.py:23` is counted from an area's last *successful* fetch; a failing area
is asked again at once (`AdsbCache.Asks`). And the cap of five links per address holds whatever the
clock does, because issuing sweeps first (`MagicLinks.AtMostFiveLive`).

## Model

| member | source | states |
|---|---|---|
| FrameQueue.Route | backend/core/frame_queue.py:55-57 | a node's shard is a fixed function of its id alone, always an existing shard |
| FrameQueue.FirstNonEmpty | backend/core/frame_queue.py:88-92 | the first shard with a frame waiting, and none exactly when every shard is empty |
| FrameQueue.PerNodeOrder | backend/core/frame_queue.py:13-18 | over every interleaving of producers and one worker per shard, a node's accepted frames are finished, then in flight, then queued, in put order, with at most one in flight, and waiting frames never exceed a positive `maxsize` |
| FrameQueue.DrainsKeepOrderAndCounts | backend/core/frame_queue.py:81-98 | drains mixed in, each node's frames still leave oldest first and no `task_done` the source makes can raise |
| FrameQueue.SameBackpressureAsOneQueue | backend/core/frame_queue.py:38-41 | every put is accepted or refused as one queue of the same `maxsize` replaying the same history would; with one shard it is that queue frame for frame |
| FrameQueue.AcceptedExactlyWithRoom | backend/core/frame_queue.py:72-79 | after any run a frame put is accepted exactly when `maxsize` is not positive or fewer frames than that were accepted and not yet taken; it then waits last in its node's own shard, and a refused one changes nothing |
| FrameQueue.BudgetIsUsedUp | backend/core/frame_queue.py:38-41 | of the frames put on a new queue and not taken, exactly the first `maxsize` are accepted |
| FrameQueue.SmallChecksumsAreShards | backend/core/frame_queue.py:55-57 | a checksum below the number of shards is the node's shard |
| FrameQueue.RunKeepsInv | backend/main.py:286-289 | routing, order and unfinished counts hold after any run of puts, takes, finishes and drains |
| FrameQueue.StepKeepsRouting | backend/core/frame_queue.py:75-79 | every waiting or in-flight frame stays in its node's own shard |
| FrameQueue.StepKeepsNodeOrder | backend/core/frame_queue.py:13-18 | no step reorders, loses or duplicates a node's frames |
| FrameQueue.StepKeepsCounts | backend/services/tasks/frame_loop.py:38-46 | a shard's unfinished count is what waits, what is in flight and what was drained unmarked |
| FrameQueue.ShardedFrameQueue.constructor | backend/core/frame_queue.py:43-46 | at least one shard, all empty, for any requested number |
| FrameQueue.ShardedFrameQueue.Qsize | backend/core/frame_queue.py:65-67 | the sum over the shards is the number of waiting frames, in-flight ones not counted |
| FrameQueue.ShardedFrameQueue.IsFull | backend/core/frame_queue.py:72-73 | full exactly when a positive `maxsize` is reached by the frames accepted and not yet taken |
| FrameQueue.ShardedFrameQueue.KeepsOrder | backend/core/frame_queue.py:13-18 | whatever a queue object has been through, drains apart, each node's frames are in put order with at most one in flight |
| FrameQueue.ShardedFrameQueue.FindWaiting | backend/core/frame_queue.py:88-92 | the loop finds the first shard with a frame waiting, or that there is none |
| FrameQueue.ShardedFrameQueue.PutNowait | backend/core/frame_queue.py:75-79 | accepted exactly when `maxsize` is not positive or fewer frames wait; refused with nothing changed, otherwise appended to the node's shard only |
| FrameQueue.ShardedFrameQueue.GetNowait | backend/core/frame_queue.py:81-92 | takes the oldest frame of the first non-empty shard, and no other, and remembers which; None exactly when all are empty |
| FrameQueue.ShardedFrameQueue.TaskDone | backend/core/frame_queue.py:94-98 | lowers the count of the shard drained last by one, and no other, forgets which it was, and never raises |
| FrameQueue.ShardedFrameQueue.WorkerTake | backend/core/frame_queue.py:59-61 | a worker takes the oldest frame of its own shard, if there is one, and nothing else changes |
| FrameQueue.ShardedFrameQueue.WorkerFinish | backend/services/tasks/frame_loop.py:38-46 | the worker's frame is finished, its shard's count goes down by one, and marking it done never raises |
| RuntimeFile.NeverPartial | backend/core/runtime_config.py:84-97 | for any number of interleaved writers and a crash after any step, what a reader finds and what a power loss leaves is the old content or one call's complete content, and a target that existed is never missing |
| RuntimeFile.ReturnedIsDurable | backend/core/runtime_config.py:74-79 | once a call has returned normally, what is on disk is that call's content or that of a call whose rename came later |
| RuntimeFile.CleanupIsOwn | backend/core/runtime_config.py:96-97 | after any run and one call's cleanup, every other call that has not renamed its temp file still finds its own file under that name |
| RuntimeFile.NoOrphanWithoutCrash | backend/core/runtime_config.py:68-72 | a temp file outlives its rename only through a crash |
| RuntimeFile.RunKeepsInv | backend/core/runtime_config.py:84-97 | ownership of files and names, and the lateness order of disk and directory, hold after any run |
| RuntimeFile.RuntimeDirectory.WriteTemp | backend/core/runtime_config.py:86-89 | the temp file is written and durable on success, and no target has changed either way |
| RuntimeFile.RuntimeDirectory.PublishTemp | backend/core/runtime_config.py:90-95 | on success readers and a power loss both find the content; a failed rename changes nothing, and past it readers find the content |
| RuntimeFile.RuntimeDirectory.Cleanup | backend/core/runtime_config.py:96-97 | only the call's own temp name goes, and the call returns exactly when everything before went well and unlinking did not raise |
| RuntimeFile.RuntimeDirectory.WriteRuntimeFile | backend/core/runtime_config.py:53-97 | run alone with any one operation failing: success publishes durably, a failure before the rename leaves every target as it was, one after it leaves readers the new content, and the temp name is gone unless unlinking raised |
| TemplateLines.IndentKeepsKind | deploy/render-nginx-config.py:56-61 | a line is the same marker at any indentation |
| TemplateLines.MarkersAreExact | deploy/render-nginx-config.py:56-61 | a line is one of the four markers, with that word, exactly when the marker's regular expression matches it |
| TemplateLines.SplitsAtEveryBreak | deploy/render-nginx-config.py:104 | every line break ends a line, "\r\n" as one, and text without a break is one line |
| TemplateLines.SplitOfJoined | deploy/render-nginx-config.py:104 | splitting joined lines gives the lines back |
| Conditionals.StripConditionals | deploy/render-nginx-config.py:100-130 | the loop over a mutable stack is the stack machine, its five errors with their line numbers included |
| Conditionals.StripsTree | deploy/render-nginx-config.py:104-127 | wherever a block tree's lines stand, the machine reads through them, leaves its stack as it was and emits what the tree evaluates to if that place is live |
| Conditionals.StripEvaluatesTrees | deploy/render-nginx-config.py:100-130 | stripping the rendering of any nested tree equals evaluating the tree |
| Conditionals.StripSucceedsExactlyOnTrees | deploy/render-nginx-config.py:105-129 | it succeeds exactly on renderings of some tree over known flags |
| Conditionals.VerdictIgnoresValues | deploy/render-nginx-config.py:105-129 | with other values for the same flags a template succeeds just the same, or fails with the same error |
| Conditionals.ErrorsNameTheFirstFault | deploy/render-nginx-config.py:105-129 | every error gives the number of the first line after which nothing could balance the template, and the kind of that line's fault; the number reported unclosed is exactly how many ends are missing |
| Conditionals.NoConditionalSurvives | deploy/render-nginx-config.py:126-130 | what survives are lines of the input, none a conditional marker |
| Conditionals.PlainLinesPass | deploy/render-nginx-config.py:126-127 | lines without markers pass through unchanged |
| Includes.ReadLive | deploy/render-nginx-config.py:149-150 | conditionals are resolved in a file before its includes are scanned |
| Includes.ExpandIncludes | deploy/render-nginx-config.py:133-163 | terminates on every finite include graph, cyclic or not, equals the recursive specification, and no chain of open files repeats a path or passes the depth guard |
| Includes.ExpandEachLine | deploy/render-nginx-config.py:150-163 | the appending loop is line-by-line expansion, failing at the first line that fails |
| Includes.ExpandOneLine | deploy/render-nginx-config.py:151-162 | one include line: missing file, escape from the root, or the snippet spliced in; any other line is itself |
| Includes.ExpandIsClean | deploy/render-nginx-config.py:133-163 | no line of a successful result is a marker at any indentation, and the result is never empty text (an empty file gives one blank line) |
| Includes.ExpandReadsAsThePage | deploy/render-nginx-config.py:133-163 | what a successful expansion says: the template's live lines in order, each include line replaced by the page of the file it includes |
| Includes.BlocksStandInOrder | deploy/render-nginx-config.py:161-162 | an included file's lines stand after those of the blocks before it, in order, each behind the marker's own indentation and empty ones empty; an own line stands as it is |
| Includes.LiveLinesAreTheTree | deploy/render-nginx-config.py:149-150 | a file's live lines are the evaluation of the block tree its text renders; it has none exactly when there is no file or no such tree, and says which |
| Includes.FailureNamesItsCause | deploy/render-nginx-config.py:139-160 | every failure names its cause: a chain of live includes from the template, and what is wrong with its last file (a twelfth, open already, unreadable, unbalanced) or on which of its lines (missing, outside the root) |
| Includes.ExpandingAgainChangesNothing | deploy/render-nginx-config.py:133-163 | a file holding a result expands to itself, in any tree and under any flags |
| Includes.SucceedsExactlyWhenEveryChainIsSound | deploy/render-nginx-config.py:139-160 | expansion succeeds exactly when every chain of live includes repeats no file, keeps the depth guard, stays inside the root and ends in a readable balanced file |
| Includes.DeadBranchesCannotMatter | deploy/render-nginx-config.py:136-137 | two file trees that agree on every file reached through live includes give the same expansion or the same failure |
| Includes.RewritingDeadBranchesIsInvisible | deploy/render-nginx-config.py:126-127 | rewriting only dead branches of a file is such an agreement |
| Hoisting.FirstMatch | backend/routes/openapi_documents.py:127-131 | the first injected schema a node equals |
| Hoisting.HoistingPreservesMeaningExactly | backend/routes/openapi_documents.py:117-136 | resolving the injected references in a hoisted document gives it back if and only if it held none of them |
| Hoisting.NoCopySurvives | backend/routes/openapi_documents.py:117-136 | no inline copy of an injected schema survives |
| Hoisting.HoistingIsIdempotent | backend/routes/openapi_documents.py:117-136 | hoisting twice is hoisting once |
| Hoisting.ExistingRefIsLost | backend/routes/openapi_documents.py:165-175 | a reference that was there before would resolve to something else, hence the refusal of declared names |
| RefClosure.Referenced | backend/routes/openapi_documents.py:84-101 | the recursive collection gathers exactly the component names a document refers to, at any depth |
| RefClosure.RefsAreTheOccurrences | backend/routes/openapi_documents.py:84-101 | a name is collected exactly when some object, however deep in the document, has it as its "$ref" |
| RefClosure.VisitRound | backend/routes/openapi_documents.py:104-114 | one round of the worklist keeps everything seen reachable and queues exactly what is newly referred to |
| RefClosure.Closure | backend/routes/openapi_documents.py:104-114 | terminates and returns exactly the declared schemas reachable from the paths through `$ref` chains, values unchanged |
| RefClosure.ReachableIsLeast | backend/routes/openapi_documents.py:104-114 | that set is the least one containing the paths' references and closed under the schemas' |
| RefClosure.ClosureIsTheLeastClosed | backend/routes/openapi_documents.py:104-114 | the closure holds whatever the paths or a schema in it refer to at any depth, so far as it is declared, and every set of names that does so holds it |
| RefClosure.ClosureGrowsWithPaths | backend/routes/openapi_documents.py:104-114 | more references in the paths never lose a schema |
| OpenApiDocuments.NodePaths | backend/routes/openapi_documents.py:139-162 | exactly the node paths, each operation without its 422 |
| OpenApiDocuments.PublicPaths | backend/routes/openapi_documents.py:213-240 | the node paths and the public reads of every other path that has any |
| OpenApiDocuments.NodeContract | backend/routes/openapi_documents.py:191-206 | refused exactly on a declared injected name; otherwise cut from the node paths, with the schemas and security schemes they reach |
| OpenApiDocuments.PublicDocument | backend/routes/openapi_documents.py:213-240 | the same over the public paths |
| OpenApiDocuments.ContractIsTheNodeApi | backend/routes/openapi_documents.py:139-162 | the contract has exactly the operations under /v1/nodes, each as the application has it but for its 422 |
| OpenApiDocuments.PublicIsTheNodeApiAndReads | backend/routes/openapi_documents.py:209-226 | the public document has those and, outside /v1/nodes, exactly the "get"s of /api/health and the five read prefixes, each as the application has it: no other verb and no other path |
| OpenApiDocuments.SchemesAreThoseAskedFor | backend/routes/openapi_documents.py:178-184 | security schemes are present exactly when an operation names one, and are then those named, as the application has them |
| OpenApiDocuments.SchemasAreTheModels | backend/routes/openapi_documents.py:165-184 | every schema is an injected one whole or the application's own, hoisted |
| OpenApiDocuments.NodeContractIsARestriction | backend/routes/openapi_documents.py:178-240 | the contract's paths, schemas and schemes are a restriction of the public document's with equal values, and what that adds is public reads only |
| OpenApiDocuments.UnnamedIsRefFree | backend/routes/openapi_documents.py:84-101 | a node that names no injected schema has no injected reference at any depth |
| OpenApiDocuments.ClashGuardPreservesMeaning | backend/routes/openapi_documents.py:165-175 | past the refusal of declared names, the hoisted paths and models of an application that refers only to its own models resolve back to the originals |
| OpenApiDocuments.DocumentsAreSelfContained | backend/routes/openapi_documents.py:178-184 | every model, the application's or injected, that a document's paths or schemas refer to at any depth is in it |
| AssetWalk.Walk | deploy/verify-deploy.py:658-700 | each asset asked for at most once, at most MAX_ASSETS in total, all reachable; the count returned is discovered less read, 0 exactly when what was read is everything reachable through resolved scripts |
| AssetWalk.ReadLevels | deploy/verify-deploy.py:681-700 | the loop reads the URLs of the breadth-first order, in that order, up to the bound |
| AssetWalk.ReadLevel | deploy/verify-deploy.py:683-699 | one level: as many as there is room for, and what those newly name |
| AssetWalk.ReadBatch | deploy/verify-deploy.py:686-695 | each asset lands in exactly one table and only resolved scripts name more |
| AssetWalk.Cut | deploy/verify-deploy.py:683-684 | batch and rest are the level, and a rest means the room was used up |
| AssetWalk.SmallerBudgetIsPrefix | deploy/verify-deploy.py:683-684 | a smaller bound reads a prefix of what a larger one reads |
| AssetWalk.WalkIsReachable | deploy/verify-deploy.py:658-700 | nothing is read that the page does not reach |
| AssetWalk.ReadIsClosed | deploy/verify-deploy.py:658-700 | with nothing left unread, everything reachable was read |
| AssetWalk.WalkReadsWhatIsLinked | deploy/verify-deploy.py:658-700 | only what the page is linked to, through scripts that resolved, is read, at most 400 of it, and all of it exactly when nothing is left unread |
| AssetWalk.DiscoveredIsLedTo | deploy/verify-deploy.py:686-700 | discovered is what the page names or a script that was read leads to |
| AssetWalk.WalkIsInOrderOfMention | deploy/verify-deploy.py:675-700 | assets are read in the order the page and the assets read before first mention them |
| SigningKeys.AccessIdentity.TryRefreshKeys | backend/core/access_identity.py:160-178 | a success installs keys dated when the fetch ended; a named failure is remembered from when the request began; anything else is raised and leaves no trace |
| SigningKeys.AccessIdentity.Warn | backend/core/access_identity.py:180-191 | one outage line per interval |
| SigningKeys.AccessIdentity.UsableKeys | backend/core/access_identity.py:193-239 | fresh keys, a refresh if not floored, the held set within its grace, or a refusal |
| SigningKeys.AccessIdentity.SigningKey | backend/core/access_identity.py:247-278 | the whole request, its one refetch for an unknown key id included |
| SigningKeys.OneFetchPerRequest | backend/core/access_identity.py:247-278 | a request makes at most one key fetch, and it starts when the request does |
| SigningKeys.AnswersFromTheSetHeld | backend/core/access_identity.py:241-278 | a judged request answers with the key the set held afterwards has for its key id, and that it is unknown exactly when that set has none |
| SigningKeys.LearntKeyAnswers | backend/core/access_identity.py:276-278 | a rotated key is found by the very request that fetches it |
| SigningKeys.FetchLeavesItsMark | backend/core/access_identity.py:160-178 | only a fetch changes what is remembered: a set is dated when its fetch ended, a failure when the request began, an escaped exception leaves nothing |
| SigningKeys.FetchesExactlyWhenDue | backend/core/access_identity.py:203-275 | a request fetches exactly when no failure is under 30 s old and the set held is absent, past its time to live, or at least 60 s old without the key id |
| SigningKeys.RefusedExactlyWithoutUsableKeys | backend/core/access_identity.py:203-228 | refused for lack of keys exactly when the held set is absent or older than its time to live and 6 h, and the refresh failed under 30 s ago or fails now |
| SigningKeys.JudgedByYoungKeys | backend/core/access_identity.py:203-239 | every key set used was fetched at most the time to live and 6 h before the request began, and so before its own wait for a fetch |
| SigningKeys.UsedInGraceExactlyUnlessOverstaying | backend/core/access_identity.py:206-239 | at the moment it is used a set is that young if and only if the request did not wait past that age for a fetch that failed |
| SigningKeys.KeysUsedPastTheirGrace | backend/core/access_identity.py:206-239 | a set used 10 s past its grace, after a refresh that timed out |
| SigningKeys.HeldKeysAreUsed | backend/core/access_identity.py:193-239 | once a set is held, every request within that age is judged against keys, however refreshes fail |
| SigningKeys.FetchesExactlyWhenAsking | backend/core/access_identity.py:203-207 | a request fetches exactly when its guards let it, and raises exactly when that fetch ends in an exception nobody names |
| SigningKeys.FlooredExactlyUnlessEscaped | backend/core/access_identity.py:165-178 | a request's fetch holds the next one off for 30 s, whatever comes next, if and only if no exception escapes it in less |
| SigningKeys.HeldOffExactlyWhenCalm | backend/core/access_identity.py:165-278 | so does every fetch of a run if and only if none of the run's fetches escapes in less than 30 s |
| SigningKeys.FetchesAreSpaced | backend/core/access_identity.py:206-278 | under exactly that condition, over any run on a monotone clock, fetches start at least 30 s apart |
| SigningKeys.FetchRateIsBounded | backend/core/access_identity.py:206-278 | so n fetches span at least 30 (n - 1) seconds |
| SigningKeys.EscapedFetchIsNotFloored | backend/core/access_identity.py:165-178 | a request whose fetch escaped fetches again when made again at any later moment |
| SigningKeys.LinesExactlyWhenWarning | backend/core/access_identity.py:203-238 | a request logs a line exactly when it finds no fresh keys and none was stamped in the last 60 s, and logs it when its refresh, if any, has failed |
| SigningKeys.StampsAreSpaced | backend/core/access_identity.py:180-191 | the moments `_warned_at` is set to are at least 60 s apart over any run |
| SigningKeys.LinesHeldOffExactlyWhenPrompt | backend/core/access_identity.py:180-238 | a line holds the next off for 60 s less the slack, whatever request comes next, if and only if it waited no longer than the slack |
| SigningKeys.LinesApartExactlyWhenPrompt | backend/core/access_identity.py:180-238 | so does every line of a run if and only if none of them waited longer; 60 s itself if and only if none waited |
| SigningKeys.WarningsAreSpaced | backend/core/access_identity.py:180-238 | over any run whose failing refreshes take at most the slack, lines are at least 60 s less the slack apart |
| SigningKeys.LinesFiftySecondsApart | backend/core/access_identity.py:180-238 | a run whose two lines are 50 s apart |
| MagicLinks.LinkTable.CreateMagicLink | backend/core/auth.py:91-138 | sweeps the address's expired rows and issues a 15-minute link unless five of that intent are outstanding |
| MagicLinks.LinkTable.RedeemMagicLink | backend/core/auth.py:150-202 | spends exactly a live link of that intent and deletes its unspent siblings; anything else, a blank token too, changes nothing and reads the same |
| MagicLinks.LinkTable.PeekMagicLink | backend/core/auth.py:215-239 | answers what redeeming would, changing nothing |
| MagicLinks.LinkTable.InvalidateMagicLink | backend/core/auth.py:242-253 | the handle is gone and no other row is touched |
| MagicLinks.LinkTable.PeekThenRedeem | backend/core/auth.py:215-222 | peek succeeds exactly when redeem at the same moment would, with the same answer, and not afterwards |
| MagicLinks.IssuedExactlyBelowFive | backend/core/auth.py:107-138 | a link is issued exactly when its address holds fewer than five of that intent unspent and in date, and no other row goes but the address's expired ones |
| MagicLinks.IssuedLinkRedeems | backend/core/auth.py:91-202 | an issued link gives back the address and node it was issued for, under its own intent, for 15 minutes, and once |
| MagicLinks.RedeemsExactlyInCirculation | backend/core/auth.py:91-253 | after any run a link redeems exactly when it was issued under that intent at most 15 minutes before and has since been neither invalidated, redeemed, displaced by a sibling's redemption nor swept; and it gives what it was issued for |
| MagicLinks.RedeemIsExact | backend/core/auth.py:185-201 | after a redemption no other live link of the address, intent and node is left, and every other link is untouched |
| MagicLinks.RedeemedOncePerLink | backend/core/auth.py:150-182 | in every run each link is redeemed at most once, only under its own intent and within its lifetime |
| MagicLinks.NoLinkRedeemsTwice | backend/core/auth.py:150-182 | of all the calls of a run at most one redeems a given link |
| MagicLinks.SweepKeepsOutstanding | backend/core/auth.py:111-123 | sweeping changes nobody's outstanding links |
| MagicLinks.AtMostFiveLive | backend/core/auth.py:115-126 | in every run live links per address and intent never exceed five, whatever the clock does |
| NodeClaim.RunIsSound | backend/services/node_claim_store.py:1-22 | in every run each row, request in progress and spent ticket is about the node and address its link was minted for |
| NodeClaim.StatusTellsTheAddress | backend/services/node_claim_store.py:264-291 | the address a node is told is the one on file, whichever row it was read from |
| NodeClaim.PendingExactlyWhileLinkIsInDate | backend/services/node_claim_store.py:264-291 | after any run a node is told pending exactly when it has no owner and no bounce and its row names a link minted less than 15 minutes ago |
| NodeClaim.PendingMeansRedeemable | backend/services/node_claim_store.py:288-291 | the unspent link of a node told pending redeems at that moment for the address told, and a node whose link redeems now and later is told pending |
| NodeClaim.OfferedIsPendingForItsTime | backend/routes/node_claim.py:253-300 | a claim that starts is told pending with its address for 15 minutes and unclaimed with it from then on; at the cap unclaimed at once |
| NodeClaim.OthersAreToldTheSame | backend/services/node_claim_store.py:66-197 | no step changes what another node is told |
| NodeClaim.BindOutcome | backend/services/node_claiming.py:102-140 | a completing click owns and confirms the node for the account behind the ticket's address exactly when the node still offers it and has no other owner; otherwise nothing changes |
| NodeClaim.DeclineOutcome | backend/services/node_claiming.py:160-182 | declining drops the row its own link is named by and no other, keeping owner and address |
| NodeClaim.AssignOutcome | backend/services/node_claim_store.py:160-197 | an owner already there changes nothing; another is told owned without an address; clearing leaves nothing |
| NodeClaim.AccountsAreForGood | backend/services/node_claiming.py:86-96 | an address's first enrolment opens its account and no step closes it or makes it another's |
| NodeClaim.ReleaseOutcome | backend/services/node_claim_store.py:149-157 | a release by the owner leaves nothing on file; by anybody else it changes nothing |
| NodeClaim.BounceOutcome | backend/services/node_claim_store.py:125-146 | a bounce of the address on file is told, ends the claim and kills its link; of another address it changes nothing |
| NodeClaim.MailsAreAskedFor | backend/routes/node_claim.py:164-185 | in every run a node is mailed no more often than it was offered a different address or asked for a resend |
| NodeClaim.ConfirmationsAreClicked | backend/services/node_claim_store.py:99-122 | in every run of claims made by email an address stands confirmed only if a link sent to it about that node was spent |
| NodeClaim.OwnershipIsEarned | backend/services/node_claiming.py:102-140 | where nodes are claimed by email, a node changes hands only by an administrator, by its owner's release, or, while unowned, to the account behind the address it is offering, by one spent link sent there |
| NodeClaim.AccountedExactlyWhenCareful | backend/routes/node_claim.py:253-298 | at every moment from every step of a run on, every delivered link `redeem_magic_link` would spend is the one its node's row names, if and only if no step dropped a row under a live delivered link or mailed a live link no row names |
| NodeClaim.CarefulRunsAreTidy | backend/routes/node_claim.py:256-264 | once a request has killed the displaced link its node has no redeemable one until the new one is delivered, a crash after any commit included |
| NodeClaim.OneRedeemableLinkPerNode | backend/routes/node_claim.py:256-258 | at any moment at most one delivered link per node is redeemable, and the challenge row names it |
| NodeClaim.RequestsAreCareful | backend/routes/node_claim.py:140-300 | claim requests, crashes, sign-ins, clicks, declines and bounces never drop such a row or mail such a link |
| NodeClaim.HazardLosesTrack | backend/services/node_claim_store.py:149-197 | a step that does leaves, at that very moment, a redeemable link no row names |
| NodeClaim.OfferDelivers | backend/routes/node_claim.py:253-300 | a new address below the cap puts the fresh link in the mailbox and its name in the row |
| NodeClaim.AssignmentStrandsALink | backend/services/node_claim_store.py:160-197 | from any state with a redeemable link, clearing the owner and one more offer leave two links that both redeem at that moment |
| NodeClaim.TwoRedeemableLinks | backend/services/node_claim_store.py:160-197 | a run from nothing that ends so |
| NodeClaimRoutes.ClaimRoutes.ReadStatus | backend/services/node_claim_store.py:264-291 | owner first, then a bounce, then a challenge in date, then the address on file |
| NodeClaimRoutes.ClaimRoutes.SetClaimAddress | backend/services/node_claim_store.py:66-96 | the address already stored changes nothing; another starts afresh, keeping the owner |
| NodeClaimRoutes.ClaimRoutes.Kill | backend/routes/node_claim.py:274-276 | the displaced link dies before anything else is written: the state machine's first commit |
| NodeClaimRoutes.ClaimRoutes.MintLink | backend/services/claim_links.py:75-88 | its second: a claim link for this node and address, or none at the cap, committed by the link store alone |
| NodeClaimRoutes.ClaimRoutes.Record | backend/routes/node_claim.py:279-294 | its third: the row names the new link or, at the cap, goes, and the address is on file |
| NodeClaimRoutes.ClaimRoutes.Mail | backend/routes/node_claim.py:296-298 | its last: only a committed link is mailed |
| NodeClaimRoutes.ClaimRoutes.Challenged | backend/routes/node_claim.py:274-294 | the three commits in that order, each leaving tables and state machine agreed |
| NodeClaimRoutes.ClaimRoutes.StartClaim | backend/routes/node_claim.py:253-300 | all four in order, answering what reading the status would |
| NodeClaimRoutes.ClaimRoutes.PutClaim | backend/routes/node_claim.py:140-185 | 200, 409 or 429 with the standing a GET would show; a claim starts exactly for an unowned node, another address and an admission, is told pending unless five links are out, and mails once then; otherwise both tables stay |
| NodeClaimRoutes.ClaimRoutes.ResendClaim | backend/routes/node_claim.py:228-250 | refused on an owned node, silent on none or a bounced address, otherwise told as a claim that starts, with one mail of the fresh link to the address on file |
| NodeClaimRoutes.Told | backend/routes/node_claim.py:288-300 | what a request answers is what reading the node's status right after it would |
| LinkQuota.Quota.QuotaAvailable | backend/routes/auth.py:119-138 | each verdict is a recount of the full history, and the table afterwards is exactly its last 60 s |
| LinkQuota.Quota.Prune | backend/routes/auth.py:123-128 | keeps the fresh times of each source and drops sources left with none |
| LinkQuota.PruningForgetsNothing | backend/routes/auth.py:123-128 | what an earlier pruning threw away no later verdict needs |
| LinkQuota.TableAdmits | backend/routes/auth.py:129-137 | counting in the pruned table is recounting the history |
| LinkQuota.AdmittedExactlyWithRoom | backend/routes/auth.py:129-137 | admitted exactly when fewer than five of the source's admissions are under a minute old and, if none is, fewer than 4096 sources have one that is |
| LinkQuota.NoSixInAMinute | backend/routes/auth.py:135-137 | no source gets six admissions within any 60 s |
| LinkQuota.SourcesAreBounded | backend/routes/auth.py:109-133 | at most 4096 sources are tracked, at any moment |
| ArchiveKeys.StripTrims | backend/routes/archive.py:42 | stripping removes every outer slash and nothing of a key without |
| ArchiveKeys.JoinOfSplit | backend/routes/archive.py:59 | joining the segments gives the key back |
| ArchiveKeys.SplitOfJoin | backend/routes/archive.py:69 | splitting slash-free segments joined gives them back |
| ArchiveKeys.PublishedKeyIsExact | backend/routes/archive.py:32-59 | `node_id=` and an id becomes `node_ref=` and its ref, a bare id its bare ref, the other segments stay; an id without a ref gives none, and a key without such a segment is itself |
| ArchiveKeys.StoredKeyIsExact | backend/routes/archive.py:62-79 | the other way about, any other segment with "=" and any ref that resolves to nothing being refused |
| ArchiveKeys.PublishedKeyIsReadBack | backend/routes/archive.py:48-79 | the stored key behind a published one is the key listed, outer slashes stripped, with the node id the listing read, if and only if the node's ref leads back to it and, in a bare segment, neither is written with "=" |
| ArchiveKeys.StoredKeyIsPublished | backend/routes/archive.py:62-79 | a key the download resolves is the one the listing would publish, filtered on the same node, if and only if the node is published as the ref given and, in a bare segment, is not written with "=" |
| ArchiveKeys.ListArchive | backend/routes/archive.py:83-116 | the page is the surviving files in order and `count` is their number; an unknown ref and a private node's answer the same |
| ArchiveKeys.ListedAreTheShown | backend/routes/archive.py:108-116 | the files listed are exactly those whose node is not hidden and has a ref, in order, under their published keys |
| ArchiveKeys.DownloadIsExact | backend/routes/archive.py:119-141 | a download answers exactly when the key leads to a file of a node that is not hidden, with that file's data, under the ref of the node it is handed out for |
| ArchiveKeys.ListedKeysPass | backend/routes/archive.py:108-127 | every legible key a listing hands out passes the download's filter |
| ArchiveKeys.ListedExactlyWhenDownloadable | backend/routes/archive.py:108-127 | whatever nodes are private, a key is listed exactly when some published key downloads that file past the filter, if and only if the key is legible |
| ArchiveKeys.DownloadsHideTheHidden | backend/routes/archive.py:119-141 | under any refs, no download hands out a private node's file or names a private node, and the key's node outranks the body's; it is the node the listing reads but for a bare segment with "=" |
| ArchiveKeys.BareEqualsIsListedAndRefused | backend/services/node_refs.py:236-238 | a self-published name with "=" in a bare segment is listed, filtered on another name, and its listed key refused |
| ArchiveKeys.TestNodeIsListedAndRefused | backend/services/node_refs.py:236-238 | `test-a=b/part` is such a key |
| AdsbCache.AdsbLolClient.SetAreas | backend/clients/adsb_lol.py:57-88 | malformed entries are dropped one by one, every dropped name's state is forgotten and every other name's kept |
| AdsbCache.AdsbLolClient.LastGood | backend/clients/adsb_lol.py:90-97 | exactly the latest good rows of an unbroken configuration, at most 600 s old, or none |
| AdsbCache.AdsbLolClient.FetchArea | backend/clients/adsb_lol.py:99-155 | a fresh answer's rows, or what the history says may stand in for it |
| AdsbCache.AdsbLolClient.FetchAll | backend/clients/adsb_lol.py:192-209 | one turn per area in order, merged by hex |
| AdsbCache.ReadRows | backend/clients/adsb_lol.py:119-146 | rows without a position are dropped and each position is dated by an absolute time |
| AdsbCache.RowsAreThePositions | backend/clients/adsb_lol.py:119-146 | the rows of an answer are exactly its aircraft with a position, in order, at the position told and dated by its age before the fetch |
| AdsbCache.NamesAreTheWellFormed | backend/clients/adsb_lol.py:70-78 | the areas are exactly the entries with a name, a latitude and a longitude, in order |
| AdsbCache.ServedIsVouchedFor | backend/clients/adsb_lol.py:90-155 | every aircraft `fetch_all` returns comes from a successful fetch of an area's name at most 600 s before its turn, with the name configured without a break since, and from the first area in order offering its hex |
| AdsbCache.LatestIsUnbroken | backend/clients/adsb_lol.py:57-88 | the latest good fetch is a fetch in the history with no reassignment leaving the name out and no later success |
| AdsbCache.UnbrokenIsLatest | backend/clients/adsb_lol.py:57-88 | and any such fetch is the latest good one |
| AdsbCache.UnbrokenIsServed | backend/clients/adsb_lol.py:90-104 | that fetch's rows are served for 600 s and no longer, and the name is asked for again exactly from 5 s after it |
| AdsbCache.NothingUnbrokenIsServed | backend/clients/adsb_lol.py:90-104 | a name without such a fetch is shown nothing and is asked for once the clock has read 5 s |
| AdsbCache.MergeKeepsTheFirst | backend/clients/adsb_lol.py:202-206 | of every hex but the empty one, the first row offered, in area order |
| AdsbCache.MergeRepeatsNoHex | backend/clients/adsb_lol.py:194-206 | each hex is served once |
| AdsbCache.MergeIsTheFirstOffers | backend/clients/adsb_lol.py:194-206 | the rows served are exactly the first of each hex but the empty one, in the order offered |
| AdsbCache.EveryHexIsServed | backend/clients/adsb_lol.py:192-209 | every hex but the empty one that an area's turn gives is served |
| FrameTracks.ArraysAreParallel | backend/routes/node_schemas.py:319-340 | accepted exactly when all columns are one table and no tag sits beside another hex; otherwise the first mismatch |
| FrameTracks.TracksNameThisFramesDetections | backend/routes/node_schemas.py:343-375 | accepted exactly when ids are distinct and hits map the active tracks one to one into the detections; otherwise the first track that does not add up, and why |
| FrameTracks.OneMore | backend/routes/node_schemas.py:359-374 | a track adds up beside those before it exactly when they all account for the frame |
| FrameTracks.FaultMeans | backend/routes/node_schemas.py:359-374 | what each fault says of the track it is found in; a repeated id outranks the others |
| FrameTracks.ActiveTracksAreTheirHits | backend/routes/node_schemas.py:348-350 | active tracks and the detections they took are equally many |
| FrameTracks.NoMoreActiveTracksThanDetections | backend/routes/node_schemas.py:348-350 | an accepted frame has no more active tracks than detections |

## Left out

- HTTP routing, request parsing, SQL sessions and log text: a database call is one atomic step on a table. The session's identity map, through which a request may see the challenge row as its own first read found it, is not modelled.
- SHA-256 and address normalisation are fixed functions and fresh tokens and uuids are distinct by assumption; crc32 is an arbitrary fixed function.
- FrameQueue: event-loop scheduling is any order of atomic steps; a worker that fails while processing is a worker that finishes.
- RuntimeFile: one directory; file contents reach the disk whole at their fsync or not at all before it, and the kernel may write any directory entry back early. `migrate_defaults_into_runtime` only copies.
- Includes: `substitute` and `resolve_flags`; path resolution is a given function from a marker's argument to a file.
- Hoisting: Python's equality of 1, 1.0 and True, and the order of a dict's keys, which no rule here depends on. An application whose whole table of models is itself an injected schema, which no application has, is set aside where a model is looked up in that table.
- AssetWalk: `_settle`, `Reading.over` and the page's own tag search; an asset's answer is fixed for the walk.
- SigningKeys: signature checks and claims; what an error or a log line says.
- NodeClaim: two claim requests of one node at once; `claim_rate_limiter` is a given verdict; the reads `complete_claim` makes before it spends a link, which only refuse earlier. Other code writes these rows too: services/polled_registration.py owns and confirms a polled radar's claim without a link, services/registry_mirror.py copies another environment's claims, and services/polled_radars.py clears one. Accounts are opened once per address and never deleted. Nothing in the repository calls `mark_undeliverable`, so a bounce is modelled with the invalidation its documentation asks of a caller.
- LinkQuota: `_client_source`, which groups addresses; a source is a string.
- ArchiveKeys: that what one path segment publishes or resolves to is one non-empty segment and, where a key is asked about through every published key at once, that refs and ids answer each other, is services/node_refs.py's to keep and an assumption here; storage is a given function.
- AdsbCache: the fields of a row that are copied as they come, the radius and URL of a query, the 429 retry and the sleeps between requests, which only let time pass.
- FrameTracks: field types, bounds and patterns, which Pydantic checks before either validator runs.
- Kalman tracking, association and custody live in `libs/`, which is not part of this model.
