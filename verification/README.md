# Forage: a verified model

Forage turns recipes into scrapers. A recipe is a list of statements (HTTP steps, emits,
loops) that an engine interprets; recipes compose into pipelines; a daemon deploys and
schedules them; a hub registers versioned packages and types. This project models the four
state machines behind that, and the hub's rate limiter, and proves properties of whole runs.

| part | modules |
|---|---|
| HTTP engine | `Values`, `Recipe`, `Paginate`, `Engine`, `EngineMeaning` (what the pieces of a run mean), `EngineInvariants`, `PaginatedFetch`, `Sampling`, `Urls`, `Replay`, `HttpDriver`, `PipelineReplay` |
| linker and composition runtime | `Linked`, `Linker`, `Runtime`, `Flatten`, `Notebook` |
| hub registry | `HubModel`, `HubRegistry` (a request is one step), `HubInterleaved` (a KV or R2 operation is one step), `HubAlone` (a request nothing interrupts), `HubRaces` (what then breaks, and exactly when) |
| daemon | `Cadence`, `Health`, `Scheduler`, `Deployments`, `Daemon` |
| rate limiter | `RateLimit` |
| shared | `Wrappers`, `Sorting` |

Code that changes state is a class with its fields (`Interpreter`, `PaginationDriver`,
`RecordingTransport`, `Walk`, `Registry`, `Daemon`, `Limiter`) or a method with a loop. A method of
the engine or the runtime is proved equal to a function of the state before it; the properties of
runs are lemmas about that function, and what the function computes is told a second time, without it,
by predicates over the expressions, requests, responses, snapshots and fires involved (`EmitsRecord`,
`PageDone`, `Turn`, `Delivered`, `Composed`, `OnCadence`). A method of the registry, the daemon or the limiter states the
new state outright and keeps the invariant `Valid`, so every run of such methods keeps it
(`Registry.Serve`, `Daemon.Trace`, `Limiter.Serve`).

Some readings of the code that shape the model:

- A transport is a deterministic function of everything fetched before and the request, so a live
  server with sessions is one. Expression evaluation is a record of deterministic functions of the
  scope (`Recipe.Evaluator`); an expression may fetch, a bounded number of times.
- `hub-api/src/routes/types.ts:281-284` says that the same source with richer alignments lands as a
  new version. The code decides on the source digest alone; the model follows the code, and
  `Registry.PublishTypeVersion` states that such a publish is a no-op that answers with the old version.
- `crates/forage-http/src/transport.rs:85-87` says that fixtures with extra or different query parameters
  still match. The code matches exactly equal parameters, in any order; the model follows the code
  (`Urls.MatchIff`).
- Drift compares with 0.7 of a median, here the fraction 7/10 of the exact median.
- The digest of a source is any function of it. It need not be injective for any result here.
- Replay needs no assumption that bodies are UTF-8: the engine reads a body only through its text,
  which is empty for a binary body both when recorded and when replayed.

Some natural properties fail. The lemmas in the second column say when each holds, mostly as an
if-and-only-if (for sampling, on two classes of recipes; for fires, as a bound that is met); those in the
third show where it does not:

| property | when it holds | where it fails |
|---|---|---|
| a nested pipeline is its flat chain of recipes | `Flatten.FlattenIffFirstOnly` | any other nesting |
| a replay reproduces the recorded run | `Replay.ReplayIffUnambiguous`, `PipelineReplay.PipelineReplayIff` | two answers to one key |
| a numbered step binds every page | `PaginatedFetch.NumberedBinds` | `PaginatedFetch.NonArrayStops` |
| URLs of equal hosts match only when their paths agree | `Urls.AbsoluteMatchIff`, and `Urls.StripPathKeeps` | `Urls.DoubledSlashHides` |
| a sample is a prefix of the full run | `Sampling.SampleIsPrefix`, `Sampling.TailPrefixIff` | an emit after a capped loop |
| a run of a pipeline ends | `Runtime.EndsIffAcyclic`, `Notebook.NotebookEndsIffAcyclic` | `Notebook.MergeMayCycle` |
| a latest version never goes down | `HubRaces.NeverDropsIff` | `HubRaces.StaleDownloadRollsBack` |
| a type digest names a version with that digest | `HubRaces.HashesTrueIff`, and `HubRaces.HashesStayTrue` | `HubRaces.OverlappingTypesMismatch`, `HubRaces.StoppedTypeMismatch` |
| a finished run points at the newest version | `Daemon.NewestIff`, in `Daemon.Daemon.RunFinish` | `Daemon.Daemon.FinishAcrossDeploy` |
| a corrupt row fails the loop head once | `Scheduler.SyntheticUntilWritten` | `Scheduler.StuckWithoutWrites` |
| one fire a step | `Cadence.StartsAreBounded` | `Cadence.LostFiresAgain` |

`dafny verify dfyconfig.toml` checks the whole project.

## Model

| member | source | states |
|---|---|---|
| Values.RecordIdInjective | crates/forage-core/src/snapshot/mod.rs:147-149 | the ids `rec-<n>` of different records differ |
| Paginate.PaginationDriver.Advance | crates/forage-http/src/paginate.rs:39-112 | the driver's move and its new counters, for all three strategies; on an evaluation error the counters stay |
| Engine.Interpreter.ExtractAsync | crates/forage-http/src/engine.rs:646-648 | each fetch of an expression is what it asks for next and the transport's answer to that; the value, or the error, is what it then gives |
| Engine.Interpreter.Emit | crates/forage-http/src/engine.rs:639-682 | an emit appends one record with the next id, whose fields are exactly the bindings' names, each with the value of its last binding, evaluated in order; counts that type once; binds the record if it is named. It fails exactly with the first binding that does, and then emits nothing |
| Engine.EmitMeans | crates/forage-http/src/engine.rs:639-682 | the same of the recursive interpreter |
| Engine.FetchFreeFields | crates/forage-http/src/engine.rs:646-654 | when no binding fetches, each field is plainly the value of its last binding in the scope of the emit |
| Engine.Interpreter.Request | crates/forage-http/src/engine.rs:462-606 | one request: budget, `$page`, fetch, status gate, bindings, regex groups |
| Engine.Interpreter.Step | crates/forage-http/src/engine.rs:444-637 | the pagination loop reaches the state of the recursive page walk and ends within the budget |
| Engine.Interpreter.Statements | crates/forage-http/src/engine.rs:258-441 | the statement loop reaches the state of the recursive interpreter |
| Engine.Interpreter.Loop | crates/forage-http/src/engine.rs:384-435 | the item loop, with frame and `$` entered and left around every item |
| EngineMeaning.WithQueryExtends | crates/forage-http/src/engine.rs:693-702 | the URL of a request is the rendered one, and behind it `?`, or `&` if it has a query, and the driver's parameters in order |
| EngineMeaning.GroupsBind | crates/forage-http/src/engine.rs:795-808 | each regex group means its capture, or null, the last one if a name comes twice; no other variable changes |
| EngineMeaning.PageMeans | crates/forage-http/src/engine.rs:462-606 | a page binds `$page`, sends the rendered request, and binds the parsed body under `$` and the step's name; or it fails for one of six reasons, with that error |
| EngineMeaning.LoopTurns | crates/forage-http/src/engine.rs:384-435 | a loop takes one turn for each item, in order, each with the item as loop variable and `$` and every other variable as before, until one fails |
| EngineMeaning.StatementPerforms | crates/forage-http/src/engine.rs:258-441 | what each kind of statement does, the cap on a top-level loop included |
| EngineMeaning.BodyRuns | crates/forage-http/src/engine.rs:258-441 | statements run in order, each from the state the one before left, until one fails |
| EngineMeaning.RunBegins | crates/forage-http/src/engine.rs:176-255 | a run logs in with inputs, secrets and `$page` in scope, and runs its body with that token from an empty snapshot |
| EngineInvariants.LoopReaches | crates/forage-http/src/engine.rs:384-435 | a loop that succeeds leaves the scope exactly as it was: depth, every frame, `$` |
| EngineInvariants.StatementsReach | crates/forage-http/src/engine.rs:258-441 | any piece of a run only extends snapshot and history, stays within budget, and leaves outer frames alone |
| EngineInvariants.BudgetHolds | crates/forage-http/src/engine.rs:462-468 | for every transport and recipe, nested loops included, step requests never exceed `max_requests`; the history is the transport's own answers |
| EngineInvariants.RunIsSound | crates/forage-http/src/engine.rs:639-682 | record i has id `rec-i`, counts are those of the snapshot, each reference in scope or in a field names an earlier record of that type or was an input; ids differ |
| EngineInvariants.StepPages | crates/forage-http/src/engine.rs:471-491 | the k-th request of a step binds page k, and on numbered strategies its page parameter says the same number, zero- or one-indexed |
| PaginatedFetch.SteadyServes | crates/forage-http/src/engine.rs:471-606 | between the requests of a step only `$`, `$page`, its own name, its regex groups and the history change; a server that answers alike in all such states serves the step |
| PaginatedFetch.NumberedBinds | crates/forage-http/src/paginate.rs:39-97 | whatever the pages hold, a numbered step binds the items of all pages up to and including the first at which its driver stops, in as many requests |
| PaginatedFetch.PageWithTotalRefines | crates/forage-http/src/paginate.rs:41-75 | when the responses the step gets are the slices of a list, it binds exactly the list in max(1, ceil(n / size)) requests, or runs out of budget if fewer are left |
| PaginatedFetch.UntilEmptyRefines | crates/forage-http/src/paginate.rs:76-97 | m non-empty pages are bound concatenated in m + 1 requests |
| PaginatedFetch.CursorRefines | crates/forage-http/src/paginate.rs:98-110 | a chain of m pages is bound in m requests |
| PaginatedFetch.NonArrayStops | crates/forage-http/src/engine.rs:777-793 | a page that is a node list or a single value is taken for items but counted as none: wherever it comes, a numbered step stops after it |
| Sampling.SampleIsPrefix | crates/forage-core/src/eval/mod.rs:85-91 | a sampled run of a recipe whose only top-level loop comes last succeeds whenever the full one does, with a prefix of its records and of its fetches |
| Sampling.TailPrefixIff | crates/forage-http/src/engine.rs:341-361 | when an emit follows the only top-level loop, and the loop emits on each item but never that type, a sample is a prefix of the records if and only if the cap is at least the number of items |
| Urls.UrlMatchesIsEquivalence | crates/forage-http/src/transport.rs:88-96 | URL matching is an equivalence, the kernel of `strip_origin` |
| Urls.QueryOrderIgnored | crates/forage-http/src/transport.rs:98-122 | URLs that differ in the order of query parameters match |
| Urls.OriginIgnored | crates/forage-http/src/transport.rs:98-122 | URLs with an absolute path that differ in scheme and host match |
| Urls.MatchIff | crates/forage-http/src/transport.rs:88-122 | URLs with queries match if and only if their stripped paths are equal and their parameters are equal as multisets; a URL with a query never matches one without |
| Urls.StripPathKeeps | crates/forage-http/src/transport.rs:104-113 | of a path without `//` everything is kept; of any other, what follows the host after the last `//` |
| Urls.AbsoluteMatchIff | crates/forage-http/src/transport.rs:88-122 | absolute URLs whose paths have no `//` match if and only if paths and parameter multisets agree |
| Urls.DoubledSlashHides | crates/forage-http/src/transport.rs:104-113 | a `//` inside a path hides all of the path before it from a match |
| Replay.ReplayTransport.Fetch | crates/forage-http/src/transport.rs:66-83 | the answer is status, headers and body of the first recorded exchange whose method is the same letter by letter, up to case, and whose URL matches; a missing-fixture error if and only if there is none |
| Replay.MatchesIffSame | crates/forage-http/src/transport.rs:69-71 | a fixture applies if and only if the methods agree letter by letter, up to ASCII case, and the URLs match |
| Replay.RecordingTransport.Fetch | apps/cli/src/main.rs:737-763 | the live answer comes back unchanged; an answered request is captured with its URL, method, headers, text body and answer, a failed one is not |
| Replay.ReplayIffUnambiguous | apps/cli/src/main.rs:668-716 | replaying the captures of a successful run gives the live answer to every request of it if and only if equal keys were answered alike |
| Replay.RecordThenReplay | apps/cli/src/main.rs:668-763 | if answers depend only on the key, replaying a recorded run of one recipe succeeds with the same records |
| PipelineReplay.PipelineReplayIff | apps/cli/src/main.rs:668-763 | the stages of a recorded pipeline share one recorder: its captures reproduce the whole run, fetch by fetch, if and only if equal keys were answered alike |
| PipelineReplay.RecordThenReplayPipeline | apps/cli/src/main.rs:668-716 | if answers depend only on the key, a recorded pipeline that succeeded ends with the same snapshot when the runtime replays it |
| HttpDriver.BindPriorRecords | crates/forage-http/src/engine.rs:816-860 | all upstream records, in order, are in the first input that takes a list of them, or the only one in an input that takes one; refused if and only if no input takes a list and none takes one alone or there are several |
| HttpDriver.NoRecordIsDropped | crates/forage-http/src/engine.rs:138-146 | a stage that starts has every upstream record in one input, element by element, and all other inputs as they were |
| HttpDriver.RunInner | crates/forage-http/src/engine.rs:176-255 | login and statements reach the state of the recursive run |
| HttpDriver.StageDelivers | crates/forage-http/src/engine.rs:116-175 | a stage whose upstream records have no room fails before any fetch; any other one has them all in one input and ends as the run on its inputs does, with that run's records, numbered from the first |
| Linked.LinkedModule.ChainIsShort | crates/forage-core/src/linked.rs:86-97 | in an acyclic module no chain of stages below the root is longer than the module has names |
| Linked.LinkedModule.AcyclicIsBounded | crates/forage-core/src/linked.rs:86-97 | a module is acyclic if and only if the chains below its root are bounded |
| Linker.Walk.WalkStage | crates/forage-core/src/link.rs:175-200 | the search adds only reachable local recipes, with all they reach, keeps what was there, and ends because unvisited recipes decrease |
| Linker.CollectStageClosure | crates/forage-core/src/link.rs:162-173 | the closure is exactly the local recipes reachable from the root, each with its file and its emit set |
| Linker.Link | crates/forage-core/src/link.rs:81-129 | a module is linked if and only if the root and everything it reaches is free of errors, and is then root, closure and catalog; the issues are those of the root and of everything it reaches |
| Linker.LinkedIsClosed | crates/forage-core/src/link.rs:81-129 | when only local stages pass validation, every stage reference of every linked node resolves |
| Linker.LinkedAcyclicIff | crates/forage-core/src/link.rs:162-200 | the linked module is acyclic if and only if no path of stages in the workspace comes back to a recipe |
| Linker.LinkedRunEnds | crates/forage-core/src/link.rs:81-129 | then its run ends, and only a leaf can fail it |
| Runtime.DerivePriorRecords | crates/forage-core/src/runtime.rs:245-255 | all records in order, under the first type name that is not empty, or the empty one if all are |
| Runtime.RunRecipe | crates/forage-core/src/runtime.rs:111-130 | on an acyclic module the run ends; on a closed one without empty compositions it never reports an unresolved stage or zero stages |
| Runtime.RunRecipeNode | crates/forage-core/src/runtime.rs:139-182 | a scraping recipe answers what the driver of its engine answers, and a browser recipe with upstream records is refused; a composition drops `prior` and ends as its stages make it |
| Runtime.RunCompositionNode | crates/forage-core/src/runtime.rs:184-238 | stages run in order until one fails: the first on the outer inputs and no records, each later one on no inputs and all records of the one before; the last snapshot is handed on |
| Runtime.CompositionComposes | crates/forage-core/src/runtime.rs:184-238 | the same of the recursive runtime, at any nesting bound |
| Runtime.NodeEnds | crates/forage-core/src/runtime.rs:139-238 | every node of an acyclic module ends, and only leaves can fail a sound one |
| Runtime.DeeperIsSame | crates/forage-core/src/runtime.rs:139-238 | the nesting bound never changes a result it admits |
| Runtime.DepthIsNesting | crates/forage-core/src/runtime.rs:184-238 | with drivers that never fail, a sound node runs to an end within a depth if and only if its stages are nested no deeper, and then succeeds |
| Runtime.EndsIffAcyclic | crates/forage-core/src/runtime.rs:111-238 | with drivers that never fail, the run of a sound module ends if and only if no chain of stages below its root is cyclic |
| Runtime.ResolveTerminalEmits | crates/forage-core/src/runtime.rs:272-289 | the walk goes from a recipe without emits to its last stage, ends on an acyclic module, and gives the emit set of the recipe it ends at |
| Runtime.TerminalIsLast | crates/forage-core/src/runtime.rs:272-289 | the recipes of that walk |
| Runtime.TerminalIsNonEmpty | crates/forage-core/src/runtime.rs:272-289 | if every scraping recipe emits something, so does every pipeline's end |
| Flatten.UnrollRuns | crates/forage-core/src/runtime.rs:139-238 | a node runs as the tree of its compositions does |
| Flatten.FlattenKeepsMeaning | crates/forage-core/src/runtime.rs:139-255 | with nested compositions in first position only, at any depth, a run is the run of the flat chain of leaves: same snapshot, same error |
| Flatten.FlattenIffFirstOnly | crates/forage-core/src/runtime.rs:150-153 | for HTTP recipes, flattening is right for all drivers and inputs if and only if nested compositions come first |
| Notebook.Synthesize | crates/forage-daemon/src/run.rs:198-284 | succeeds if and only if every stage is deployed and loads, else fails at the first that does not; the root lists the stages in order; what each merged name and catalog entry is |
| Notebook.CurrentIs | crates/forage-daemon/src/run.rs:213-224 | a listed name stands for the module of its current version; a failed look-up, a missing deployment and a failed load are told apart |
| Notebook.MergedIsClosed | crates/forage-daemon/src/run.rs:198-284 | merging closed deployments is closed; each listed name is its current deployed root unless the synthetic root took the name |
| Notebook.AgreeingMergeIsAcyclic | crates/forage-daemon/src/run.rs:236-247 | deployments that agree on shared names merge without a cycle |
| Notebook.NotebookRunEnds | crates/forage-daemon/src/run.rs:147-190 | such a notebook run ends, and only a leaf can fail it |
| Notebook.NotebookEndsIffAcyclic | crates/forage-daemon/src/run.rs:147-190 | over sound deployments, with drivers that never fail, a notebook run ends if and only if the merged module has no cycle below its root |
| Notebook.MergeMayCycle | crates/forage-daemon/src/run.rs:236-247 | two deployments, each closed, acyclic and runnable, that disagree on two names: their merge recurses deeper than any bound |
| HubModel.RefRoundTrip | hub-api/src/storage.ts:717-725 | splitting a reference gives back author and name when the author has no slash |
| HubModel.SplitRefBack | hub-api/src/storage.ts:721-725 | splitting is one-to-one, and fails exactly on text without a slash |
| HubModel.AdjustedMeaning | hub-api/src/storage.ts:727-748 | appending and removing keep a listing duplicate-free and change the one membership only |
| HubModel.VersionChain | hub-api/src/routes/types.ts:244-342 | version k + 1 of a type is based on k and differs from it in source and digest |
| HubModel.DedupIsLatest | hub-api/src/storage.ts:288-303 | the hash index answers with the latest version exactly when the source has the latest's digest |
| HubModel.NextTypeHashed | hub-api/src/storage.ts:275-286 | the hash index keeps naming the greatest version of each digest |
| HubRegistry.ValidateTypeRefs | hub-api/src/routes/packages.ts:525-544 | accepts exactly duplicate-free references whose input and output parts pin declared versions |
| HubRegistry.ValidatePartition | hub-api/src/routes/packages.ts:569-591 | accepts exactly a duplicate-free part of the declared references at the declared versions |
| HubRegistry.OneVersionEach | hub-api/src/routes/packages.ts:569-615 | a valid recipe answers to at most one version of a type |
| HubRegistry.PutThenGet | hub-api/src/storage.ts:184-226 | what is put is read back, inline or through a blob, and no other version reads differently |
| HubRegistry.PackageStored | hub-api/src/routes/packages.ts:376-429 | after a publish every version reads back and every listing equals the scan it replaces |
| HubRegistry.TypeStored | hub-api/src/routes/types.ts:342-405 | the same for a type publish, with the hash index |
| HubRegistry.ForkCounted | hub-api/src/routes/forks.ts:172-176 | `fork_count` is the number of forks |
| HubRegistry.Registry.DiffProducerConsumerIndexes | hub-api/src/routes/packages.ts:444-479 | each listing gains or loses the recipe exactly where the signature changed |
| HubRegistry.Registry.DiffAlignmentIndex | hub-api/src/routes/types.ts:423-442 | the same for type-level alignments |
| HubRegistry.Registry.IndexRemoveCategory | hub-api/src/storage.ts:473-484 | the category list stays exactly the non-empty categories |
| HubRegistry.Registry.PublishVersion | hub-api/src/routes/packages.ts:253-436 | every refusal in order leaves the store alone; accepted if and only if the caller may write it on the latest base; version n + 1 then carries the payload's content under the caller's name, metadata is the payload's with lineage, counters and owner kept, and a type lists the recipe if and only if the payload's outputs, or inputs, name it |
| HubRegistry.Registry.PublishTypeVersion | hub-api/src/routes/types.ts:199-416 | the same for types, with alignments, parent and digest; a source with the latest's digest answers with the latest version and changes nothing |
| HubRegistry.Registry.CreateFork | hub-api/src/routes/forks.ts:39-179 | made if and only if allowed: version 1 has the upstream's latest content under the caller's name, its lineage on record and no counts, and is listed wherever that content is; the upstream counts one fork and one download more |
| HubRegistry.PublishAmounts | hub-api/src/routes/packages.ts:351-429 | what a publish stores, in terms of its payload |
| HubRegistry.TypeAmounts | hub-api/src/routes/types.ts:316-405 | what a type publish stores, in terms of its payload |
| HubRegistry.ForkAmounts | hub-api/src/routes/forks.ts:110-176 | what a fork stores, in terms of the upstream |
| HubRegistry.PublishRefusedUnless | hub-api/src/routes/packages.ts:259-345 | no refusal applies if and only if the caller owns the package or is admin, the shape is right and the base is the latest version |
| HubRegistry.Registry.AddStar | hub-api/src/routes/stars.ts:14-43 | starring is idempotent and the counter is the number of star records |
| HubRegistry.Registry.RemoveStar | hub-api/src/routes/stars.ts:46-70 | the inverse, never below zero |
| HubRegistry.Registry.RecordDownload | hub-api/src/routes/downloads.ts:12-25 | one more download, nothing else |
| HubRegistry.Registry.DiscoverProducers | hub-api/src/routes/discover.ts:59-101 | the listings are those of a full scan of latest versions, with or without a version filter, each once |
| HubRegistry.Registry.DiscoverConsumers | hub-api/src/routes/discover.ts:103-142 | the same on the input side |
| HubRegistry.Registry.DiscoverAlignedWith | hub-api/src/routes/discover.ts:150-179 | exactly the types whose latest version declares the alignment |
| HubRegistry.Registry.ListExtensions | hub-api/src/routes/types.ts:450-493 | exactly the types whose latest version pins that parent version |
| HubRegistry.Registry.Serve | hub-api/src/routes/packages.ts:351-478 | after any run of requests everything above holds, and no latest version went down |
| HubInterleaved.SafeIsStable | hub-api/src/storage.ts:184-226 | the puts a request still has to make stay safe whatever other requests do meanwhile |
| HubInterleaved.AlwaysReadable | hub-api/src/routes/packages.ts:376-402 | under any interleaving of single puts and any stops, stale metadata included: every version up to the latest reads back under its number, no slot dangles, every hash entry names a stored version |
| HubInterleaved.PublishEvents | hub-api/src/routes/packages.ts:376-402 | a publish nothing interrupts has the effect of the atomic one |
| HubAlone.TypeAlone | hub-api/src/routes/types.ts:342-345 | so has a type publish |
| HubAlone.ForkAlone | hub-api/src/routes/forks.ts:76-176 | so has a fork, whatever its size |
| HubAlone.StarAlone | hub-api/src/routes/stars.ts:14-70 | so has a star, and an unstar |
| HubAlone.DownloadAlone | hub-api/src/routes/downloads.ts:12-25 | so has a download |
| HubAlone.RefusedAlone | hub-api/src/routes/types.ts:199-312 | a request that is refused, or finds its work done, leaves the store as it was, however many steps it takes |
| HubRaces.NeverDropsIff | hub-api/src/routes/stars.ts:14-70 | along any interleaving, stops included, the latest version of a package never goes down if and only if no copy of its metadata is overtaken: for a star, unstar, download or fork bump by one event that raises it between read and write, for a publish or a fork's own package by two |
| HubRaces.NoOverlapNeverDrops | hub-api/src/routes/downloads.ts:12-25 | it never goes down if no copy is read before, and written after, an event that raises it |
| HubRaces.StaleDownloadRollsBack | hub-api/src/routes/downloads.ts:18-23 | a download that straddles a publish takes the new version off the record, from any state |
| HubRaces.HashesTrueIff | hub-api/src/storage.ts:275-303 | along any interleaving every digest names a version with that digest if and only if no put writes over a version that a digest names, or names one that was written over |
| HubRaces.HashesStayTrue | hub-api/src/routes/types.ts:244-405 | that holds as long as publishes of a type do not overlap, from first read to last put, and none stops between its digest and its metadata |
| HubRaces.OverlappingTypesMismatch | hub-api/src/routes/types.ts:342-343 | two type publishes that arrive in any state and overlap leave a digest naming a version with another source |
| HubRaces.StoppedTypeMismatch | hub-api/src/routes/types.ts:342-345 | so do two in a row when the first stops before its metadata |
| Cadence.Advance | crates/forage-daemon/src/scheduler.rs:276-297 | the division equals adding steps one by one: never, when cron says, or the least whole number of minutes, hours or days times the interval past the planned time that lies in the future |
| Cadence.StepPastIsLeast | crates/forage-daemon/src/scheduler.rs:276-297 | the result is the least anchor + k * step, k at least 1, after now |
| Cadence.UnitLengths | crates/forage-daemon/src/scheduler.rs:330-337 | the lengths of a minute, an hour and a day |
| Cadence.PlannedOnCadence | crates/forage-daemon/src/scheduler.rs:255-271 | a run without a planned time is planned as if it had just fired; a planned interval fire keeps its time, even a past one |
| Cadence.LifeOnCadence | crates/forage-daemon/src/run.rs:96-120 | a write-back plans the run by its cadence from the copy its execution read; nothing else moves the planned time |
| Cadence.NoOverflow | crates/forage-daemon/src/scheduler.rs:330-337 | within 2^61 of the epoch no step of the arithmetic leaves 64 bits |
| Cadence.StartsAreBounded | crates/forage-daemon/src/run.rs:113-120 | whatever manual triggers overlap, write-backs fail and processes stop, at most 1 + ceil(L / step) scheduled fires of a run start in a stretch of length L, plus one for each start whose write-back was lost |
| Cadence.LostFiresAgain | crates/forage-daemon/src/scheduler.rs:97-110 | the bound is met: after a lost write-back the scheduler fires the same tick again at once |
| Scheduler.ChooseNextFire | crates/forage-daemon/src/scheduler.rs:200-249 | the first corrupt row not yet failed, else the earliest fire, first among equals, else nothing |
| Scheduler.SyntheticUntilWritten | crates/forage-daemon/src/scheduler.rs:59-73 | after any number of turns, whatever the clock says, the loop head still yields a synthetic failure if and only if fewer writes went through than there are corrupt rows |
| Scheduler.StuckWithoutWrites | crates/forage-daemon/src/scheduler.rs:59-73 | while every write fails it yields the same failure for any number of turns |
| Scheduler.HeadMarks | crates/forage-daemon/src/scheduler.rs:137-194 | as many corrupt rows as had their write go through are failed and lose their planned time, the first in list order, and nothing else changes |
| Scheduler.DrainSynthetic | crates/forage-daemon/src/scheduler.rs:54-76 | the loop head, each turn with its own clock and its own write: what it leaves, and that it stops at a plan exactly when every corrupt row was written |
| Scheduler.OverdueIsFiredSoon | crates/forage-daemon/src/scheduler.rs:38-115 | among N runs an overdue interval run is fired after at most N - 1 other fires, however long each takes |
| Health.DeriveHealth | crates/forage-daemon/src/health.rs:34-70 | failed if the run failed; healthy with fewer than three prior runs; else drift if and only if some type, even one gone from the latest run, is at most 0.7 of the non-zero median of its ranked prior counts |
| Health.MedianOfSorted | crates/forage-daemon/src/health.rs:72-84 | the median is the mean of the two middle counts in any ascending arrangement, or the middle one |
| Health.MedianHalves | crates/forage-daemon/src/health.rs:72-84 | at least half of the counts are no greater than the median, and at least half no smaller |
| Health.DriftThreshold | crates/forage-daemon/src/health.rs:57-68 | the comparison is with 0.7 of that median, over the reals |
| Health.HealthIsOrderFree | crates/forage-daemon/src/health.rs:34-84 | health depends on the multiset of prior runs only |
| Health.HealthIsMonotone | crates/forage-daemon/src/health.rs:34-84 | raising latest counts and lowering prior ones never turns a healthy run into a drifting one |
| Deployments.VersionDirParses | crates/forage-daemon/src/deployments.rs:28-66 | the scan reads back the version a directory was named for |
| Deployments.TempDirIsNoVersion | crates/forage-daemon/src/deployments.rs:88-91 | work directories never look like versions |
| Deployments.MaxVersionOnDisk | crates/forage-daemon/src/deployments.rs:41-68 | the greatest version among the directory names, if any |
| Daemon.RenameKeeps | crates/forage-daemon/src/deployments.rs:113-118 | the rename target never exists beforehand, versions renamed into place increase, nothing loadable stops loading |
| Daemon.PointersStay | crates/forage-daemon/src/run.rs:113-120 | rows, stale copies and history keep naming versions that load |
| Daemon.NewestIff | crates/forage-daemon/src/run.rs:45-120 | a row whose pointer was the newest after some commits still points at the newest if and only if no version of its recipe was committed since |
| Daemon.Daemon.NextVersion | crates/forage-daemon/src/lib.rs:586-603 | one more than the greatest version used in the table or on disk, work directories aside |
| Daemon.Daemon.DeployPick | crates/forage-daemon/src/lib.rs:565-605 | the picked version is one more than the greatest version ever renamed into place or committed for the recipe, or 1 |
| Daemon.Daemon.DeployRename | crates/forage-daemon/src/deployments.rs:75-119 | one new immutable directory; the target was free |
| Daemon.Daemon.DeployCommit | crates/forage-daemon/src/lib.rs:607-633 | row and run pointer together, or neither: every row of that recipe moves to the committed version, which is then its newest, and no other row changes, comes or goes |
| Daemon.Daemon.LoadDeployed | crates/forage-daemon/src/lib.rs:657-678 | loads if and only if there is a row, and then the module that was deployed |
| Daemon.Daemon.ConfigureRun | crates/forage-daemon/src/lib.rs:440-509 | keeps an existing run's identity and pointer; a new run starts at the newest version |
| Daemon.Daemon.RemoveRun | crates/forage-daemon/src/lib.rs:511-518 | the row goes, with its history if deletes cascade |
| Daemon.Daemon.Execute | crates/forage-daemon/src/run.rs:305-328 | the version of the stale row, which always loads |
| Daemon.Daemon.RunFinish | crates/forage-daemon/src/run.rs:59-121 | history, health and next run in one transaction, writing back the whole stale row, or nothing; a pointer that was the newest when the execution began is the newest after it if and only if no version of the recipe was committed meanwhile |
| Daemon.Daemon.FinishAcrossDeploy | crates/forage-daemon/src/run.rs:45-120 | from any state with the deploy lock free, a deploy between read and write-back leaves the run at its old version with a newer one deployed |
| Daemon.Daemon.SyntheticFinish | crates/forage-daemon/src/scheduler.rs:137-194 | the same for a synthetic failure: failed row, cleared next run, and the same condition on the pointer |
| Daemon.ListPriorOk | crates/forage-daemon/src/db.rs:351-369 | the newest ok executions before a moment, at most the limit, each as often as the history has it, none newer left out |
| Daemon.Daemon.Trace | crates/forage-daemon/src/run.rs:36-133 | however deploys, configures, removals, executions and crashes interleave: every row has its directory, versions strictly increase, directories never change, every pointer in rows, stale copies and history loads |
| RateLimit.Limiter.Check | hub-api/src/http.ts:122-161 | the decision and the stored entry; a request is rejected if and only if its window has had `max` admissions; expiry in storage never matters; a rejection writes nothing |
| RateLimit.ExpiryChangesNothing | hub-api/src/http.ts:158-159 | an expired entry would have been ignored anyway |
| RateLimit.RetryAfterIsEnough | hub-api/src/http.ts:146-156 | `retryAfter` lies in 1..window, and the next request after it is admitted |
| RateLimit.RetryAfterIsLeast | hub-api/src/http.ts:146-156 | and any request that comes a whole second earlier is rejected |
| RateLimit.RejectedIffFull | hub-api/src/http.ts:141-146 | rejected if and only if the last `max` admissions share a window that still lasts |
| RateLimit.PerWindow | hub-api/src/http.ts:122-161 | at most `max` admissions share a stored window |
| RateLimit.PerInterval | hub-api/src/http.ts:122-161 | at most 2 * `max` admissions fall into any stretch of a window's length |

## Left out

- The recipe parser, the expression evaluator and the validator: evaluation is a record of functions with two contracts (no invented reference, no swallowed fetch failure), validation a predicate.
- The debugger, progress events and step-response snapshots of the engine: they change no record.
- Turning field values into JSON at an emit, and response parsing beyond a function of headers and text.
- Regular expressions: a pattern is a function of the text that may fail, as a pattern that does not compile does.
- Live retry, throttling and cookies: a transport is a function of the requests before, which covers sessions.
- `ReplayTransport.fetch_json` and the browser engine with its captures.
- Networks, SQLite, the file system and tokio: tables are maps, directories a map of names, locks atomic sections, failures and crashes explicit steps.
- Eventual consistency of KV: each get and put is atomic on its key.
- The index puts in `HubInterleaved`: they touch none of the keys its invariant speaks of, and index agreement is not claimed there.
- Answers 500 for a corrupt store (`forks.ts:84-92`, `types.ts:288-296`): no state the model reaches is corrupt.
- The regular expressions and size limits of the payload validators, and the 413 and bad-JSON answers: shape checks are functions of the payload.
- Paging of list routes, JSON-LD rendering, CORS, routing and token checks.
- 32-bit version numbers and counters: they do not wrap here. Times are proved to fit 64 bits for stated bounds.
- Cron parsing: a function whose fires lie strictly after the moment asked for.
- The zero-stage error is a constructor of its own here; the source reports it as a driver error.
- A failed read of the run list, which idles the scheduler for one poll.
- The output store and its SQL columns, catalogs beyond a map of names to text, and secrets.
- Runtime.NodeEnds: `depth` bounds the nesting the functions follow; on a cyclic module, where the source would recurse for ever, the result is no value.
- Runtime.RunRecipe: the methods of the runtime require an acyclic module, which the validator enforces before a deploy; the functions they are proved against do not.
- PipelineReplay.RecordThenReplayPipeline: the recorded run is a function over the history its stages share; the methods of the runtime are proved for drivers that share none, as replaying ones do.
- HubRaces.HashesStayTrue: sufficient only; the exact condition on the puts is `HubRaces.HashesTrueIff`.
- Linker.Link: the workspace is a map of files by header name, without the order in which issues are listed.
- Daemon.Daemon.RemoveRun: whether the database cascades deletes is a parameter, since it depends on how SQLite was built.
