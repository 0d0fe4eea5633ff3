# Verification of the incident-analysis server's core logic

A Dafny 4.11 project that models the parts of the server that decide
something on their own, and proves what they promise. Each module follows one
component; methods with loops and state are proved against a specification,
and the specification's properties are lemmas beside it.

- **Replay of immutable reads** (`GraphqlQuery`, `FragmentCycles`,
  `ReplayRules`, `ReplayClassifier`, `ReplayDefaults`, `GraphqlExecution`,
  `ReplayStability`, `ReplaySoundness`, `ReplayPromises`, `ReplayCache`,
  `ReplayExamples`, `ReplayLimits`). The classifier is a scope-typed analysis of
  a query's syntax. It is proved to agree with the analysis of the inlined
  query, to accept just the fields that are promised to stay, and to be
  noninterfering: what it accepts and the cache records is what the endpoint
  answers at every later moment. Query execution (collecting fields over
  fragments, directives, merging, completion) follows sections 6.3 and 6.4 of the
  GraphQL specification (October 2021). The chain is any service that meets
  `ReplayStability.Faithful`, which speaks of things and not of scopes: every
  object is data, a package version, a module or function as something names
  it, an address, an owner or an epoch; `Promised` says which fields of each
  kind stay and what they lead to; named lookups may appear but not change, and
  logs are fixed up to a checkpoint every pipeline has passed. `ReplayLimits` shows
  each remaining condition to be exact, with services built to break it
  wherever it does not hold.
- **Request transport** (`Semaphore`, `RateWindow`, `Transport`,
  `TransportRuns`, `RetryLoop`). The semaphore and the rate window as
  objects; any number of calls interleaved over them as a step relation with a
  monotone clock, in which waits may also end early; and the retry loop of one
  call, with or without a rate window and with other calls holding slots,
  proved to be a run of that relation. After a connection failure the backoff
  runs with the slot held, after a retryable answer without it, as in the code.
- **String algorithms** (`EditDistance`, `MoveType`).
- **Route decoding** (`RouteLoops`, `SwapContext`).
- **Resumable scans** (`SegmentScan`, `EventPages`, `ControlScan`,
  `Discovery`, `DiscoveryCache`). The service may return short and empty pages;
  `Honest` says only that it stays in its segment and claims another page
  whenever rows are left.
- **Graph and accounting loops** (`Dependencies`, `Positions`, `Coverage`).

`Wrappers` holds the option type they all share.

Where code and documentation differ, the model follows the code. In four
places a promise does not hold as it stands; each has its exact condition and
a concrete failure:

- A range's settling is checked after its answer was read, so a chain that
  grows in between can let an unsettled answer be recorded. Everything served
  is live if and only if the growth between answer and check and the lag of the
  pipelines together fit the settling distance (`ReplayLimits.LiveIffMargin`,
  `ReplayLimits.LateCheckEscapes`); an answer whose bound the latest checkpoint
  known before asking already settles is safe however late its check
  (`ReplayCache.CoveredAnswerStays`).
- Declared defaults of query variables are not seen by the classifier. A
  classified query that would also be classified with the values it runs with
  is sound (`ReplaySoundness.ReplaySound`). For a query of one root field and
  its digest the condition is exact (`ReplayLimits.SoundIffPinned`): of the root
  fields, `object` and `multiGetObjects` fail exactly when the values it runs
  with give an object a `rootVersion`, `package` and `multiGetPackages` exactly
  when they give a package an `atCheckpoint`, and no other root field can fail
  (`ReplayLimits.DefaultsEscape` has a query of each kind).
- A read of an event page may claim another page and give no end cursor. Over a
  split window the next call then resumes at the start of the segment, and the
  listing has every event once if and only if no such read had passed an event
  of its segment. Over a single connection there is then no cursor to go on
  with, no event is ever listed twice, and the listing is complete if and only
  if no event was left behind that read (`EventPages.NextGoesOn`,
  `EventPages.EachEventOnce`, `EventPages.AnEventListedTwice`,
  `EventPages.AnEventNeverListed`).
- A coverage page whose cut row is followed by a smaller row of a later list
  loses the cut row. The pages list every row once if and only if none of them
  does that (`Coverage.EveryRowOnce`, `Coverage.ALongNoteIsLost`).

`dafny verify dfyconfig.toml` checks the whole project.

## Model

| member | source | states |
|---|---|---|
| `ReplayRules.RangeEndBounds` | src/clients/replay.ts:257-273 | every checkpoint that a filter with a range end lets through is at most that end, and the filter closes its start |
| `ReplayRules.RangeEndIsTight` | src/clients/replay.ts:257-273 | no smaller bound would do: the range end is itself let through whenever anything is |
| `ReplayRules.RangeEndIffClosed` | src/clients/replay.ts:253-273 | a filter whose checkpoints read as checkpoints has a range end exactly when both its ends are closed |
| `ReplayRules.LatestCovers` | src/clients/replay.ts:292-298 | the bound of a list of object keys covers the checkpoint of each |
| `ReplayRules.LatestIsOne` | src/clients/replay.ts:292-298 | and is the checkpoint of one of them |
| `ReplayRules.CheckpointIs` | src/clients/replay.ts:233-236 | which arguments read as which checkpoint |
| `FragmentCycles.InlinesIffAcyclic` | src/clients/replay.ts:384-387 | a query inlines exactly when every fragment it reaches is defined and none of them can be reached from itself (section 5.5.2.2 of the GraphQL specification) |
| `ReplayClassifier.Classifier.Fixed` | src/clients/replay.ts:367-390 | the walk with its set of seen fragments accepts exactly when the walk of the inlined selections does, pushes exactly its required paths in order, and ends on (fragments not yet seen, selection size) |
| `ReplayClassifier.Classifier.FixedField` | src/clients/replay.ts:371-380 | one field: allowed in its scope or a pinned `packageAt`, whose path must then be present, and its selections walked in the child scope |
| `ReplayClassifier.Classifier.Collect` | src/clients/replay.ts:392-414 | the walk of the root selections: root rules, required paths and bounds are those of the inlined query |
| `ReplayClassifier.Classifier.CollectField` | src/clients/replay.ts:405-411 | one root field: its rule, its required path, its bound, and everything under it |
| `ReplayClassifier.ClassifyGraphql` | src/clients/replay.ts:355-417 | verdict, required paths and bound equal those of the fully inlined query; a reachable fragment cycle or undefined fragment gives none |
| `ReplayPromises.ClassifiedExactly` | src/clients/replay.ts:355-417 | a query that selects nothing under scalars is classified exactly when its fragments inline, it asks for more than the type name, every root field has a rule and every field below is promised on the kind of thing it is selected on |
| `ReplayPromises.WalkIsExact` | src/clients/replay.ts:367-390 | the walk of a selection set accepts it exactly when every field in it, at any depth, is promised on what it is selected on |
| `ReplayPromises.UnderATransaction` | src/clients/replay.ts:144-209 | exactly which fields may be asked of the addresses, owners, epochs, modules and functions that a transaction names |
| `ReplayPromises.RootsAre` | src/clients/replay.ts:275-315 | which root fields have a rule: lookups whose keys name one thing for good, objects as of a checkpoint, the newest of a package, ranges with an end |
| `ReplayStability.WalkFollows` | src/clients/replay.ts:167-209 | the scope the walk goes on in is that of the thing the field leads to, and no allowed field goes unpromised |
| `ReplayStability.FieldFixed` | src/clients/replay.ts:167-209 | so an allowed field of a fixed thing never changes, and what it leads to is fixed where the walk goes on |
| `ReplayStability.RootStable` | src/clients/replay.ts:275-315 | what each root rule claims is so: its answer, once found and settled, agrees in the rule's scope with the answer at every later moment |
| `ReplayStability.SetStable` | src/clients/replay.ts:367-390 | noninterference for a selection set in any scope: with its required paths present, later moments collect, execute and complete it to the same data (section 6.3.2 of the GraphQL specification) |
| `ReplaySoundness.SoundAsSent` | src/clients/replay.ts:9-30 | classified with the values it runs with, defaults included, a query is sound: an answer that is recordable and whose bound is final is the answer at every later moment |
| `ReplaySoundness.ReplaySound` | src/clients/replay.ts:9-30 | a query classified on the values given, and acceptable with those it runs with, is answered, once recordable and with its bound final by the verdict given, with exactly that data at every later moment |
| `ReplaySoundness.SuppliedIsSent` | src/clients/replay.ts:211-214 | giving a value for every variable with a default is one way to meet that |
| `ReplaySoundness.VerdictAsSent` | src/clients/replay.ts:275-315 | a query acceptable both ways must show the same paths, and depends on nothing later with its defaults than without |
| `ReplayDefaults.RuleAsSent` | src/clients/replay.ts:275-315 | the same of one root field: the same scope, or a version's in place of its lineage's, and no later bound |
| `ReplayDefaults.PathsAsSent` | src/clients/replay.ts:367-390 | the same of the required paths of any selection set |
| `ReplayCache.ReplayingFetch.Settled` | src/clients/replay.ts:445-462 | whether the bound is settled, and exactly when the latest checkpoint is read again and remembered |
| `ReplayCache.ReplayingFetch.Fetch` | src/clients/replay.ts:464-502 | a hit is served from the store and a miss live; the store changes exactly for a classified, recordable answer that is unbounded or settled by the latest checkpoint remembered after its check; what is remembered changes only in such a check, to the checkpoint read, when the one known neither settles the bound nor is fresh |
| `ReplayCache.FetchIsRun` | src/clients/replay.ts:441-503 | one request is a run of the step relation with the endpoint's own answers, to the same store and the same latest checkpoint |
| `ReplayCache.NextKeepsInv` | src/clients/replay.ts:441-503 | every step of interleaved requests, chain growth and checks in time keeps each stored body, of a request that would be classified as it runs, equal to the live answer from then on |
| `ReplayCache.ServedIsLive` | src/clients/replay.ts:437-482 | cache transparency over runs: if the growth of the chain between an answer and its check, and the lag of the pipelines, fit the settling distance, what the store holds is what the endpoint would answer at that moment |
| `ReplayCache.CoveredAnswerStays` | src/clients/replay.ts:445-462 | what a caller can check first: if the latest checkpoint known at any earlier point of the run settles the bound, a recordable answer is the live answer from then on, however late its own check or any other |
| `ReplayCache.WrittenOnlyIfFixed` | src/clients/replay.ts:427-433 | no entry is written for an unclassified, errored, null or unsettled answer, nor under another request |
| `ReplayLimits.UnsettledEscapes` | src/clients/replay.ts:46-51 | the settling condition is exact: for every bound that is not final some faithful service takes a classified, recordable answer back |
| `ReplayLimits.LateCheckEscapes` | src/clients/replay.ts:445-492 | the settling check runs after the answer: for any two heights that the lag puts further apart than the settling distance, some run stores and serves an answer the endpoint has taken back |
| `ReplayLimits.LiveIffMargin` | src/clients/replay.ts:445-492 | so everything served is live, for every service and run, if and only if growth before the check and lag together are within the settling distance |
| `ReplayLimits.NullEscapes` | src/clients/replay.ts:419-433 | without the null check, a transaction looked up too early would be stored as missing for good |
| `ReplayLimits.DefaultsEscape` | src/clients/replay.ts:211-214 | two concrete queries with a default: one classified as a read at a checkpoint and run as one at a root version, one classified as a read of a version and run as one at a checkpoint; neither is sound |
| `ReplayLimits.SoundIffPinned` | src/clients/replay.ts:275-315 | a classified query of one root field and its digest is sound for every faithful service if and only if the values it runs with give no `rootVersion` to an object and no `atCheckpoint` to a package it looks up; other root fields cannot fail |
| `Semaphore.AcquireKeepsOrder` | src/clients/graphql.ts:55-61 | slots never exceed the limit, waiters exist only when all are taken, and nobody overtakes, after an acquire |
| `Semaphore.ReleaseKeepsOrder` | src/clients/graphql.ts:64-68 | a release with waiters hands its slot to the head waiter with every slot still taken; otherwise one slot is freed |
| `Semaphore.Limiter.Acquire` | src/clients/graphql.ts:55-61 | the new state, and whether the caller passes at once |
| `Semaphore.Limiter.Release` | src/clients/graphql.ts:64-68 | the new state, and the waiter the slot goes to |
| `RateWindow.PolledKeepsSound` | src/clients/graphql.ts:90-101 | every poll keeps the recorded starts the latest grants, sorted, and the (i+limit)-th grant a window after the i-th |
| `RateWindow.WaitsAtMostOnce` | src/clients/graphql.ts:98 | a refused caller that waits as long as asked is granted at its next poll |
| `RateWindow.GrantedWhenOld` | src/clients/graphql.ts:90-99 | granted exactly when there were fewer grants than the limit, or as many grants back as the limit is a full window ago; a refused caller is asked to wait until it is and a millisecond more |
| `RateWindow.NoWindowOverfull` | src/clients/graphql.ts:71 | grants so spaced leave no half-open window of that length with more than `limit` of them |
| `RateWindow.RateWindow.Pass` | src/clients/graphql.ts:92-97 | one pass of the loop: prunes and grants as specified, keeping the window sound |
| `RateWindow.RateWindow.Take` | src/clients/graphql.ts:90-100 | the loop: it ends with a grant at one of its clock readings, after at most one wait when waits last as long as asked |
| `Transport.NextKeepsInv` | src/clients/graphql.ts:165-223 | every step of every call keeps slots, queue, window and call histories consistent |
| `TransportRuns.ConcurrencyBound` | src/clients/graphql.ts:187-207 | in every run, fetches in flight never exceed the slots held, which equal `active` and never exceed `concurrency`; slots are granted first come, first served |
| `TransportRuns.CallBounds` | src/clients/graphql.ts:179-221 | in every run each call makes at most `attempts` fetches, each after a grant; every slot it acquired is released exactly once by the time it is done; every delay is at most `maxDelayMs` |
| `TransportRuns.RateBound` | src/clients/graphql.ts:71-101 | in every run of interleaved callers no window of the given length holds more than `limit` grants |
| `TransportRuns.FirstComeFirstServed` | src/clients/graphql.ts:83-88 | in every run the callers that left the window's queue, granted or failed, followed by those still in it, are all that joined, in the order they joined; and the grants are as many as the granted among them |
| `TransportRuns.TurnsGrow` | src/clients/graphql.ts:83-88 | that history of joining and leaving is only ever appended to |
| `TransportRuns.RefusedOnce` | src/clients/graphql.ts:83-100 | a refused caller whose wait lasted as long as asked is granted at its next poll |
| `TransportRuns.HistoryGrows` | src/clients/graphql.ts:48-101 | grants and admissions are only ever appended: nothing is reordered or taken back |
| `TransportRuns.NoDeadlock` | src/clients/graphql.ts:178-222 | while any call is unfinished, some call can take a step that is not an early reading, after enough time |
| `TransportRuns.StepWorks` | src/clients/graphql.ts:178-222 | every step but an early reading lowers the work left in all calls together |
| `TransportRuns.RunsAreBounded` | src/clients/graphql.ts:178-222 | so any run has at most as many steps as the work it starts with, and its early readings |
| `TransportRuns.EveryCallFinishes` | src/clients/graphql.ts:178-222 | from every reachable state some run ends with every call done |
| `Transport.BackoffBounds` | src/clients/graphql.ts:182-185 | the jittered backoff is never negative and never above the cap |
| `RetryLoop.Pass` | src/clients/graphql.ts:179-221 | one pass is a run of the transport's steps; the slot comes back on every path; it waits with the slot after a failed connection and without it after a retryable answer |
| `RetryLoop.TakeTurn` | src/clients/graphql.ts:83-100 | waiting at the head of the window's queue: each reading of the clock is a step of the transport, and it ends with a grant exactly when the window gives one at one of them |
| `RetryLoop.Prepare` | src/clients/graphql.ts:190-195 | from the slot to the fetch: through the window if there is one, or stopped by an abort or a failed turn, with the slot still held |
| `RetryLoop.Catch` | src/clients/graphql.ts:196-207 | the `catch` and `finally`: a connection failure short of the last attempt is waited out with the slot held, anything else ends the call, and the slot is released once either way |
| `RetryLoop.Answered` | src/clients/graphql.ts:209-220 | an answer in hand: retried as `RetryLoop.VerdictFits` says, with the delay asked for or the backoff |
| `RetryLoop.VerdictFits` | src/clients/graphql.ts:179-221 | a pass is to be retried exactly when attempts are left and it got 429, 500 or above, a transient body, or lost its connection; the wait is the one asked for, capped, or between half and all of the capped doubling of the base, with the slot held exactly after a lost connection |
| `RetryLoop.RetryingRead` | src/clients/graphql.ts:178-222 | the loop, with or without a rate window and beside other holders of slots: every pass but the last had attempts left, got such an answer or lost its connection, and waited to the end; the last did not; every wait fits; and the whole is a run of the transport from a state the transport can be in |
| `RetryLoop.AllAttemptsAreMade` | src/clients/graphql.ts:178-222 | when every pass gets such an answer or loses its connection, exactly the allowed number of attempts is made |
| `RetryLoop.WaitsAreBounded` | src/clients/graphql.ts:182-204 | no wait is negative or above the cap, and there is one only while an attempt is left |
| `EditDistance.NextRow` | src/tools/args.ts:351-357 | one row of the table from the row before it |
| `EditDistance.EditDistanceOf` | src/tools/args.ts:349-359 | the two-row loop returns the recursive Levenshtein distance for all pairs |
| `EditDistance.ZeroIffEqual` | src/tools/args.ts:348-359 | the distance is zero exactly for equal strings |
| `EditDistance.Symmetric` | src/tools/args.ts:348-359 | the distance is symmetric |
| `EditDistance.Triangle` | src/tools/args.ts:348-359 | the triangle inequality |
| `EditDistance.LengthBounds` | src/tools/args.ts:348-359 | the distance is at least the difference in length and at most the longer length |
| `EditDistance.ShortestScript` | src/tools/args.ts:348-359 | some script of insertions, deletions and replacements of that length turns one string into the other |
| `EditDistance.FewestEdits` | src/tools/args.ts:348-359 | the distance is at most n exactly when some script of at most n edits does: it is the fewest edits |
| `EditDistance.Nearest` | src/tools/args.ts:366-372 | the fallback returns the first name at the least distance, and only when that is at most 2 |
| `EditDistance.ClosestArgument` | src/tools/args.ts:362-373 | the first name wins in which the key stands between underscores or the ends, or with which the key begins; otherwise the nearest name |
| `EditDistance.SharesAWord` | src/tools/args.ts:364 | a key is one of the words of a name exactly when it stands in it between underscores or the ends, with no underscore in it |
| `EditDistance.WordsJoin` | src/tools/args.ts:364 | the words of a name have no underscore and make the name when joined with underscores |
| `EditDistance.WordsUnique` | src/tools/args.ts:364 | and no other list does |
| `MoveType.SplitTypeArgs` | src/tools/args.ts:219-234 | the loop computes the split at top-level commas |
| `MoveType.SplitExact` | src/tools/args.ts:219-234 | null exactly when brackets are unbalanced; otherwise the parts re-join to the input, are each balanced and have no top-level comma |
| `MoveType.SplitUnique` | src/tools/args.ts:219-234 | and it is the only list of parts that does |
| `MoveType.SplitOfJoin` | src/tools/args.ts:219-234 | splitting undoes joining |
| `MoveType.Complete` | src/tools/args.ts:236-250 | every text that prints a well-formed type, with whitespace around its arguments, is accepted |
| `MoveType.Sound` | src/tools/args.ts:236-250 | every accepted text prints some well-formed type, a struct type unless it is a type argument |
| `MoveType.Recognises` | src/tools/args.ts:236-250 | so the recogniser accepts exactly those texts |
| `MoveType.Unambiguous` | src/tools/args.ts:236-250 | no text prints two types |
| `MoveType.PrintRoundTrip` | src/tools/args.ts:236-250 | the plain printing of any type is accepted and is read back as that type only |
| `MoveType.NamesAre` | src/tools/args.ts:212-216 | the primitives, addresses and identifiers, letter by letter |
| `MoveType.SpacesAre` | src/tools/args.ts:237 | the characters that trimming takes off |
| `MoveType.TrimIs` | src/tools/args.ts:237 | trimming takes white space off both ends, all of it and nothing else |
| `RouteLoops.ClosingHop` | src/protocols/decoder.ts:75-82 | the shortest closing run from a hop, or none if no run from it closes |
| `RouteLoops.CountIsLength` | src/protocols/decoder.ts:87-91 | a run inside one path is as long as the path's hop count exactly when it is all of its hops |
| `RouteLoops.LoopAt` | src/protocols/decoder.ts:87-91 | the loop's hops, and that it is the whole trade exactly when it is all of its path and the route declares its coin at both ends |
| `RouteLoops.RouteLoopsOf` | src/protocols/decoder.ts:71-95 | ordered, pairwise disjoint runs, each the shortest from its first hop; every closing run of the input starts inside one of them |
| `RouteLoops.LoopsUnique` | src/protocols/decoder.ts:65-70 | that description determines the loops: no other list meets it |
| `RouteLoops.RoundTripsUnique` | src/protocols/decoder.ts:65-70 | nor does another choice of runs |
| `SwapContext.LabelContext` | src/protocols/decoder.ts:573-594 | labels the context if it can be labelled at all, every call of it or none |
| `SwapContext.LabelsAgree` | src/protocols/decoder.ts:535-540 | a context has at most one labelling |
| `SwapContext.OneReading` | src/protocols/decoder.ts:582-590 | the algorithm's list of readings has one entry exactly when the call has a unique reading: input held, never the route's output in or its input out unless the route is a loop |
| `SwapContext.LabelledRouteConnects` | src/protocols/decoder.ts:573-597 | with no stated swaps and distinct ends, labelled hops chain in call order from the route's input to its output |
| `SwapContext.ScanContext` | src/protocols/decoder.ts:554-569 | by the positions of the commands: the first later command that takes the context and confirms it, whether it confirms the route's output, the commands between that take it and are known to swap, in order with their own types, and whether another takes it |
| `SwapContext.ContextAt` | src/protocols/decoder.ts:548-594 | a context is found exactly when the call opens one, it is confirmed, readable and not empty, and can be labelled |
| `SwapContext.ContextIsDeclared` | src/protocols/decoder.ts:546-572 | the labellings of a context are those of the route its commands declare: its ends, its first confirmation, all commands between that take it, each a swap, with their own types once each less those that only ever stand last behind two others and are no end of the route |
| `SwapContext.MembersTake` | src/protocols/decoder.ts:546-597 | the commands that take part are those between that take the context |
| `SwapContext.SwapContextHops` | src/protocols/decoder.ts:541-599 | over all commands: exactly the contexts that can be labelled, and each command's hop is that of the last of them that labels it |
| `SwapContext.HopsUnique` | src/protocols/decoder.ts:541-599 | that description determines the hops: no other result meets it |
| `SegmentScan.CountPage` | src/tools/aggregate.ts:229-241 | the counts after a page are those of all events so far |
| `SegmentScan.ScanPages` | src/tools/aggregate.ts:213-255 | the loop stays within both budgets, reads on from its start without gap or repeat, and stops for the reason it gives |
| `SegmentScan.AggregateScan` | src/tools/aggregate.ts:195-262 | a call decodes its cursor or refuses it, an empty one being the start; its slice, counts, stop reason and next cursor are those of the events it read, and whatever the reason it stopped these are the first of what remained |
| `SegmentScan.FollowCursors` | src/tools/aggregate.ts:193-259 | following `next_cursor` to null reads all segments once and in order, whatever the page sizes and budgets; the counts add up to one unbudgeted scan's |
| `SegmentScan.CountsAddUp` | src/tools/aggregate.ts:208-235 | `countsByType` summed over slices counts the concatenated events |
| `SegmentScan.CursorRoundTrip` | src/tools/events.ts:50-60 | decoding an encoded cursor gives the segment and inner cursor back, also when the inner cursor contains ` |
| `SegmentScan.DecodedByParts` | src/tools/events.ts:50-60 | what both decoders make of any text, by what stands before and behind its first bar |
| `SegmentScan.CursorsDiffer` | src/tools/events.ts:50-60 | different resume points have different cursors |
| `EventPages.FillReads` | src/tools/events.ts:222-240 | the loop returns exactly what its reads come to: page full, reads spent, window ended or a page without a cursor, and where it stands |
| `EventPages.FillPage` | src/tools/events.ts:214-245 | the page's events come off the front of what remained, with a cursor that is decoded to where they end; a single connection whose read was lost has none; oldest first the list's end has a cursor that stands behind all of it, if the service gave one; a cursor that names a segment before the first fails the call, and one past the last gives an empty last page |
| `EventPages.NextGoesOn` | src/tools/events.ts:222-243 | the next call goes on with exactly what this page leaves if and only if each of its reads that claimed another page gave a cursor, or losing it did no harm: the segment had passed no event, or over a single connection none was left; a lost page is followed by its segment from the start, or over a single connection by nothing |
| `EventPages.ListedAgain` | src/tools/events.ts:237-243 | of a split window, among what comes again is all the lost page itself had listed of that segment |
| `EventPages.EachEventOnce` | src/tools/events.ts:214-245 | cursors followed until there is none list every event once and in order if and only if none came again and none was left behind; the first happens only over a split window, to what lost pages had passed in their segments, the second only over a single connection; with every cursor given and advancing neither does, and there is a last page |
| `EventPages.FollowPages` | src/tools/events.ts:214-277 | a caller that passes each page's cursor to the next call, while there is one, gets exactly that listing |
| `EventPages.PagesOfService` | src/tools/events.ts:214-245 | and its pages are those spoken of there |
| `EventPages.AnEventListedTwice` | src/tools/events.ts:222-243 | a service of two segments and a run of two pages that list the same event |
| `EventPages.AnEventNeverListed` | src/tools/events.ts:222-277 | a single connection whose listing ends, with no cursor to go on with, before its only event |
| `ControlScan.ScanSegment` | src/tools/control.ts:145-165 | one segment: ended, paused at exactly the first unread event with the budget spent, or stalled; it ends even if cursors never advance |
| `ControlScan.ScanPopulation` | src/tools/control.ts:132-175 | the resume cursor goes on at exactly the first event not scanned, across a segment boundary, and is withheld after a cursor that did not advance; what was scanned is in any case the first of what remained |
| `Dependencies.Level` | src/tools/dependencies.ts:72-90 | one level reads exactly the frontier's packages not visited yet, and its next frontier bounds where they lead |
| `Dependencies.WalkLevels` | src/tools/dependencies.ts:70-90 | what is visited is exactly the packages within the depth, failed reads having no out-edges |
| `Dependencies.Walk` | src/tools/dependencies.ts:66-109 | `unexpanded` is exactly the packages one step further, `remaining` those and the ones whose read failed, and `complete` holds exactly when every package reachable from the root was read without error |
| `Dependencies.Verdict` | src/tools/dependencies.ts:92-109 | no branch leading out and every node read is equivalent to all reachable packages being read |
| `Positions.Release` | src/tools/attack.ts:129-141 | the released balance of every coin is what consumed positions held and kept ones lost of it, an entry only where something came out |
| `Positions.AmountReleases` | src/tools/attack.ts:129-141 | what one amount of a row releases: all of it, any fall of it, or nothing |
| `Positions.RowReleases` | src/tools/attack.ts:129-141 | a row releases what its amounts do, each on its own |
| `Positions.ExplainRow` | src/tools/attack.ts:147-160 | one row: it takes what it can of its coin's balance, which stays what is left and never goes negative |
| `Positions.Explain` | src/tools/attack.ts:128-168 | the whole reconciliation, row by row in order; unchanged when nothing was released or nothing is unexplained |
| `Positions.ExplainsAllItCan` | src/tools/attack.ts:147-152 | conservation: per coin, what is explained is the less of all that was asked and all that was released |
| `Positions.ServedInOrder` | src/tools/attack.ts:147-152 | once a row is not explained in full, no later row of its coin is explained at all |
| `Positions.CoinsToTheUnit` | src/tools/attack.ts:147-160 | per coin, the remaining rows add up to exactly the shortfall, each positive |
| `Positions.DollarsToTheCent` | src/tools/attack.ts:153-166 | in exact reals the two dollar figures differ from the priced input by at most half a cent per remaining priced row and half a cent more |
| `Coverage.PageCoverage` | src/tools/attack.ts:233-261 | the slices of the four lists, the positions shown, for each list not shown in full its first row left out and how many are, the next offset and the total |
| `Coverage.TakeRows` | src/tools/attack.ts:243-250 | the inner loop over one list |
| `Coverage.QuietRuns` | src/tools/attack.ts:240-258 | a page on which no later list begins with a row that still fits is one unbroken run, as long as one list of all rows would give |
| `Coverage.LoudSkips` | src/tools/attack.ts:240-259 | any other page leaves out the row at the cut and moves the next offset past it |
| `Coverage.Progress` | src/tools/attack.ts:246-259 | a page with rows left takes at least one, so following the offsets ends |
| `Coverage.EveryRowOnce` | src/tools/attack.ts:232-261 | the pages list every row exactly once in order if and only if every page on the way is quiet; otherwise some row is on no page |
| `Coverage.UniformRowsListed` | src/tools/attack.ts:232-261 | which holds whenever row sizes never fall along the lists |
| `Coverage.ARowIsLost` | src/tools/attack.ts:240-258 | of any three rows where the second no longer fits behind the first and the third, in a later list, still does, the second is on no page |
| `Coverage.ALongNoteIsLost` | src/tools/attack.ts:233-258 | three JSON rows under the full budget of 60,000 characters, one of which no page shows |
| `Discovery.PageCoinMetadata` | src/discovery.ts:125-177 | the walk as specified: batches in order, until one is wanted, the pages end, a page fails or cannot be passed, or the budget is spent |
| `Discovery.WalkIs` | src/discovery.ts:125-177 | the walk by its pages: each led to by the one before, their batches and the number of their objects, and where and how it ended |
| `Discovery.TakeBatch` | src/discovery.ts:148-168 | the loop over a page's nodes |
| `Discovery.BatchIs` | src/discovery.ts:148-168 | a batch is the tokens of the nodes that carry one, each once and in order |
| `Discovery.StreamingRefinesScan` | src/discovery.ts:321-338 | stopping at the first match finds the token that the full bounded scan searched afterwards would give, reading a prefix of its pages |
| `Discovery.ResumeContinues` | src/discovery.ts:139-142 | resuming at `next_cursor`, after a spent budget or a failed page, reads exactly what one longer scan reads after the same pages |
| `Discovery.CutShortSaysWhy` | src/discovery.ts:117-124 | a scan cut short either names where to go on or failed |
| `DiscoveryCache.TokenFinder.FetchDiscoveryTokens` | src/discovery.ts:196-216 | served from a fresh entry, joined to the scan in flight, or the start of one |
| `DiscoveryCache.TokenFinder.ScanArrived` | src/discovery.ts:207-211 | a scan that arrives is kept only if it found tokens and no page failed |
| `DiscoveryCache.TokenFinder.ScanCleared` | src/discovery.ts:212-214 | its network is free for another scan |
| `DiscoveryCache.TokenFinder.ScanForSymbol` | src/discovery.ts:290-339 | whichever of the caches or the search answers, the token is the first match of the scan behind it and has the symbol asked for, and the report is that of the kept scan or of the pages read |
| `DiscoveryCache.EventKeepsInv` | src/discovery.ts:196-217 | every call, arrival and clearing keeps one scan per network and only good scans kept |
| `DiscoveryCache.OneScanInFlight` | src/discovery.ts:203-216 | in every run at most one full scan of a network is in flight |
| `DiscoveryCache.RepliesAreHonest` | src/discovery.ts:196-216 | a caller gets a kept scan of its own network that did not fail, or the one in flight |

## Left out

- ReplaySoundness.ReplaySound: assumes that the query would be classified with the values it runs with; `ReplayLimits.SoundIffPinned` gives the exact condition for one root field and its digest. A default for the `checkpoint` of a nested `packageAt` is another way out of the classified, without a theorem of its own.
- ReplayCache.ServedIsLive: assumes checks in time, as `ReplayLimits.LiveIffMargin` shows it must, and a request that would be classified as it runs.
- ReplayCache.NextKeepsInv: the same.
- ReplayCache.ReplayingFetch.Fetch: one request with nothing in between; interleaving is the subject of the step relation beside it. The SHA-256 key is the request itself, the file system a map written at once.
- RetryLoop.RetryingRead: one call that finds a free slot, while the other holders of slots stay where they are and nobody else joins the window's queue; calls that get in each other's way are modelled by `Transport`. What the call returns or throws is not carried, only that it ends.
- RetryLoop.Pass: the same, of one pass.
- RetryLoop.Catch: the same; nobody waits for the slot it gives up.
- RetryLoop.TakeTurn: the same; the call is alone in the window's queue.
- RetryLoop.Prepare: the same.
- EventPages.FillPage: an inner cursor is one the service can resume from. The most reads of a call, 10 in the source, is a parameter.
- ControlScan.ScanPopulation: the resume cursor is a segment and an inner cursor; its JSON and base64url text is not modelled.
- DiscoveryCache.TokenFinder.ScanForSymbol: a search that reads pages is one step; other callers changing the caches while it reads are not modelled there.
- Positions.Explain: takes unexplained amounts as not negative, zero included, as the reconciliation that produces them leaves them; amounts in exact reals instead of floating point.
- The GraphQL parser, and documents with other than one query operation: queries are given as syntax trees.
- GraphQL errors and the propagation of non-null failures, and nested selections under `__typename` at the root, which the classifier skips too.
- The members of the `data` and `code` field tables: abstract sets. Names inherited by plain objects, such as `constructor`, are not members of any table (field tables, Move primitives, variables, response keys).
- How JavaScript's `Number` reads a string: a parameter.
- The reserved-package check and the record and replay of gRPC reads: the same idea with less structure.
- The `Retry-After` header and error codes: their outcome (a delay, a kind of failure) is an input of the step.
- The promise chain behind the rate window is its queue; aborts, timers and clocks are events.
- Strings are sequences of characters, one per UTF-16 code unit, without lower-casing: the lowered name is an input of `EditDistance.ClosestArgument`.
- The order and direction of event pages (newest first) and the check for a cursor that repeats: a page is what the service returns in reading order.
- Canonical coin and type names, and the table of operations: inputs.
- `routeHop`, `oneCoinSwaps`, `addressFlow` and the rest of transaction decoding: selections by filters and branches.
- Samples per type, transaction digests and sender rankings of a scan: by-products of the events it lists.
- HTTP, gRPC, protobuf, tool registration, argument schemas, report prose, the registries and label tables, Move bytecode and pricing.
