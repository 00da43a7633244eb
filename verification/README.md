# Verified model of the compaction engine

This project models the context compaction engine in Dafny and proves what its
documentation promises, over every input, every run and every interleaving.

The engine takes a transcript, partitions it into dependency groups, archives it, asks a
scorer about cheaper representations of the unprotected groups, and returns a shorter
transcript or the original one. Four parts are modelled:

- **The engine** (`compact/`): validation and grouping with an in-place union-find, the
  proposals, the greedy selection, the splice back into transcript order, and the five
  outcomes of `Compact`.
- **The scoring client** (`jev/client.go`): context shrinking, batching and splitting, the
  worker pool with cancellation, decoding and merging.
- **Excerpts** (`compact/excerpt.go`): ranking, the byte budget and the rune-boundary cut,
  with UTF-8 as in section 3 of RFC 3629.
- **The snapshot store** (`archive/store.go`): savers that interleave, are killed or lose
  power between any two steps.

## How to read it

| module | what is in it |
|---|---|
| `Text`, `Transcript` | Go strings as bytes, UTF-8, decimal numbers, lines; the request types |
| `UnionFind` | the least equivalence over a set of edges, and `find`/`join` on an array |
| `Groups`, `GroupCollection` | what a valid request and its grouping are; the code that computes them |
| `Acceptance`, `Openness` | the same in terms of the messages alone: what is accepted, what belongs together, what may be reduced |
| `Excerpts`, `Wording`, `Representations` | excerpts, the archive reference, `represent` and `variants` |
| `Unicode`, `ExcerptContents`, `Offers` | what valid text is, what an excerpt shows, what is offered and how it reads |
| `Scores`, `Greedy`, `Partitions`, `Assembly`, `Evaluations`, `Selection` | the policy, the greedy loop, and the way from groups to a transcript |
| `Policy`, `Previews`, `Statuses` | the gates in numbers, what the scorer is told, how a pass ends and what its counts say |
| `Engine`, `Guarantees`, `Preservation`, `Stability`, `StableGroups`, `StableResult` | `Compact`, and the theorems about its results |
| `Questions`, `Batching`, `Asking`, `Merging`, `Agreement`, `Pool`, `Client` | the scoring client, from question keys to `ScoreWithStats` |
| `Plans`, `Requests`, `Contexts` | what a plan is, what each body asks and carries, which context is sent |
| `Composition` | engine and client together |
| `Archive`, `ArchiveHistory`, `Recovery` | the store as a step machine, its histories, and recovery |

A Go string is a Dafny `string` whose characters stand for bytes. The token counter,
`json.Valid`, the form `json.Marshal` gives to call arguments, and keyword matching are
parameters (`Representations.Env`). The scorer is a function from an evaluation to scores or
an error, and so is the server behind the client. A cancelled context is a flag that can rise
at any check (`Greedy.Context`), or at any step of the pool. "Verbatim" is relative to the
request after `cloneRequest`, which rewrites the JSON form of call arguments.

Where a map is visited in an unspecified order (the results in `collectGroups`, the ids of a
part in the merge), the method picks any remaining key, and its contract shows that the
choice cannot be seen in the result.

## Where the code and its own text differ

- `archive/store.go:21` calls concurrent writes of the same snapshot safe. They are, exactly
  as long as no temporary name is handed out while a saver that has created its file and not
  yet renamed it still holds the name (`Archive.Orderly`). Such a name can become free because
  the deferred `os.Remove` acts on the name and not on the file. A name held by a saver that
  is past its rename does no harm. `SafeIffOrderly` and `LastingIffOrderly` state this for the
  integrity of all files and for the snapshots that were saved, over whole histories and all
  they can lead to; `SavedSnapshotIsLost` is a concrete history in which an id that was
  returned no longer loads. One saver at a time in a directory is enough (`OneSaverIsOrderly`).
- `excerpt` keeps its byte limit exactly when the text itself is within the limit or the
  limit is at least the 39 bytes of its header (`ExcerptBound`); every caller is above that.
- `docs/architecture.md` names one threshold of 0.20; the code also has a policy with a
  threshold of 0.5 and the legacy gates (`Scores.ActionLoss`). The code is followed.

## Model

| member | source | states |
|---|---|---|
| UnionFind.LinkedIsLeast | compact/groups.go:69-92 | being linked is the smallest equivalence: every equivalence relation that contains the edges contains it |
| UnionFind.LinkedIsEquivalence | compact/groups.go:69-92 | being linked is reflexive, symmetric and transitive and contains every edge |
| UnionFind.Find | compact/groups.go:154-160 | terminates on every forest, returns the root, and halving paths changes no root |
| UnionFind.Join | compact/groups.go:162-164 | afterwards exactly the two trees share a root |
| UnionFind.HalvingKeeps | compact/groups.go:155-158 | replacing a parent by the grandparent keeps every root and the rank order |
| UnionFind.MergeIsForced | compact/groups.go:162-164 | joining along an edge merges nothing that some colouring of the edges could tell apart |
| UnionFind.RootsDecideLinked | compact/groups.go:69-92 | once all edges are joined and nothing else, two messages share a root if and only if they are linked |
| Openness.TogetherIsTied | compact/groups.go:69-92 | two messages belong together if and only if no colouring that keeps declared dependencies, shared labels and, by default, calls with their results can tell them apart |
| Openness.UnlinkedStandsAlone | compact/groups.go:89-91 | in the result-only mode a message without declared links is a group of its own |
| Acceptance.AcceptedExactly | compact/groups.go:19-88 | a request is accepted if and only if its settings are within their limits, every message is well formed, no message, result or call id occurs twice, and all references resolve |
| Groups.GroupingUnique | compact/groups.go:84-130 | a request has exactly one grouping, so the order in which the result map is visited cannot show |
| GroupCollection.ScanMessages | compact/groups.go:33-68 | succeeds if and only if every message is valid and reuses no message, result or call id; the maps index them |
| GroupCollection.LinkDeclared | compact/groups.go:69-83 | succeeds if and only if all dependencies resolve, and joins dependencies and shared labels |
| GroupCollection.LinkCalls | compact/groups.go:84-92 | in any visiting order: succeeds if and only if every result has an earlier call, and joins call and result in the default mode |
| GroupCollection.AssembleGroups | compact/groups.go:96-130 | returns the classes of the least equivalence in transcript order with ids, flags and reasons |
| GroupCollection.ProtectConversations | compact/groups.go:180-193 | protects exactly the groups without a tool result that are not protected yet |
| GroupCollection.CollectGroups | compact/groups.go:18-94 | accepts exactly the valid requests and returns their grouping |
| Groups.MemberReasonCounts | compact/groups.go:119-126 | one protected member protects the whole group |
| Openness.OpenExactly | compact/groups.go:109-152 | a group may be reduced if and only if it holds a tool result, no member is pinned, unresolved, late (by default among the last four), an instruction, or makes a call that is pending or has a side effect, and in the result-only mode its results answer free, unlinked calls |
| Openness.ReasonIsTrue | compact/groups.go:119-152 | the reason given for a protected group is true of one of its members, or of the call it answers, or says that the group is conversation |
| Excerpts.ClipText | compact/excerpt.go:64-73 | walking back from the limit computes the cut |
| Excerpts.ClipIsLongestPrefix | compact/excerpt.go:64-73 | the clip is the longest prefix within the limit that ends at a rune boundary |
| Excerpts.SortedRanks | compact/excerpt.go:38 | sorting keeps every line and puts none behind a line it outranks |
| Excerpts.SelectLines | compact/excerpt.go:39-52 | the budget loop selects a prefix of the ranks with their entries |
| Excerpts.MakeExcerpt | compact/excerpt.go:12-62 | the whole excerpt, loop by loop, is the specified text |
| Excerpts.PicksLength | compact/excerpt.go:40-52 | the selected lines overdraw the remaining bytes by at most 25 |
| Excerpts.ExcerptBound | compact/excerpt.go:12-62 | the excerpt is within its limit if and only if the text is or the limit is at least 39 (line numbers below 10^28) |
| Excerpts.ExcerptLiteralAndDominant | compact/excerpt.go:16-60 | the lines of the excerpt are the heading, shown lines whose numbers strictly ascend, and the final line break; each shown line is its source line, whole or cut at a rune boundary and marked; no omitted line outranks a shown one |
| ExcerptContents.ExcerptShowsAll | compact/excerpt.go:16-60 | a shown line is whole unless it exceeds a quarter of the limit (and 80 bytes) or the bytes left to it less 24; then it is cut at the last rune boundary within, in valid UTF-8 at most three bytes off; lines of at most 8 bytes are whole; lines are left out only when the shown ones leave fewer than 32 of the limit less 64 bytes, and only behind shown ones in keyword score plus 2 for the first and last two lines; with a limit of 96 something is shown |
| Excerpts.ExcerptValid | compact/excerpt.go:12-73 | valid UTF-8 stays valid UTF-8 |
| Unicode.ValidIsUtf8 | compact/groups.go:42 | valid text is the UTF-8 form, by the table of RFC 3629 section 3, of some Unicode scalar values |
| Unicode.Utf8IsValid | compact/groups.go:42 | the UTF-8 form of any scalar values is valid text |
| Unicode.BlankIsSpace | compact/selection.go:184 | text is blank if and only if every rune is white space |
| Unicode.DecimalReads | compact/excerpt.go:50 | numbers are written in base ten without leading zeros |
| Representations.RepresentMessages | compact/selection.go:158-180 | only texts of tool results change, to the form of the action |
| Representations.MakeVariants | compact/selection.go:13-29 | the proposals in order, without those that save nothing or drop assistant text |
| Representations.ProposalsHonest | compact/selection.go:13-29 | each proposal is the exact representation with its exact count, below the original count, and never drops assistant text |
| Offers.OfferedExactly | compact/selection.go:13-29 | to an open group an action is offered if and only if it saves tokens and, for removal, loses no narration and whole groups may go; in the order extract, brief, reference, drop |
| Offers.RepresentIsExact | compact/selection.go:158-180 | removal leaves nothing; any other action changes only texts of tool results, to evidence (the text itself within 1600 or 320 bytes, else an excerpt that shows all it can) and the reference |
| Offers.HeadReads | compact/selection.go:173-174 | the brief form states the bytes and the number of lines of the original |
| Offers.ReferenceReads | compact/selection.go:167 | the wording of the reference, with snapshot and message |
| Representations.CountOne | compact/types.go:101-106 | with CountConcat: the count of a list is the sum of the costs of its messages |
| Representations.ReducedTextValid | compact/selection.go:162-178 | a reduced text is valid UTF-8 |
| Scores.ValidateScores | compact/engine.go:225-255 | accepts exactly the score maps that cover every candidate and proposal with probabilities under one policy |
| Policy.ValidExactly | compact/engine.go:225-255 | the scores name every candidate, under one policy each, with probabilities for all that the policy reads |
| Policy.RetentionGate | compact/selection.go:88-100 | retention scores: brief below 0.5 for the result, removal below 0.5 for result and call, at the higher of both |
| Policy.LossGate | compact/selection.go:101-104 | per-action losses: exactly those below 0.2, at that loss |
| Policy.LegacyGate | compact/selection.go:105-120 | legacy gates: detail below 0.2 and, for removal, relevance below 0.2 |
| Policy.LegacyOrder | compact/selection.go:109-117 | the legacy losses, which rise from extract to removal and stay below 0.2 |
| Scores.DropIsNeverTheOnlyWay | compact/selection.go:87-121 | a corollary of the gates: outside the per-action policy a group that may be dropped may also be kept in brief at no higher loss |
| Greedy.FindBest | compact/selection.go:60-80 | the two loops find the move that adds the least loss, plus a thousandth, for each token saved, the first one among equals, or none if no permitted proposal is cheaper |
| Greedy.NoBetterMove | compact/selection.go:71-76 | no move that adds less loss than the chosen one saves as many tokens |
| Greedy.StepTakesLightest | compact/selection.go:56-83 | every state of a run but the last is over the target, and the next differs in one group, which takes its lightest move with the messages, tokens, action and loss of the proposal |
| Greedy.Reduce | compact/selection.go:54-83 | the loop terminates as a finished run of best moves, or stops because the context was cancelled |
| Greedy.RunIsUnique | compact/selection.go:54-83 | the run is determined by groups, proposals, scores and target |
| Greedy.StepLowers | compact/selection.go:81-82 | every step strictly lowers the total |
| Greedy.RunLength | compact/selection.go:56-83 | a run has at most as many steps as there are proposals |
| Greedy.StuckIsMinimal | compact/selection.go:78-80 | where the loop gives up, every group is at the fewest tokens any assignment could give it |
| Greedy.GreedyIsComplete | compact/selection.go:54-83 | the loop meets the target if and only if some assignment of originals and permitted proposals does |
| Partitions.PartitionSum | compact/selection.go:148-154 | summing group by group is summing in order, however the groups interleave |
| Assembly.Assemble | compact/selection.go:123-156 | the chosen messages in transcript order, and one decision a group |
| Statuses.DecisionsReport | compact/selection.go:126-141 | each decision names its group, the ids of its members in order, the action, and the score and policy or the reason for protection |
| Assembly.PickedIsSpliced | compact/selection.go:144-154 | looking messages up by id puts each choice in the place of its member |
| Assembly.TokensConserved | compact/selection.go:81-84 | the running total equals the recount of the assembled transcript |
| Evaluations.Evaluate | compact/engine.go:167-215 | one candidate for each unprotected group, in order; AcceptedIsTold says what it holds |
| Previews.AcceptedIsTold | compact/engine.go:167-215 | the scorer is told the goal, the sampled conversation and, for each open group in order, its id, its cost, its proposals and its pieces |
| Previews.PreviewShowsMembers | compact/engine.go:186-212 | the preview is made of one piece a member, in order: id, role and call id, a line for each call (in the result-only mode for the answered one) and the text; a complete preview is exactly the pieces, so it contains every text |
| Previews.CloneIsExact | compact/engine.go:257-267 | the clone differs from the request in the written form of call arguments alone |
| Evaluations.CompleteMeansWhole | compact/engine.go:212 | a candidate is marked complete if and only if its preview is the whole group text; previews have at most 16000 bytes |
| Evaluations.OffersHonest | compact/engine.go:199-211 | at most four proposals a group, no action twice, none for a protected group, no drop in the result-only mode |
| Selection.MakeBoard | compact/selection.go:39-53 | built group by group through the maps of proposals and scores, the board holds for each group its own |
| Statuses.BoardIsOriginal | compact/selection.go:39-53 | selection starts from every group in full, at no loss, with its own proposals and score |
| Selection.SelectMessages | compact/selection.go:38-85 | the assembled outcome of a finished greedy run |
| Selection.SelectionIsComplete | compact/selection.go:54-84 | the recount of the selected transcript is within the target if and only if an assignment is feasible |
| Selection.SelectionSteps | compact/selection.go:56-83 | at most four steps for each unprotected group |
| Engine.CountDecisions | compact/engine.go:122-145 | the tally of kept, reduced, dropped and rejected groups |
| Statuses.CountsAreExact | compact/engine.go:64-145 | the counts of a result: kept, reduced, dropped and rejected among its decisions, protected groups and their cost |
| Engine.Compact | compact/engine.go:30-165 | every field of the result in each of the five outcomes; an error carries no transcript and names its cause: cancelled, invalid or not cloned, not archived |
| Statuses.ScoredExactly | compact/engine.go:90-113 | scores count only when the scorer gave them and they are valid for what it was asked |
| Statuses.EndingIsExact | compact/engine.go:60-164 | which request ends in which status: unchanged, scoring failed and unmet exactly when, and otherwise compacted within the target, partial when allowed and smaller, else unmet, each with its messages, decisions and reduction |
| Statuses.SelectedIsLeast | compact/engine.go:147-164 | over the target, no assignment of originals and permitted proposals costs less than what was selected |
| Guarantees.BudgetIsTold | compact/engine.go:60-164 | a corollary of the outcomes: budget_met if and only if the returned messages fit; counts are true recounts; nothing changes unless applied |
| Guarantees.EarlyExitIsSound | compact/engine.go:64-80 | when protected messages alone exceed the target no assignment could meet it, whatever the scores |
| Guarantees.NoCandidatesNoSaving | compact/engine.go:85-89 | without candidates no assignment could meet the target |
| Guarantees.CompactedIffFeasible | compact/engine.go:60-164 | with valid scores an over-budget request is compacted if and only if some assignment meets the target |
| Guarantees.DiagnosticsAreExact | compact/engine.go:122-147 | protected, kept, reduced and dropped add up to the groups; over the target every kept group was rejected |
| Preservation.ResultRetains | compact/selection.go:123-156 | in every outcome: original order and ids, only whole open groups missing, only texts of open tool results changed |
| Preservation.ProtectedIsVerbatim | compact/engine.go:66-70 | every member of a protected group is present unchanged |
| Preservation.AssistantTextIsVerbatim | compact/selection.go:16-18 | every assistant message with non-blank text is present unchanged |
| Preservation.MarkedIsVerbatim | compact/groups.go:132-152 | pinned, unresolved, recent and instruction messages, and pending or side-effecting calls, are present unchanged |
| Preservation.OpenIsUnremarkable | compact/groups.go:109-152 | no member of an unprotected group has a protecting property |
| Preservation.IndividualResults | compact/groups.go:119-126 | result-only mode: every message survives in place; a changed result is unmarked and answers a free, unlinked call without side effects |
| Stability.TogetherSame | compact/groups.go:69-92 | two retained messages are linked in the output if and only if they were in the input |
| Stability.RecentSame | compact/groups.go:119 | recency is the same although positions shift |
| StableGroups.AcceptedAgain | compact/groups.go:18-93 | what was retained is again a valid request |
| StableGroups.RetainedIsGrouping | compact/groups.go:96-130 | the retained groups, renumbered, are the grouping of the output |
| StableResult.AnalysisIsStable | compact/groups.go:18-130 | every non-empty transcript returned is accepted again, and its one grouping is the list of retained groups |
| StableResult.CompactedIsFinal | compact/engine.go:60-63 | compacting a compacted transcript again returns it unchanged |
| Questions.LossKeyInjective | jev/client.go:350-352 | two loss questions share a key only if they are the same question |
| Questions.EachAskedUnderItsKey | jev/client.go:272-289 | every question of a request stands in the map under a key no other question uses |
| Questions.DecodeAnswers | jev/client.go:319-347 | the decoding loop fails exactly when some needed answer is missing or malformed |
| Questions.DecodeAgrees | jev/client.go:319-347 | a decoded part holds for each candidate the answers to its own questions |
| Questions.DecodeNeedsAll | jev/client.go:354-364 | decoding succeeds only if every question has a probability in [0, 1] |
| Requests.PlannedBodiesCarry | jev/client.go:260-291 | every body of a plan is the encoding of goal, context and its own candidates (without variants under KeepScoring) and, under the keys by which answers are read, exactly their questions |
| Batching.EndOf | jev/client.go:229-241 | all prefixes of a batch fit, and it closes only at the end of the list or because the next candidate would not fit |
| Batching.SplitIsExact | jev/client.go:368-415 | one request a variant with that variant untouched; the preview is a rune-boundary prefix, marked incomplete exactly when shortened |
| Plans.PlanIsTurns | jev/client.go:226-258 | the plan covers the candidates in order: a request holds as many consecutive candidates as fit both limits, and a candidate that does not fit alone is sent in parts, each with a preview halved no further than needed |
| Plans.NoPlanNoWay | jev/client.go:370-415 | there is no plan only when some candidate cannot be sent alone and, even without its preview, not in parts either |
| Batching.PlanFits | jev/client.go:226-258 | every planned request fits |
| Plans.PlanKeepsLimits | jev/client.go:417-423 | every planned request is within MaxRequestBytes and MaxRequestTokens |
| Batching.MakeBatches | jev/client.go:226-258 | success is the plan within MaxBatches, each body the encoding of its own candidates; failure means there is none or a body cannot be encoded |
| Asking.PlanAsksEverything | jev/client.go:226-258 | the requests ask, in order, exactly the questions of the candidates |
| Asking.AskedExactlyOnce | jev/client.go:272-289 | with distinct ids and actions no question is asked twice in a pass |
| Merging.MergeOne | jev/client.go:212-221 | the ids of a part can be merged in any order |
| Merging.MergedIsTable | jev/client.go:210-222 | merging in request order gives the table with one answer a question |
| Agreement.MergedScoresAreTheAnswers | jev/client.go:210-223 | each merged loss is the answer to its question from the request that asked it, and validateScores accepts the result |
| Pool.StepKeeps | jev/client.go:174-209 | every step of dispatcher, workers, first error and cancellation keeps the invariant: each batch is accounted for and each error has its reason |
| Pool.ScheduleIndependent | jev/client.go:174-209 | in every interleaving a successful pass holds the one send of each batch under its index |
| Pool.EndIsDetermined | jev/client.go:174-209 | in every interleaving the pass succeeds if and only if every send succeeds and nobody cancels from outside; otherwise the error is that of a batch whose own send fails, unless somebody did |
| Pool.OutsideWasCancelled | jev/client.go:172-203 | only a cancellation by the caller counts as one from outside |
| Pool.NothingAfterCancel | jev/client.go:180-188 | once the context is cancelled no send starts, and the first error stays |
| Contexts.InFlightIsBounded | jev/client.go:179 | in every interleaving at most MaxConcurrent requests are in flight at any moment |
| Pool.AlwaysSafe | jev/client.go:179-201 | at every moment: no batch sent twice or held twice, at most one send a worker, no failed send forgotten |
| Pool.CallerCanCancel | jev/client.go:172-186 | the caller can cancel at any moment, and then any send in flight may fail |
| Pool.NoDeadlock | jev/client.go:179-203 | until all workers have returned some step other than an outside cancellation is possible |
| Pool.ExecutionsEnd | jev/client.go:174-203 | every execution is finite, with at most six steps a batch, one a worker and two |
| Contexts.WorkersAreUsed | jev/client.go:179 | there are as many workers as requests, or as many as are allowed |
| Client.ShortenedIsShorter | jev/client.go:155-164 | each round lowers the rune count although the mark adds 27 |
| Client.FitContext | jev/client.go:143-165 | terminates for every context, at the first one that is empty or whose body fits half of both limits |
| Contexts.FittedIsFirst | jev/client.go:143-165 | the context sent is the first of the shortened forms that is empty or leaves half of both limits |
| Contexts.NoneFittedNoneMeasured | jev/client.go:144-151 | shrinking fails only when some form of the body cannot be encoded or counted |
| Contexts.ShortenedKeepsEnds | jev/client.go:155-164 | shortening keeps the first and the last quarter of the runes around the mark; below 80 runes nothing |
| Client.RunPool | jev/client.go:174-203 | under every schedule the pool ends, in the state the schedule leads to, which is that of an execution |
| Client.ScoreWithStats | jev/client.go:136-224 | whatever the schedule: when all bodies can be encoded it succeeds if and only if the plan exists within MaxBatches, every send succeeds and nobody cancels; a success is the merge, in request order, of the decoded replies; every error has its reason |
| Client.ScorePlan | jev/client.go:172-223 | the sends of a plan succeed if and only if each of them does and nobody cancels from outside |
| Client.SuccessIsAccepted | jev/client.go:210-223 | what a successful pass returns is what was answered, and the engine accepts it |
| Requests.ScoresAreTheAnswers | jev/client.go:210-223 | every reply holds, under each key of its own body, the well-formed answer to the question there, and the score of every candidate consists, field by field, of the answers to its own questions |
| Composition.CandidatesAreDistinct | compact/engine.go:167-215 | the candidates the engine asks about have distinct ids, each with distinct actions |
| Composition.ScoringFailsOnlyWithTheClient | compact/engine.go:90-113 | engine and client together: scoring_failed if and only if the client was asked and returned an error; otherwise the scores of the result are the answers it received |
| Archive.StepKeeps | archive/store.go:37-76 | every orderly step of a saver, of the kernel, of a kill or a power loss keeps the store invariant |
| ArchiveHistory.StepIsSafeIffOrderly | archive/store.go:47-66 | after an orderly history, a step keeps all files of all orderly continuations whole if and only if it is not CreateTemp handing out a name that a saver between create and rename holds |
| ArchiveHistory.StepIsLastingIffOrderly | archive/store.go:47-75 | the same condition decides whether some orderly continuation loses a snapshot whose id was returned (for a hash that is not constant) |
| ArchiveHistory.SafeIffOrderly | archive/store.go:47-66 | a history keeps every snapshot file whole, synchronized and named by its hash, now and in all orderly continuations, if and only if it is orderly |
| ArchiveHistory.LastingIffOrderly | archive/store.go:37-105 | a history keeps every returned id loadable, now and in all orderly continuations, if and only if it is orderly |
| ArchiveHistory.SavedSnapshotIsLost | archive/store.go:47-75 | the concrete history that is not orderly: a returned id whose load fails its integrity check |
| ArchiveHistory.OneSaverIsOrderly | archive/store.go:47-66 | with at most one saver at a time in the directory every history is orderly |
| ArchiveHistory.LoadIsExact | archive/store.go:79-105 | loading succeeds if and only if the file with the id has this hash and decodes; the errors tell what is missing |
| ArchiveHistory.SavedIsLoaded | archive/store.go:37-105 | once Save has returned, the snapshot loads as saved in every later state of an orderly history, through kills and power losses |
| ArchiveHistory.RenamedCanBeLost | archive/store.go:67-75 | the synchronization of the directory is needed: until then a power loss can take a committed snapshot away |
| ArchiveHistory.UnsyncedCanChange | archive/store.go:54-56 | the synchronization of the file is needed: until then a power loss can leave any bytes in it |
| ArchiveHistory.RecallMessage | archive/store.go:108-119 | the first message with the id, or the error of the load |
| ArchiveHistory.FindMessageFirst | archive/store.go:113-118 | what is found is the first message with the id, and nothing is found only when there is none |
| Recovery.EverythingIsRecoverable | compact/selection.go:162-178 | in every orderly history every input message is recalled exactly, dropped ones included, and every changed text ends in the reference that recalls its original |
| Recovery.ReferenceIsRead | compact/selection.go:167 | whoever reads a reference off the end of a text reads the one that was put there |
| Recovery.StoredAnalysisIsStable | compact/groups.go:18-130 | with the ids of this store the analysis of every returned transcript is stable without further assumptions on the snapshot |

## Left out

- Rounding: losses and weights are real numbers, so ties that floating point would create or break are not modelled; NaN and infinite scores have no counterpart.
- Engine.Compact: does not model errors of the token counter (`Count` always succeeds in the engine) and leaves the warnings out of the result.
- `cloneRequest` as encode and decode: it is modelled by what it does to an accepted request, and whether it goes through is a parameter of `Compact`. It can fail: arguments may be nested up to 10000 levels to be valid JSON on their own, and inside the request they sit five levels deeper.
- `scoringContext`, `NewReplay` and the wording of errors and warnings, timings and names.
- A scorer that changes the evaluation it is given, or scores that alias each other: both are values here.
- HTTP, authentication, command line, and the configuration checks of the constructors; the client assumes the bound `MaxConcurrent >= 1` they establish.
- The BPE tokenizer, JSON encoding and SHA-256: parameters with the contracts the lemmas name. Collision freedom is assumed only among the documents saved in a history.
- Unicode case folding and keyword matching of lines: an arbitrary score, on which nothing proved depends.
- Send results of the pool: what a batch's reply is does not depend on when it is sent; a send may also fail at any time once the context is cancelled.
- File permissions, and errors of opening or reading directories in the store.
