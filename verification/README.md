# Verified models of opentraces

Dafny models of five parts of opentraces, with proofs of what they promise.

* **CI shard allocation** (`ShardAllocator`, `ShardLoads`, `ShardPlan`, `ShardTight`). Every CI runner sorts the test files by
  descending weight and gives each to the least loaded shard. Independent runners run every file exactly once, a shard
  is empty only when there are too few files, and the heaviest shard stays within Graham's bound of 4/3 - 1/(3m) of
  every rival plan, which is reached for every number of shards.
* **The Hermes conversation compiler** (`TagScanner`, `HermesModel`, `HermesText`, `HermesReading`, `HermesSteps`,
  `HermesArguments`, `HermesIds`, `HermesMachine`, `HermesLinking`, `HermesSettling`, `HermesFinalIds`,
  `HermesFolding`, `HermesReward`, `HermesRewardContents`). A scanner for non-greedy tags feeds a loop that builds
  steps, buffers tool responses and links ids in place. The scan is the only canonical split of a text, and every user
  or assistant message becomes the step at its place. In every conversation the loop links one group of responses per
  turn to the last agent's calls, no response is lost, and every step receives the responses that follow its message;
  in a well-formed one this is a position-wise zip of calls and responses. Observation i names call i
  exactly when no stray response precedes a leading assistant message, or such responses already name its calls. The
  reward scan goes by id, and the condition under which it finds the reward by position is exact too.
* **The replay-completeness audit** (`ReplayAudit`, `ReplayGuarantees`). The verdict is tied to the rows that the
  readers loop over, and a full audit is blocked exactly when something cannot be read or resolved.
* **The standup example** (`StandupModel`, `StandupCollapse`, `StandupPacket`, `StandupGuarantees`, `StandupFigures`):
  resume chains are collapsed to one trace per session, and every project has the figures of exactly its own kept
  traces. Trace counts always add up; the collapsed generations do, provided that no two
  longer chains share an id, exactly when no other kept trace has a longer chain's id.
* **The standup renderer's line parser** (`StandupMarkdown`, `StandupSections`, `StandupFaithful`, `StandupEntries`):
  each section's paragraphs are the runs of its own lines exactly when the head leaves nothing in the paragraph buffer or
  there is no section.

`Wrappers`, `Sorting`, `OrderedDict` and `Text` hold what these share: results, Python's stable sort, its
insertion-ordered dictionaries, and trimming, joining and decimal printing.

A loop of the program is a method that is proved equal to a function of its inputs; the guarantees are lemmas about
that function. `BucketFiles` updates arrays of buckets and weights in place; elsewhere the lists and dictionaries that
a function builds are local variables, as in the program, and steps are values that are replaced in their list.

Library calls whose inner working does not matter are parameters: JSON decoding and printing, `str.lower`, the MD5
hash, `float`, reading a test file, and the naming of projects. A file that is not valid UTF-8, a JSON error, an
`AttributeError` or a `ValidationError` is a value, never a precondition.

Where comments and code disagree, the model follows the code:

* The docstring and comments of `_conversations_to_steps` say that responses are folded onto the preceding assistant
  step. The code flushes onto the last step whatever its role, and keeps responses that arrive before any step in the
  buffer. A response after a user message lands on the user's step (`HermesFolding.UserStepMayReceiveResponses`);
  `HermesFolding.UserStepsBareIffFollowsAssistants` says exactly for which conversations none does, and
  `HermesLinking.AlignedIffLeadAgrees` for which ids still line up.
* `classify_trace` is described as the guard against a green verdict without events. On its own it calls a trace
  without events consistent when it is handed a node id (`ReplayGuarantees.VacuousGreenOnBareSignals`). The guard holds
  for the rows that the readers extract from (`ReplayGuarantees.VerdictMeansComplete`).
* The standup README (examples/standup/README.md:33-35) says that `extract_narrative.py` unites files across a chain.
  The script lists the representative's own files, so a file of an earlier generation may be missing
  (`StandupGuarantees.NarrativeMissesEarlierFile`); `StandupGuarantees.NarrativeUnitesIff` says exactly when none is.
* The packet names the collapsed generations of a chain by its representative's trace id, which another kept trace may
  have (`StandupGuarantees.SharedIdCountsTwice`). `StandupGuarantees.OwnGenerationsNamedIff` says exactly when every
  kept trace still names its own figure, and `StandupGuarantees.PacketGenerationsAddUp` when the total is right, as long
  as no two longer chains share an id; with such chains errors can cancel out (`StandupGuarantees.ErrorsMayCancelOut`).

## Model

| member | source | states |
|---|---|---|
| ShardAllocator.WeightIsLineCount | scripts/ci_test_files.py:55-59 | a file weighs the number of its line feeds but at least 1, and 1 when it is not valid UTF-8 |
| ShardPlan.ItemsInOrder | scripts/ci_test_files.py:70 | the files are placed by falling weight, and files of one weight by rising path |
| Sorting.StringLeIsLexicographic | scripts/ci_test_files.py:70-74 | paths are compared at the first place where they differ, a prefix first |
| Sorting.SortIsStable | examples/standup/build_standup_packet.py:230-245 | sorting keeps the order of what ranks equally |
| ShardAllocator.LeastLoaded | scripts/ci_test_files.py:71 | the chosen shard has the least load, and every shard before it a higher one |
| ShardAllocator.PlaceItem | scripts/ci_test_files.py:70-73 | in each round exactly the least loaded shard grows, by that file and its weight |
| ShardAllocator.Place | scripts/ci_test_files.py:71-73 | the loop body moves both arrays from the state after i files to the state after i + 1 |
| ShardAllocator.BucketFiles | scripts/ci_test_files.py:62-74 | rejects bad shard numbers with the program's messages, and otherwise returns the shard of the greedy plan in path order |
| Sorting.SortIgnoresOrder | scripts/ci_test_files.py:70 | sorting by a total order forgets the order of the input |
| ShardPlan.ShardIgnoresListing | scripts/ci_test_files.py:62-74 | a runner's shard does not depend on how it lists the files |
| ShardPlan.ShardsPartition | scripts/ci_test_files.py:62-74 | the shards that m runners compute from separately ordered listings together hold every file as often as it is listed |
| ShardPlan.EveryFileOnOneRunner | scripts/ci_test_files.py:62-74 | for distinct paths a file is on some runner's shard exactly when it is listed, and never on two |
| ShardPlan.ShardInPathOrder | scripts/ci_test_files.py:74 | a shard comes out in path order |
| ShardPlan.EmptyShards | scripts/ci_test_files.py:55-73 | shard k is empty if and only if there are at most k files |
| ShardLoads.LoadsAddUp | scripts/ci_test_files.py:73 | the loads of the shards add up to the total weight under any assignment |
| ShardLoads.LastItemLevels | scripts/ci_test_files.py:70-73 | without its last item no shard is heavier than any other shard |
| ShardPlan.LightestFileLevels | scripts/ci_test_files.py:68-73 | without its lightest file no shard is heavier than any other, and m times what remains plus that file is at most the total |
| ShardLoads.HeavyLastItemFits | scripts/ci_test_files.py:70-73 | if the last weight exceeds a third of a rival's makespan, it still fits below that makespan on the least loaded shard |
| ShardLoads.GrahamBoundSorted | scripts/ci_test_files.py:68-73 | for descending weights every greedy load is within 4/3 - 1/(3m) of any rival assignment's makespan |
| ShardPlan.GrahamBound | scripts/ci_test_files.py:62-74 | for every plan of the same files on m shards with makespan o, each computed shard weighs at most (4m - 1)/(3m) of o |
| ShardTight.PairingIsGreedy | scripts/ci_test_files.py:68-73 | on the weights 2m - 1, 2m - 1, ..., m + 1, m + 1, m, m, m the allocation pairs a heavy with a light item on every shard |
| ShardTight.GrahamBoundIsTight | scripts/ci_test_files.py:68-73 | for every number of shards some weights reach the bound |
| TagScanner.CutsAreFirstMatch | src/opentraces/capture/hermes.py:77-79 | cutting at the first opener and then the first closer is the leftmost, shortest match, and fails only when there is none |
| TagScanner.ScanTakesFirstMatch | src/opentraces/capture/hermes.py:77-79 | the scan takes the expression's first match and continues right after it |
| TagScanner.ScanWithoutMatch | src/opentraces/capture/hermes.py:322-324 | the text is left alone exactly when nothing matches |
| TagScanner.ScanIsCanonical | src/opentraces/capture/hermes.py:77-79 | the pieces print back to the text; no plain piece before a block holds an opener, no body a closer, the tail no match |
| TagScanner.ScanOfPrint | src/opentraces/capture/hermes.py:77-79 | scanning a printed canonical piece list returns it |
| TagScanner.CanonicalSplitIsUnique | src/opentraces/capture/hermes.py:77-79 | a piece list is canonical if and only if it is the scan of its own text |
| TagScanner.RescanMatchesIffSeam | src/opentraces/capture/hermes.py:322-327 | the text without its blocks matches again if and only if an opener has come together across a seam where a block was, with a closer after it |
| TagScanner.RescanMayMatchAgain | src/opentraces/capture/hermes.py:327 | it happens: a text whose cleaned form matches again |
| HermesReading.EventRead | src/opentraces/capture/hermes.py:428-506 | what a message becomes, by its role and text: a prompt with its hash, a user turn, the agent turn of the text, its responses, or nothing |
| HermesReading.NoRoleRaises | src/opentraces/capture/hermes.py:430 | a message without role whose `from` is null raises an AttributeError |
| HermesReading.AgentTurnRead | src/opentraces/capture/hermes.py:470-494 | an agent turn has the reasoning of its text, then the calls of what remains, renamed and with their ids |
| HermesSteps.MessageBecomesStep | src/opentraces/capture/hermes.py:427-494 | each user or assistant message becomes the step at its place among them, shows what the message said, and has the hash of the system message in force |
| HermesSteps.FirstMessageRaises | src/opentraces/capture/hermes.py:427-506 | the conversion succeeds when every message can be read, and raises the error of the first one that cannot |
| HermesReading.OneThinkBlock | src/opentraces/capture/hermes.py:314-328 | the stripped body of a `<think>` block is the reasoning, and what stands around it the text |
| HermesReading.NonBlankConcat | src/opentraces/capture/hermes.py:326 | reasoning goes block by block, blank blocks dropped |
| HermesReading.LongTextIsCut | src/opentraces/capture/hermes.py:320-371 | nothing behind the first 1048576 characters is looked at |
| HermesReading.OneCallBlock | src/opentraces/capture/hermes.py:331-363 | a `<tool_call>` block becomes the call of its body, or nothing |
| HermesReading.CallBlockRead | src/opentraces/capture/hermes.py:342-349 | a body that does not decode is skipped, and one that is no object raises an AttributeError |
| HermesReading.CallObjectRead | src/opentraces/capture/hermes.py:349-361 | name, arguments and id of a call over the decoded object's own entries, and when they raise a ValidationError |
| HermesReading.CallsRaiseFirst | src/opentraces/capture/hermes.py:340-361 | the error of the first block that raises one is raised |
| HermesReading.OneResponseBlock | src/opentraces/capture/hermes.py:366-400 | a `<tool_response>` block becomes the response of its body |
| HermesReading.ResponseBlockRead | src/opentraces/capture/hermes.py:374-386 | a body that does not decode is a plain response of at most 2000 characters, and one that is no object raises |
| HermesReading.ResponseObjectRead | src/opentraces/capture/hermes.py:387-399 | content, summary, id and mark of a response over the decoded object's own entries |
| HermesReading.ToolMessageRead | src/opentraces/capture/hermes.py:499-506 | a tool message without blocks is one plain response to its whole content |
| HermesReading.NamesFollowTables | src/opentraces/capture/hermes.py:37-75 | tool and argument names change exactly as two tables say |
| HermesText.ThinkingIffNonBlank | src/opentraces/capture/hermes.py:314-328 | there is reasoning exactly when some think block is not blank |
| HermesText.ThinkingRoundTrip | src/opentraces/capture/hermes.py:314-328 | a text written as think pieces is read back as those pieces, up to stripping |
| HermesText.ToolCallsRoundTrip | src/opentraces/capture/hermes.py:331-363 | a text written as call pieces yields the calls of its bodies and the plain text between them |
| HermesText.ToolMessageRoundTrip | src/opentraces/capture/hermes.py:366-400 | a text written as response pieces yields one response per block, or one plain response without blocks |
| HermesText.ToolMessagesAreMarked | src/opentraces/capture/hermes.py:366-400 | a block's response is marked unlinked exactly when the block does not decode or holds no id, and has the block's id otherwise; a text without blocks yields one marked response |
| HermesModel.ParseToolCalls | src/opentraces/capture/hermes.py:331-363 | the loop yields the calls of the decodable blocks, or the first block's error |
| HermesModel.ParseToolResponses | src/opentraces/capture/hermes.py:366-400 | the loop yields one response per block, or the first block's error |
| HermesModel.NormalizeToolCall | src/opentraces/capture/hermes.py:551-581 | the loop renames name and keys as the tables say |
| HermesArguments.LastArgumentWins | src/opentraces/capture/hermes.py:565-569 | of several arguments that get one name, the last one's value is kept |
| HermesArguments.RenamingIsLossless | src/opentraces/capture/hermes.py:565-569 | every argument is kept in order and with its value if and only if no two renamed keys coincide |
| HermesArguments.RenamedApartIffNoClash | src/opentraces/capture/hermes.py:68-75 | two keys coincide exactly when one argument is given under another's new name |
| HermesIds.SyntheticIdInjective | src/opentraces/capture/hermes.py:356 | equal made-up ids come from the same step and block |
| HermesIds.CallsComeFromBlocks | src/opentraces/capture/hermes.py:340-361 | the i-th call comes from the i-th decodable block, and malformed blocks use up their number |
| HermesIds.SyntheticIdsAreDistinct | src/opentraces/capture/hermes.py:340-361 | over a whole conversation no two calls share a made-up id |
| HermesMachine.LinkOneByOne | src/opentraces/capture/hermes.py:522-539 | linking responses one by one in place is linking all of them by position at once |
| HermesMachine.FindLastAgent | src/opentraces/capture/hermes.py:513-517 | the backward search finds the last agent step |
| HermesMachine.OnToolMessage | src/opentraces/capture/hermes.py:497-542 | a tool message's responses are linked to the last agent step beyond its answered and pending positions, and queued |
| HermesMachine.ConversationsToSteps | src/opentraces/capture/hermes.py:406-549 | the loop computes the run of the state machine over the parsed messages, or the first error |
| HermesLinking.LinkTwice | src/opentraces/capture/hermes.py:519-539 | linking in two messages is linking the joined responses once, failures included, from any position on |
| HermesSettling.FinishSettles | src/opentraces/capture/hermes.py:406-549 | in every conversation the buffered loop links each turn's responses once, as a group, to the last agent's calls by their position behind the agent's own; failures included |
| HermesFinalIds.FinalCallId | src/opentraces/capture/hermes.py:512-535 | in every conversation a call ends up with the last id offered at its position by the agent's own responses or those of a later user turn, and otherwise with its own |
| HermesFinalIds.FinalResponse | src/opentraces/capture/hermes.py:536-542 | in every conversation a response keeps its id, takes that of the call at its position when its turn begins, or stays "unknown" when there is none |
| HermesFinalIds.FailuresAreUnmatched | src/opentraces/capture/hermes.py:516-539 | in every conversation the failures are the responses that stand behind the calls of the agent in charge |
| HermesFinalIds.CallMayBeRelinked | src/opentraces/capture/hermes.py:512-535 | responses after each of two user messages are both linked to an agent's only call, and the later id stays |
| HermesSettling.WellFormedIsPositional | src/opentraces/capture/hermes.py:406-549 | in a well-formed conversation each agent step is the zip of its calls with all responses that follow it, and the failures are the surplus of observations over calls |
| HermesLinking.StepsFollowTurns | src/opentraces/capture/hermes.py:447-494 | one step per user or assistant message: its index is its position, it tells the message's role, text, reasoning, tool names and inputs, and an agent step has the latest prompt hash |
| HermesLinking.PromptHashResolves | src/opentraces/capture/hermes.py:439-445 | an agent step's prompt hash is in the prompt table and, without collisions, leads to the prompt in force |
| HermesLinking.ResponsesAreConserved | src/opentraces/capture/hermes.py:449-467 | with at least one turn the observations of all steps are the parsed responses in order, only "unknown" ids changed |
| HermesLinking.AlignedIffLeadAgrees | src/opentraces/capture/hermes.py:512-547 | observation i names call i on every agent step if and only if responses before a leading assistant message already name its calls |
| HermesLinking.WellFormedHasNoLead | src/opentraces/capture/hermes.py:512-547 | in every well-formed conversation observation i names call i |
| HermesLinking.StrayResponseMisaligns | src/opentraces/capture/hermes.py:464-467 | a response before the first assistant message takes the place of the answer to its first call |
| HermesFolding.StepsReceiveWhatFollows | src/opentraces/capture/hermes.py:447-467 | a step's observations are the responses between its message and the next turn, whatever its role; the first step also gets those from before any turn |
| HermesFolding.UserStepsBareIffFollowsAssistants | src/opentraces/capture/hermes.py:409-467 | no user step carries an observation if and only if every responding tool message has an assistant as its nearest earlier turn, or comes before any turn and the first turn is not a user's |
| HermesFolding.UserStepMayReceiveResponses | src/opentraces/capture/hermes.py:447-467 | a response after a user message goes onto the user's step |
| HermesReward.ScanRewards | src/opentraces/capture/hermes.py:225-242 | the nested loops find the last reward among observations that name an rl_get_results call, or fail when one of these is too large |
| HermesReward.RlIdsAreNamed | src/opentraces/capture/hermes.py:225-230 | the ids looked for are those of the calls named "rl_get_results" |
| HermesReward.RewardIsRead | src/opentraces/capture/hermes.py:234-241 | the reward is what `float` makes of the entry "reward" of the decoded object, wherever it stands |
| HermesReward.NoRewardRead | src/opentraces/capture/hermes.py:234-241 | without such an entry, without an object, or with a blank content there is none |
| HermesReward.LastRewardIsLast | src/opentraces/capture/hermes.py:231-239 | the last observation that names one of the ids and holds a reward decides |
| HermesReward.RewardIsPositional | src/opentraces/capture/hermes.py:225-242 | without a stray response, that is the last reward at the position of an rl_get_results call, none if there is none, and a failure exactly when one there is too large |
| HermesReward.PositionsIffNoStray | src/opentraces/capture/hermes.py:225-232 | the ids single out the positions of rl_get_results calls if and only if no response elsewhere names such a call |
| HermesReward.PositionalRewardIffNoStray | src/opentraces/capture/hermes.py:225-242 | when all responses hold something else, the scan reports the positional reward, whatever the contents decode to, if and only if there is no stray response |
| HermesReward.UsedOnceHasNoStray | src/opentraces/capture/hermes.py:512-539 | ids that are used once, each response naming a call at its position, leave no stray response |
| HermesRewardContents.ScanIsPositionalIff | src/opentraces/capture/hermes.py:225-242 | for all steps, also with repeated contents: the scan reports the positional reward, whatever the contents decode to, if and only if the contents looked into and those at rl_get_results positions agree in the order of their last occurrences |
| HermesReward.SurplusResponseMayReward | src/opentraces/capture/hermes.py:225-242 | a surplus response naming an unanswered call of another step is taken for its answer |
| ReplayAudit.CompanionSignals | scripts/audit_replay_completeness.py:220-243 | the loop yields the node ids and context event count of the rows; a missing companion is empty, an unreadable one blocks |
| ReplayAudit.MirrorContextCount | scripts/audit_replay_completeness.py:246-269 | the loops count this trace's context events over all batches; a missing mirror or an unreadable batch blocks |
| ReplayAudit.ContextCountIs | scripts/audit_replay_completeness.py:233-236 | the context events are the rows whose type starts with "context_" |
| ReplayAudit.NodeIdsAre | scripts/audit_replay_completeness.py:237-242 | the node ids are those named by rows of type "context_node_observed" |
| ReplayAudit.MirrorCountIs | scripts/audit_replay_completeness.py:263-268 | of the mirror's rows those of the trace whose type starts with "context_" are counted |
| ReplayAudit.StampedCount | scripts/audit_replay_completeness.py:208-213 | every stamp that is present and not empty counts |
| ReplayAudit.DanglingReasonTells | scripts/audit_replay_completeness.py:125-129 | the reason for dangling stamps tells their number and the first three |
| ReplayAudit.CollectReasons | scripts/audit_replay_completeness.py:117-153 | each reason is given exactly when its invariant is violated |
| ReplayAudit.ClassifyTrace | scripts/audit_replay_completeness.py:104-180 | ok exactly when every stamp is a known node, the counts agree and a capable trace has something; the dangling ids are the unknown stamps, and an ok trace is legitimately empty exactly when it is not capable and has nothing |
| ReplayAudit.RunAudit | scripts/audit_replay_completeness.py:315-369 | exits 2 exactly when blocked, 0 exactly when every result is ok and 7 otherwise, with the counts of the results |
| ReplayAudit.DanglingIdsFacts | scripts/audit_replay_completeness.py:117-119 | the dangling ids are exactly the stamps missing from the companion, ascending and without repetition |
| ReplayGuarantees.VacuousGreenOnBareSignals | scripts/audit_replay_completeness.py:104-168 | the classification alone passes a trace without events as consistent if and only if it is given a node id, no mirrored event and no dangling stamp |
| ReplayGuarantees.NodesAreContextEvents | scripts/audit_replay_completeness.py:235-242 | a companion with a node id has a context event |
| ReplayGuarantees.VerdictMeansComplete | scripts/audit_replay_completeness.py:289-303 | ok exactly when stamps resolve, counts agree and a capable trace has events; consistent means events on both sides, an ok trace without events is legitimately empty |
| ReplayGuarantees.MirrorLayoutIsIrrelevant | scripts/audit_replay_completeness.py:246-269 | re-splitting or reordering the mirror's rows changes no audit |
| ReplayGuarantees.MirrorLayoutChangesNoReport | scripts/audit_replay_completeness.py:306-369 | nor any result of a run, for one trace or all |
| ReplayGuarantees.LostEventsAreDetected | scripts/audit_replay_completeness.py:141-153 | losing context events from the companion alone turns every ok trace inconsistent |
| ReplayGuarantees.ResolveFacts | scripts/audit_replay_completeness.py:272-286 | an id resolves, and to its own directory, exactly when no other directory has it |
| ReplayGuarantees.RequestedAlone | scripts/audit_replay_completeness.py:322-329 | with a trace id the result is that trace's verdict alone, or the reason why it cannot be given |
| ReplayGuarantees.RequestedAll | scripts/audit_replay_completeness.py:322-329 | without one, or with an empty one, all traces are audited; no directory or no trace blocks |
| ReplayAudit.CountIsSize | scripts/audit_replay_completeness.py:342-344 | a count is the number of results with that status |
| ReplayGuarantees.BlockedIffNotAuditable | scripts/audit_replay_completeness.py:306-340 | a full audit runs through if and only if the bucket, all records, companions and batches are readable and ids do not clash |
| ReplayGuarantees.FullAuditCoversEveryTrace | scripts/audit_replay_completeness.py:306-329 | a full audit holds the verdict of every trace directory exactly once under distinct ids |
| ReplayGuarantees.FullAuditCounts | scripts/audit_replay_completeness.py:342-369 | its counts add up to the number of directories, and none is inconsistent exactly when all are ok |
| StandupCollapse.CollapseSupersessions | examples/standup/build_standup_packet.py:179-215 | the loops keep the collapsed traces and note surplus and merged evidence of each longer chain |
| StandupCollapse.NarrativeCollapse | examples/standup/extract_narrative.py:70-86 | the second implementation keeps the same traces and counts |
| StandupModel.BestIsFirstMaximal | examples/standup/build_standup_packet.py:204-210 | the representative is the first trace of the chain that none is above by generation, then steps |
| StandupFigures.BelowIs | examples/standup/build_standup_packet.py:204-210 | generations and then steps decide, and what is missing counts as 0 |
| StandupFigures.SessionIs | examples/standup/build_standup_packet.py:189-194 | a trace belongs to a chain unless its session id is missing or empty |
| StandupGuarantees.OneBestPerSession | examples/standup/build_standup_packet.py:187-215 | exactly one trace per session is kept, no trace of the session is above it, and sessionless traces all stay |
| StandupGuarantees.CollapseConserves | examples/standup/build_standup_packet.py:197-215 | kept plus collapsed traces are all traces |
| StandupGuarantees.CollapseIsIdempotent | examples/standup/build_standup_packet.py:179-215 | a second collapse is the identity and collapses nothing |
| StandupGuarantees.GroupByFacts | examples/standup/build_standup_packet.py:225-227 | every group holds exactly the traces with its key, in order |
| StandupModel.MergeChain | examples/standup/build_standup_packet.py:144-176 | the loop computes the merged evidence of a chain |
| StandupGuarantees.MergedUnions | examples/standup/build_standup_packet.py:152-173 | merged files and skills are the sorted unions over the chain |
| StandupGuarantees.MergeIgnoresOrder | examples/standup/build_standup_packet.py:144-176 | merged files, skills and steps do not depend on the order of the chain |
| StandupGuarantees.MergedSteps | examples/standup/build_standup_packet.py:167-169 | the merged step count is the chain's highest, and at least 0 |
| StandupGuarantees.MergedToolCounts | examples/standup/build_standup_packet.py:160-161 | a tool's merged count is its highest in the chain, and at least 0 |
| StandupGuarantees.MergedDuration | examples/standup/build_standup_packet.py:167-169 | the merged duration is the chain's longest, and absent when no trace has a positive one |
| StandupGuarantees.NarrativeUnitesIff | examples/standup/extract_narrative.py:106 | the narrative lists the files of a whole chain if and only if the representative touched all of them |
| StandupGuarantees.NarrativeMissesEarlierFile | examples/standup/extract_narrative.py:78-106 | a file that only an earlier generation touched is missing |
| StandupFigures.MergedToolsAreRanked | examples/standup/build_standup_packet.py:172 | a chain's tools are its six most used, most used first, equally used ones in their order |
| StandupGuarantees.TopToolsAreTop | examples/standup/build_standup_packet.py:172 | no tool dropped by the cut to six is used more than a kept one |
| StandupPacket.BuildPacket | examples/standup/build_standup_packet.py:218-263 | the loops build the packet of the collapsed traces, grouped by project, largest group first |
| StandupFigures.ProjectsAre | examples/standup/build_standup_packet.py:225-253 | every project has the traces, step total and slugs of the kept traces with its name, and larger projects come first |
| StandupFigures.TracesInOrder | examples/standup/build_standup_packet.py:245 | a project's traces come in the order of their starts, a missing start first |
| StandupGuarantees.PacketSums | examples/standup/build_standup_packet.py:225-253 | whatever is added up over all projects is added up over the kept traces, each once |
| StandupGuarantees.PacketCountsAddUp | examples/standup/build_standup_packet.py:255-263 | project counts add up to the session count, and with the collapsed ones to all traces |
| StandupGuarantees.EvidenceOfChains | examples/standup/build_standup_packet.py:232-244 | a kept trace that does not share its id with another longer chain's representative carries the union over its chain, or its own evidence when it stands alone |
| StandupGuarantees.PacketGenerationsAddUp | examples/standup/build_standup_packet.py:234-261 | when no two longer chains share an id, the collapsed generations named in the packet are at least its total, and equal to it if and only if no other kept trace has the id of a longer chain's representative |
| StandupGuarantees.OwnGenerationsNamedIff | examples/standup/build_standup_packet.py:211-235 | for all traces: every kept trace names its own collapsed generations if and only if it stands for as many as each longer chain whose representative has its id |
| StandupGuarantees.SharedIdCountsTwice | examples/standup/build_standup_packet.py:211-235 | a sessionless trace with a representative's id has its chain counted twice |
| StandupGuarantees.ErrorsMayCancelOut | examples/standup/build_standup_packet.py:211-261 | two chains and a sessionless trace under one id give a right total of wrong figures |
| StandupMarkdown.Parse | examples/standup/render_html.py:51-121 | the loops compute title, intro, sections and standup entries of the line state machine |
| StandupMarkdown.LineIs | examples/standup/render_html.py:74-95 | what a line is, by its two marks, a rule, or nothing but white space |
| StandupSections.SectionPartsAre | examples/standup/render_html.py:80-93 | the sections are the parts whose name is not "standup-ready" in lower case |
| StandupMarkdown.TitleIsFirst | examples/standup/render_html.py:53-65 | the title is the text of the first top-level heading, and a default without one |
| StandupMarkdown.LeadInSplits | examples/standup/render_html.py:105-107 | a matched standup line is a bold key without colon, white space and the value |
| StandupMarkdown.LeadInMatches | examples/standup/render_html.py:105-107 | every line of that form matches with that key and value |
| StandupSections.BufferHoldsRuns | examples/standup/render_html.py:68-72 | what the buffer has finished and still holds are the maximal runs of text lines |
| StandupSections.RunsKeepTexts | examples/standup/render_html.py:112-116 | put together, the runs are all text lines in order |
| StandupSections.HeadBufferIs | examples/standup/render_html.py:96-103 | the head leaves everything after its first finished paragraph, or an unfinished one, in the buffer |
| StandupFaithful.ParsedSections | examples/standup/render_html.py:74-118 | each section holds the runs of its own lines, only the first also what the head left; standup entries come from standup blocks alone |
| StandupEntries.ParsedEntries | examples/standup/render_html.py:104-111 | the standup lines before the first lead-in are dropped; each entry is a lead-in with every line up to the next one, joined by blanks |
| StandupFaithful.ParsedIntro | examples/standup/render_html.py:96-120 | the intro is the head's first finished paragraph, or an unfinished one when there is no section |
| StandupFaithful.SectionsExactIffHeadFlushed | examples/standup/render_html.py:66-118 | sections are exactly the runs of their own lines if and only if the head leaves nothing behind or there is no section |
| StandupFaithful.SectionKeepsItsLines | examples/standup/render_html.py:112-118 | a section's runs are its text lines in order, none lost |

## Left out

- Reading files, gzip, globbing, path resolution and the lane filters of `collect_files`: rows, paths and weights are
  data; a read failure is a value. Trace ids with glob metacharacters are not modelled.
- The inside of JSON, MD5, `lower` and `float`; NaN and infinities among decoded numbers; rounding, and the
  tool success rate; logging, printing and command line options.
- Messages whose role or content is neither missing, null nor text, and bucket rows or records that are not objects.
- Stored sharing of objects: each step and each list is reached through one variable only, so steps, observations and
  sections are values that are replaced.
- The rest of `map_record` besides the reward scan: it copies fields and picks the outcome by a table.
- The evidence of a trace that is only copied (goal, agent, branch), and most of a project's roll-up; the merged files
  are collected in a list and made a sorted set at the end.
- The date window of the standup scripts, the packet's Markdown rendering and the narrative script's text output.
- `splitlines` and the HTML side of the standup renderer.
- StandupModel.MergeChain: the longest duration is kept in seconds; its rounding to tenths of a minute is not modelled.
- StandupPacket.BuildPacket: leaves out durations, file categories and the roll-up's counters of files, tools, skills and
  branches; of the roll-up it has the trace count and the step total.
- HermesReward.PositionalRewardIffNoStray: is about responses with different contents; repeated contents are the subject
  of HermesRewardContents.ScanIsPositionalIff.
- StandupGuarantees.PacketGenerationsAddUp: is about the totals when no two longer chains share an id; otherwise errors
  can cancel out, as in ErrorsMayCancelOut. OwnGenerationsNamedIff is about each trace's own figure and has no such condition.
