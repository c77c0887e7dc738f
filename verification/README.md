# Verified core of Tyche and JiuwenSwarm

A Dafny model of the stateful algorithms of the repository, with proofs of what they promise over
every input and every run. `dafny verify dfyconfig.toml` checks everything.

The modules follow the program:

- **Prompt-cache bookkeeping** (`tyche/cache.py`, `tyche/llm.py`). `Framing` shows when the string fed to
  the digest chain determines the messages. `Messages` builds requests with cache breakpoints. `Ledger` is
  the value-level meaning of the prefix ledger, `LedgerClass` the mutable ledger itself, proved equal to
  that meaning, `LedgerProofs` relates it to a brute-force scan of the request history, `LedgerTexts`
  says for which texts that relation holds, `LedgerEviction` in which order the ledger forgets,
  `Estimates` how good its token estimates are, and `Followers` what an automatic cache is granted.
  `Conversations` adds the model client with its fallback and the append-only conversations, and
  `ConversationRuns` proves what holds over runs that interleave any number of them, with exports, imports
  and restarts.
- **The shared config file** (`jiuwenswarm/common/config.py`). `ConfigReads` is the stat-then-read parse cache
  and `ConfigWrites` the locked read-modify-write, both as protocols whose steps interleave freely;
  `ConfigRetries` says when a read is tried again and when it gives up, `ConfigUpdates` what every update does
  to the document.
  `ConfigMerge` is the in-place template merge and `ModelDefaults` the choice of default models.
- **Tyche's configuration** (`tyche/config.py`). `Trees` and `TycheConfig`: layered merging, dotted overrides,
  placeholder expansion, resuming a run; `Placeholders` is the grammar of what is expanded.
- **Runs** (`tyche/pipeline.py`, `tyche/workspace.py`). `Stages` is the stage machine, `TreeDigest` the digest
  of a directory, `ArtifactNames` and `Artifacts` the immutable artifact versions, and `Packaging` the review
  and package stages, working on those artifacts beside all other stages.
- **Cron team rounds** (`jiuwenswarm/common/cron_team_completion.py`). `CronRound`, with the text operations it
  needs in `Text`; `CronEvents` says the same of the events and their own fields.
- **Runtime installation** (`jiuwenswarm/common/external_cli_runtime.py`). `Download` and `RuntimeSwap`.
- `PyList` and `Options` hold Python's slice bounds and a value that may be missing.

Where the source updates state step by step the model is a class or a method with loops, proved against a
function on values; the theorems are about that function. The digest of a message prefix is taken to be the
framed prefix itself; the digests of artifacts come from an arbitrary function, and what needs it to tell
certain texts apart says so. Clocks, the network, tokenizers, the
bodies of stages and every failure are parameters that may take any value.

## What does not hold as documented

Each of these has a proof of exactly when the promised behaviour holds, and an input or a run where it does
not.

- The comment on the parse cache says that a cached parse is keyed on the file's identity. A reader that
  stats before a replacement and reads after it files the new content under the old stamp. That is
  harmless exactly as long as no later version brings the old stamp back with other content
  (`ConfigReads.SafeIffStampsTellApart`).
- A message text that contains a message header hashes like a longer list of messages: every message is
  framed like some list of clear ones (`Framing.SplitIntoClear`, and `Framing.UnambiguousIffClear` for one
  message). Lists of messages are told apart exactly as long as no text contains a header
  (`Framing.ToldApartIffClear`), and so long the ledger reports what was really sent
  (`LedgerTexts.AlwaysRightIffClear`). Otherwise it reports a message that was never sent
  (`LedgerTexts.NeverSentIsReported`). The statements about the request history therefore ask for clear
  texts.
- The reusable-token estimate stays within the prompt exactly for token counters that are monotone under
  taking prefixes, which a byte-pair encoding need not be (`Estimates.EstimateWithinPromptIffMonotone`).
- A provider that allows a single breakpoint would break the continuity of breakpoints between turns
  (`Messages.BreakpointContinuity`). No known profile does: all of them keep the default of four
  (tyche/cache.py:74-139), so the client never gets there.
- `set_last_reply` says that the reply is not yet part of any sent prefix and the edit costs no cache hits.
  It is part of one exactly when some turn on the route, of a conversation with the same system message,
  already went on from this very history (`ConversationRuns.ReplyIsSentIff`), for example before it was
  rolled back (`ConversationRuns.EditAfterRollback`). The edit then costs cache hits unless the edited history
  was sent too (`Conversations.EditCostsIff`). Directly after the reply came the promise holds, unless the same
  exchange had happened before (`ConversationRuns.EditAfterAskIsSafe`).
- A cache break is meant to show that an earlier turn was edited. That is so while the ledger forgets
  nothing and the history was sent by this process on this route (`ConversationRuns.NoFalseAlarm`,
  `ConversationRuns.FlaggedIff`, `ConversationRuns.FlaggedIffEdited`). However large the ledger, enough other
  calls and then another conversation with the same opening make it flag an unedited one
  (`ConversationRuns.FalseAlarmAfterEviction`), and a resumed conversation is flagged if its opening was sent
  again after the restart (`ConversationRuns.FalseAlarmAfterImport`). A conversation alone on its route is
  never flagged (`ConversationRuns.LoneConversationNeverFlagged`).
- The digest of a directory is meant to show any change. It runs names and digests together without
  separators, so every directory of two or more files reads like one of a single file; exactly the
  directories of at most one file without a digest hidden in its name are told from all others
  (`TreeDigest.ToldFromAllIff`). `verify_provenance` misses such a replacement (`Artifacts.DriftIsMissed`), and
  reports every change between directories that are told apart (`Artifacts.DriftIsSeen`).
- `reset_from` says that a rerun cannot reuse stale downstream results. Forcing a stage whose predecessors
  are not done makes a later full run do just that (`Stages.NeverStaleIff`, `Stages.StaleStageStays`).
- Resuming without flags reproduces the saved configuration unless an override replaced a default section
  by a value that was replaced by a section again, or an expanded value contains another placeholder
  (`TycheConfig.ResumeReproducesIff` and its two counterexamples).
- Packaging says it uses exactly the versions of one review. The findings ledger is the exception: it is
  the latest one, which a later, failed review may have written (`Packaging.LedgerOfALaterReview`). Over all
  sequences of reviews, the package is of one review exactly if no later one got past saving its ledger, or
  the last that did left an equal text (`Packaging.OneExecutionIff`).
- The round state of a cron team run takes an error as the end of the round. While a workflow is under way
  its `should_end` still does not answer true (`CronRound.ErrorEndsIff`, `CronRound.ErrorDuringAWorkflow`).
  The consumers that stop on the error themselves (jiuwenswarm/server/runtime/agent_adapter/team_helpers.py:1418,
  jiuwenswarm/gateway/cron/scheduler.py:1906) are not affected; those that ask the state alone are
  (jiuwenswarm/agents/harness/team/team_manager.py:673,
  jiuwenswarm/server/runtime/agent_adapter/team_helpers.py:1540).

## Model

| member | source | states |
|---|---|---|
| Framing.FrameInjective | tyche/cache.py:362-370 | The digest chain tells any two lists of messages without hidden headers apart |
| Framing.UnambiguousIffClear | tyche/cache.py:368 | A message is framed like no other list of messages exactly when its text hides no header |
| Framing.SplitIntoClear | tyche/cache.py:368 | Every message is framed like some list of messages without hidden headers |
| Framing.ToldApartIffClear | tyche/cache.py:362-370 | Lists of messages over a set of texts that includes the clear ones are told apart exactly when the set has no others |
| Messages.BuildMessages | tyche/cache.py:219-258 | The loops build system, history and user, each message with its text as one text block with a breakpoint exactly where one belongs and as plain text elsewhere: on the system message, the last user message before the final one and, if the exchange continues, the final one, as far as the texts up to there reach the minimum, and of these on the last that the provider allows; only for explicit caches |
| Messages.BreakpointsAreRight | tyche/cache.py:241-258 | A block of message `i` carries a breakpoint exactly then |
| Messages.RoomForThree | tyche/cache.py:257 | With a limit of three or more no worthwhile breakpoint is dropped |
| Messages.StrippedRequest | tyche/cache.py:307-316 | Stripping the breakpoints always gives back system + history + user, whatever the profile |
| Messages.BreakpointBudget | tyche/cache.py:255-257 | The provider's number of breakpoints is respected, except that a limit of 0 limits nothing |
| Messages.OwnBreakpoint | tyche/cache.py:249-258 | The last message of a continuing turn carries a breakpoint exactly when the request reaches the minimum |
| Messages.BreakpointContinuity | tyche/cache.py:233-258 | The next turn wants a breakpoint on the final message of its predecessor, over the same prefix, and that message carries it exactly when it carried it in the predecessor and there is room for two |
| Messages.BlocksTextConcat | tyche/cache.py:300-304 | The text of content blocks is that of the text blocks, one after another |
| LedgerClass.CommonPrefix | tyche/cache.py:319-328 | The binary search finds the length of the longest common prefix |
| LedgerClass.PrefixLedger.Observe | tyche/cache.py:361-403 | One request's report, and the ledger afterwards, are those of the value-level ledger; the ledger is the replay of all requests sent |
| LedgerClass.PrefixLedger.Estimate | tyche/cache.py:377-387 | The reusable tokens are those of the longest known prefix plus the partial match, floored and rounded |
| LedgerClass.PrefixLedger.Digest | tyche/cache.py:362-372 | The chain of digests, parents, running token counts and texts of a request |
| LedgerClass.PrefixLedger.RememberAll | tyche/cache.py:391-398 | Every prefix of the request becomes the most recent, and every message joins the followers of its prefix |
| LedgerClass.PrefixLedger.Evict | tyche/cache.py:399-402 | Both dictionaries keep exactly their most recent keys |
| LedgerProofs.SeenIsRecency | tyche/cache.py:391-400 | The index is the last `limit` entries of the order of all touches |
| LedgerProofs.WindowMembership | tyche/cache.py:391-400 | A key is held exactly when it was touched and fewer than `limit` other keys were touched since |
| LedgerProofs.TouchedIffSent | tyche/cache.py:361-393 | The touched keys are exactly the whole-message prefixes that were really sent on the route |
| LedgerProofs.LongestWithEviction | tyche/cache.py:373-377 | With eviction, a reported prefix was really sent, is never longer than the brute-force answer, and equals it whenever that prefix is still held |
| LedgerProofs.LongestIsScan | tyche/cache.py:340-350 | Without eviction, the reported prefix is the longest one shared with any earlier request on the route |
| LedgerProofs.RepeatRecognised | tyche/cache.py:373-402 | A request repeated at once is recognised in full, however small the index |
| Estimates.SharedMessagesAreGranted | tyche/cache.py:373-387 | Without eviction and for clear texts, the tokens of the messages shared with an earlier request are granted, rounded down, once they reach the minimum; for explicit and client caches exactly those |
| Estimates.RepeatIsGranted | tyche/cache.py:373-387 | A request sent again at once is granted its whole prompt, rounded down, once it reaches the minimum |
| Followers.AutomaticIsGranted | tyche/cache.py:377-387 | As long as nothing is forgotten, an automatic cache is granted exactly the shared messages and the longest common start of the next one with a message an earlier request had in its place |
| Followers.FollowersAreComplete | tyche/cache.py:394-402 | The remembered followers of a prefix are all messages that ever followed it, while there is room for all prefixes and for all of them |
| Followers.FollowKeepsTheLast | tyche/cache.py:394-398 | A new follower goes to the end and the last ones are kept, with what a limit of 0 or less does |
| LedgerProofs.BreakIffEdited | tyche/cache.py:388-390 | Whatever was evicted, a turn is flagged exactly when the key of its opening is among the most recent ones and that of its history up to the last reply is not |
| LedgerProofs.RecentMeansSent | tyche/cache.py:391-400 | A key among the most recent ones is that of a prefix really sent on the route, and conversely as long as nothing was evicted |
| LedgerProofs.BreakIffNeverTouched | tyche/cache.py:340-350 | Without eviction, a turn is flagged exactly when its opening was touched on the route and its history up to the last reply never was |
| LedgerTexts.AlwaysRightIffClear | tyche/cache.py:340-350 | Over requests shaped like the client's with texts from such a set, the ledger that evicts nothing always reports the longest prefix sent exactly when all texts are clear |
| LedgerTexts.NeverSentIsReported | tyche/cache.py:368-377 | Two one-shot calls that share no message, of which the ledger reports one message of the second as sent |
| LedgerEviction.LongerStaysLonger | tyche/cache.py:391-400 | Of the prefixes of the last request on a route the ledger forgets the shorter ones first |
| LedgerEviction.OpeningEvictsTheRest | tyche/cache.py:388-402 | Once as many other keys were touched as the ledger holds, and the opening again, the next turn of an unedited conversation is flagged |
| LedgerEviction.LedTurnIsNotFlagged | tyche/cache.py:388-390 | A turn whose history up to the last reply begins the last request on its route is not flagged, however small the ledger |
| Estimates.FollowersAreTrue | tyche/cache.py:394-398 | Every remembered follower of a prefix really followed it in a request on that route |
| Estimates.PartialIsTrue | tyche/cache.py:378-384 | The partial match is the longest common start with a message of the same role that really followed the prefix, and no remembered one shares more |
| Estimates.EstimateIsRounded | tyche/cache.py:385-387 | The estimate is a multiple of the granularity, and 0 or at least the minimum when the granularity divides it |
| Estimates.EstimateWithinPromptIffMonotone | tyche/cache.py:373-387 | No history makes the estimate exceed the prompt exactly when the counter is monotone under taking prefixes |
| Estimates.OverestimateWitness | tyche/cache.py:373-387 | Two calls under one system message after which a counter that finds more tokens in a prefix than in the whole overestimates |
| Estimates.FallbackNeverOverestimates | tyche/textutil.py:115-133 | With the fallback counter the estimate never exceeds the prompt |
| Conversations.LLM.Complete | tyche/llm.py:215-279 | One plain request is recorded whatever the provider does; a refused adaptation is retried once without any of it, and switched off for good exactly when the retry succeeds |
| Conversations.WireSaysTheSame | tyche/llm.py:226-246 | Everything put on the wire for a call says system, history and user, adapted or not |
| Conversations.Conversation.Ask | tyche/llm.py:379-386 | A successful call appends the exchange, a failed one nothing; without eviction it is never flagged |
| Conversations.Conversation.Rollback | tyche/llm.py:371-372 | Rolling back to any mark leaves a history whose replies were all sent for |
| Conversations.Conversation.SetLastReply | tyche/llm.py:388-392 | The last reply is replaced, the earlier replies keep the requests they were sent for, and unless a request went on from the old reply the history shares no less with the requests sent |
| Conversations.EditCostsIff | tyche/llm.py:388-392 | Editing the last reply costs cache hits exactly when some request went on from the old reply and none from the new one |
| ConversationRuns.NoFalseAlarm | tyche/cache.py:340-350 | Over every run of conversations and one-shot calls on shared routes, with rollbacks, edits, exports, imports and restarts, a flagged request is a turn whose opening's key this process has touched, for clear texts whose opening it has sent; without eviction its history was also imported and is new to this process on this route |
| ConversationRuns.EventsDo | tyche/llm.py:365-392 | What each event does to a conversation and sends: asking, failing, rolling back, editing, starting, one-shot calls, exports and restarts |
| ConversationRuns.ImportTakesOver | tyche/paper/writer.py:294-305 | An import takes over the saved turns exactly if the system message is the same |
| ConversationRuns.FlaggedIff | tyche/cache.py:340-350 | Without eviction a turn is flagged exactly when this process has touched the key of its opening on the route and never that of its history up to the last reply |
| ConversationRuns.FlaggedIffEdited | tyche/cache.py:340-350 | For clear texts and without eviction: exactly when it has sent a request that begins with the opening and none that begins with the history up to the last reply |
| ConversationRuns.LoneConversationNeverFlagged | tyche/cache.py:388-402 | A conversation alone on its route since it was started, or imported with nothing sent there yet, is never flagged, however small the ledger |
| ConversationRuns.LeadsAtFirst | tyche/cache.py:388-402 | What that needs at its start holds of a conversation just started, and of any while nothing was sent on its route |
| ConversationRuns.ReplyIsSentIff | tyche/llm.py:388-392 | At any point of any run, a last reply is part of a sent prefix exactly when some turn on the route, under the same system message, went on from that history |
| ConversationRuns.EditAfterAskIsSafe | tyche/llm.py:379-392 | Directly after a turn its reply is part of a sent prefix exactly if an earlier turn had already gone on from this very exchange |
| ConversationRuns.EditAfterRollback | tyche/llm.py:371-392 | A run in which editing the last reply edits a sent prefix and costs cache hits |
| ConversationRuns.FalseAlarmAfterEviction | tyche/cache.py:388-402 | For a ledger of any size, a run in which it flags a turn although nothing was edited |
| ConversationRuns.FalseAlarmAfterImport | tyche/paper/writer.py:283-305 | A run in which a conversation resumed after a restart is flagged although nothing was edited |
| ConversationRuns.TurnReadsWhatTheLastOneWrote | tyche/llm.py:353-392 | Over every such run, a turn that follows a reply extends the request that was really sent for it, on its own route unless it was imported from another; the message that ended that request carries a breakpoint in the new one exactly when it did in the old one and there is room for two |
| ConfigReads.SafeIffStampsTellApart | jiuwenswarm/common/config.py:182-234 | Every read in every interleaving returns content that was current during the call, exactly when stamps tell the committed versions apart |
| ConfigReads.SafeIfStampsNeverRepeat | jiuwenswarm/common/config.py:182-234 | In particular when no stamp repeats |
| ConfigReads.StaleHit | jiuwenswarm/common/config.py:213-227 | A run in which a reader gets content the file no longer has |
| ConfigRetries.GivesUpIff | jiuwenswarm/common/config.py:219-234 | In every run a read gives up exactly if it found the file missing, or garbled three times; what it returns it found after at most two garbled ones, or the cache had it |
| ConfigRetries.UndisturbedReads | jiuwenswarm/common/config.py:212-230 | A read nobody disturbs returns the document and caches it under its stamp |
| ConfigRetries.CachedIsReturned | jiuwenswarm/common/config.py:213-217 | While the stamp is cached a read returns the cached document without looking |
| ConfigWrites.NoLostUpdates | jiuwenswarm/common/config.py:554-585 | The file is always what the successful mutators produce one after another in the order of lock acquisition |
| ConfigWrites.ReportsAreSerial | jiuwenswarm/common/config.py:566-585 | A call changed the file exactly if it says so, starting from what its predecessors left |
| ConfigUpdates.EveryChangeIsAnUpdate | jiuwenswarm/common/config.py:578-585 | No step of any run changes the file but by putting what one call's mutator makes of the content just before, or of the empty mapping if there is none |
| ConfigUpdates.FinishedSaysWhatItDid | jiuwenswarm/common/config.py:578-585 | A finished call reports the text of such an update of its, or there was none |
| ConfigUpdates.MarksAreKept | jiuwenswarm/common/config.py:566-585 | If every call adds its mark, the file is the first document followed by the marks of the committed calls in lock order |
| ConfigUpdates.UndisturbedCompletes | jiuwenswarm/common/config.py:554-585 | A call that finds the locks free and is not disturbed ends as its mutator says, with the locks free again |
| ConfigWrites.MutualExclusion | jiuwenswarm/common/config.py:554-563 | At most one call is in the critical section, at most one per process holds the inner lock |
| ConfigWrites.NothingLeftBehind | jiuwenswarm/common/config.py:507-524 | Once all calls ended, the locks are free and only crashed calls left temporary files |
| ConfigMerge.DeepMerge | jiuwenswarm/common/config.py:2903-2977 | The merged document, and the number of paths added or pruned |
| ConfigMerge.UnchangedIffNoChanges | jiuwenswarm/common/config.py:2936-2977 | The count is 0 exactly when the document is unchanged |
| ConfigMerge.ChangesArePaths | jiuwenswarm/common/config.py:2946-2964 | The counted changes are exactly the keys present on one side only, below mappings present on both |
| ConfigMerge.UserValuesKept | jiuwenswarm/common/config.py:2914-2921 | Without pruning every user value that is not a mapping on both sides stays |
| ConfigMerge.TemplatePathsPresent | jiuwenswarm/common/config.py:2945-2949 | Without pruning every template path within the depth bound is present unless the user blocks it |
| ConfigMerge.DeepPathsUntouched | jiuwenswarm/common/config.py:2900-2945 | Below the depth bound nothing is touched |
| ConfigMerge.MergeIsIdempotent | jiuwenswarm/common/config.py:2903-2977 | Merging again changes nothing |
| ConfigMerge.PrunedKeysAreTemplates | jiuwenswarm/common/config.py:2960-2964 | With pruning, merged levels have exactly the template's keys |
| ConfigMerge.AgreesWithLayeredMerge | jiuwenswarm/common/config.py:2945-2958 | Within the depth bound it is the same function as Tyche's layered merge |
| ModelDefaults.InferIsDefault | jiuwenswarm/common/config.py:1416-1459 | Exactly these entries are marked: the first of its model name that is marked with the boolean true, or the first of all if none is; a missing name is an empty one, and nothing else changes |
| ModelDefaults.ExactlyOneDefault | jiuwenswarm/common/config.py:1416-1423 | Every name group has exactly one default |
| ModelDefaults.InferenceIsIdempotent | jiuwenswarm/common/config.py:1416-1459 | Running it again changes nothing |
| TycheConfig.DeepMerge | tyche/config.py:48-55 | The loop computes the layered merge |
| Trees.MergeLaw | tyche/config.py:48-55 | What the merge holds at any path, in terms of what the two sides hold there |
| Trees.MergeIsTopIffCovers | tyche/config.py:48-55 | The merge gives back its upper layer exactly when that has every key of the lower one wherever both have mappings |
| TycheConfig.ParseOverride | tyche/config.py:71-82 | An override becomes a nested mapping of its nonempty parts, or an error |
| TycheConfig.OverrideIsLens | tyche/config.py:71-82 | After an override with a value that is not a mapping, that path reads the value and every unrelated path reads what it read before |
| TycheConfig.SameKeysIffTidy | tyche/config.py:75-82 | The override writes where `get` reads exactly when the path has no empty part and no surrounding space |
| TycheConfig.Lookup | tyche/config.py:180-186 | `get` reads the node at the dotted path, or gives the default |
| TycheConfig.SetThenGet | tyche/config.py:71-82 | After `path=raw` with a tidy path and a value that is not a mapping, `get(path)` gives that value, and unrelated dotted paths read what they read before |
| TycheConfig.Load | tyche/config.py:148-167 | Defaults, saved configuration, user file and overrides are merged in that order, then expanded; what the highest layer that says something at a path says there is what the result has there |
| TycheConfig.NothingToExpand | tyche/config.py:31-45 | Values without placeholders are left alone |
| Placeholders.MatchIff | tyche/config.py:23 | A placeholder is recognised exactly where the text begins with `${NAME}` or `${NAME:-default}` |
| Placeholders.PlaceholderIsReplaced | tyche/config.py:32-40 | It is replaced by the variable or, if that is missing or empty, by the default |
| Placeholders.OthersStay | tyche/config.py:40 | Where none begins the character stays |
| Placeholders.SplitAtEveryDot | tyche/config.py:180-186 | A dotted path is split at every dot |
| TycheConfig.ResumeReproducesIff | tyche/config.py:148-167 | Resuming without flags gives back the saved configuration exactly when it covers the defaults and is stable under expansion |
| TycheConfig.ResumeReproduces | tyche/config.py:148-167 | A saved configuration made by layers that keep the default sections, and free of placeholders, is reproduced |
| TycheConfig.ReplacedSectionComesBack | tyche/config.py:48-55 | A configuration that is not reproduced because a default section was replaced twice |
| TycheConfig.NestedPlaceholderIsNotStable | tyche/config.py:31-40 | A saved configuration that resuming without flags in the same environment does not reproduce, because expansion yields a placeholder |
| Stages.Pipeline.Run | tyche/pipeline.py:87-111 | One pass over the stages: skips, marks, failures, crashes, stopping, unknown names |
| Stages.Pipeline.ResetFrom | tyche/workspace.py:157-168 | A stage and all later ones become pending, the others stay; an unknown stage changes nothing |
| Stages.ForceDoes | tyche/cli.py:99-132 | What forcing a stage does to the status of every stage |
| Stages.ResumeContinues | tyche/pipeline.py:87-111 | From any state, a resumed run executes exactly the stages not yet done, once each and in order, up to the stage to stop after or the first that does not succeed, and touches no other |
| Stages.NeverStaleIff | tyche/workspace.py:157-168 | Over all starts, failures, crashes, resets and forced stages: the done stages are always a prefix, each run after all earlier ones, exactly when every forced stage that completed had all earlier stages done |
| Stages.StaleStageStays | tyche/cli.py:99-132 | Whenever a stage is forced before an earlier one is done, a later full run completes everything but leaves it stale |
| Stages.WrittenBeforePlanned | tyche/cli.py:99-132 | A run that ends complete with a paper written before its plan |
| ArtifactNames.IdIsInjective | tyche/workspace.py:224 | No two versions share an id |
| ArtifactNames.PathIsInjective | tyche/workspace.py:218 | No two versions share a path, whatever their suffixes |
| TreeDigest.Sha256Tree | tyche/workspace.py:43-48 | The loop feeds the digest the names and file digests in path order |
| TreeDigest.StreamOfFirst | tyche/workspace.py:43-48 | The digest input is name and digest of the first file and then of the others |
| TreeDigest.BeforeIff | tyche/workspace.py:45 | Paths are ordered by their first different component, and components by their first different character |
| TreeDigest.RunTogether | tyche/workspace.py:43-48 | Every directory of two or more files has a twin of one file with the same digest input |
| TreeDigest.ToldFromAllIff | tyche/workspace.py:43-48 | A directory's digest input is shared by no directory with other names or digests exactly when it has at most one file and no digest is hidden in its name |
| TreeDigest.SameStreamIff | tyche/workspace.py:43-48 | Two directories that have the same names, or clear names, or one of which is unmistakable, have the same digest input exactly when their names and file digests are the same |
| Artifacts.Workspace.Save | tyche/workspace.py:204-285 | Every save keeps the provenance sound and everything recorded unaltered, wherever it fails or dies; one that goes through leaves on disk the text or file as given and, of a directory, every file but those with a component `__pycache__`, `.venv` or `*.pyc`, and records its kind and digest |
| Artifacts.SavedIsLatest | tyche/workspace.py:214-285 | A save goes through exactly when it is not cut short, the source is there and no leftover of the other kind is in the way; then the latest version reads back what was given, less the ignored files of a directory, and no other name's latest changes |
| Artifacts.AlwaysSound | tyche/workspace.py:204-285 | Every state saves can reach is sound |
| Artifacts.RecordedForever | tyche/workspace.py:12-13 | What is recorded once stays recorded with the same bytes |
| Artifacts.VersionsAreCounted | tyche/workspace.py:204-206 | The versions of a name are 1 to their number, in log order |
| Artifacts.ParentIsPrevious | tyche/workspace.py:204-206 | The parent of a version is found in the log and is the version before |
| Artifacts.RecordFound | tyche/workspace.py:191-192 | Looking up a record's id finds that record |
| Artifacts.LatestIsHighest | tyche/workspace.py:194-196 | The latest record of a name is the one of strictly highest version |
| Artifacts.Workspace.VerifyProvenance | tyche/workspace.py:293-304 | The drift report of the records; empty in every sound state |
| Artifacts.NothingDrifts | tyche/workspace.py:293-304 | In every state saves can reach nothing has drifted |
| Artifacts.DriftIff | tyche/workspace.py:293-304 | After any change of the files, exactly the records whose artifact is gone or feeds the digest something else are reported, as long as SHA-256 tells those inputs apart |
| Artifacts.DriftIsSeen | tyche/workspace.py:293-304 | For files, and directories told apart from what is there now, exactly the records whose artifact is gone or reads differently are reported |
| Artifacts.DriftIsMissed | tyche/workspace.py:293-304 | Whatever SHA-256 computes, a recorded directory of two or more files can be replaced by one of a single file without any report |
| Packaging.Run.Review | tyche/pipeline.py:488-523 | However a review ends, the pinned records are replaced all together and exactly when all were saved; after one that is done the latest paper, ledger, rounds, gates and scores are its own |
| Packaging.Run.MakePackage | tyche/pipeline.py:622-663 | Source, PDF and gates of a package come from the one review that last pinned its records; when it is refused; that a refusal leaves the old package alone; `paper.pdf` only if its gates passed |
| Packaging.PackageHolds | tyche/pipeline.py:643-664 | What is in a package, file by file, in terms of the review that pinned |
| Packaging.VerdictIff | tyche/pipeline.py:622-660 | Exactly when packaging is refused, fails or releases, verified or not |
| Packaging.Run.SaveOther | tyche/pipeline.py:185-193 | Any other stage saves a file or a directory under another name between reviews, and pins, ledger and package stay what the history of reviews says |
| Packaging.OneExecutionIff | tyche/pipeline.py:622-663 | Over all sequences of reviews, the ledger is of the review that pinned exactly if no later one got past saving its ledger, and the package is what that one review alone would give exactly if no later one did or the last that did left an equal text |
| Packaging.LedgerOfALaterReview | tyche/pipeline.py:663 | A package with one review's paper and a later review's findings ledger |
| CronRound.Round.Apply | jiuwenswarm/common/cron_team_completion.py:191-240 | An event changes every field of the state as its own fields say: who may give a final and with what text, which kinds and statuses open and close tasks and start and stop members, what an error says |
| CronRound.Round.ShouldEnd | jiuwenswarm/common/cron_team_completion.py:117-138 | The same answer with and without the chunk flag |
| CronRound.Round.Drain | jiuwenswarm/common/cron_team_completion.py:93-114 | Events are applied up to the first after which a task has been created |
| CronRound.ReadIsWellRead | jiuwenswarm/common/cron_team_completion.py:191-240 | Texts taken from events are trimmed, and a leader's final is never blank or a placeholder |
| CronRound.OpenIff | jiuwenswarm/common/cron_team_completion.py:141-157 | The open tasks are those created and neither completed nor swept by an error since |
| CronRound.ActiveIff | jiuwenswarm/common/cron_team_completion.py:160-175 | The active members are those busy and neither freed nor swept by an error since |
| CronRound.FinalSeenIff | jiuwenswarm/common/cron_team_completion.py:141-240 | The latch is set exactly when something latched it and no task was created since |
| CronEvents.TaskIsOpenIff | jiuwenswarm/common/cron_team_completion.py:141-157 | Over events: a task is open exactly if an event opened it and neither one that closes it nor an error came since |
| CronEvents.MemberIsActiveIff | jiuwenswarm/common/cron_team_completion.py:160-175 | Over events: a member is active exactly if an event started it and neither one that stops it nor an error came since |
| CronEvents.LatchIsSetIff | jiuwenswarm/common/cron_team_completion.py:22-31 | Over events: the latch is set exactly if an error, or a final of the leader while nothing was going on, set it and no task was opened since |
| CronEvents.RoundIsOverIff | jiuwenswarm/common/cron_team_completion.py:64-138 | Over events: the three cases in which a round is over |
| CronRound.LatchExcludesOpenTasks | jiuwenswarm/common/cron_team_completion.py:141-240 | In every reachable state the latch excludes open tasks |
| CronRound.ReportedIff | jiuwenswarm/common/cron_team_completion.py:204-220 | The workflow latch is set exactly when a leader's final followed a completed workflow |
| CronRound.EndsIff | jiuwenswarm/common/cron_team_completion.py:64-138 | The three ways in which a round ends, in terms of its events; each of them has result text |
| CronRound.DelegationNeedsANewFinal | jiuwenswarm/common/cron_team_completion.py:151-156 | A harness-style end after a task creation needs a later leader final with nothing going on, or an error, and every created task is closed |
| CronRound.ErrorEndsIff | jiuwenswarm/common/cron_team_completion.py:230-240 | Exactly when an error ends the round |
| CronRound.ErrorDuringAWorkflow | jiuwenswarm/common/cron_team_completion.py:64-74 | An error that does not end the round |
| Download.Installer.TrySource | jiuwenswarm/common/external_cli_runtime.py:753-801 | The attempts at one source, with partial files removed |
| Download.Installer.DownloadWheel | jiuwenswarm/common/external_cli_runtime.py:742-829 | The loops over sources and attempts compute the recursive specification; the result and the file are what the last attempt of the first source that does not fall through decides, and every attempt goes to the mirror first and then to the origin |
| Download.EndsAt | jiuwenswarm/common/external_cli_runtime.py:752-829 | The download ends at the first source not exhausted, or the last, after at most five attempts per source |
| Download.WheelIff | jiuwenswarm/common/external_cli_runtime.py:752-829 | A wheel comes out exactly when some attempt brings a verified body after retryable failures at its source and exhausted earlier sources; the file is that body |
| Download.PathIsClear | jiuwenswarm/common/external_cli_runtime.py:783-800 | Every attempt but the first finds the path clear |
| RuntimeSwap.Runtime.Replace | jiuwenswarm/common/external_cli_runtime.py:1002-1022 | For all rename failures: the new runtime in place, the old one back, or the old one whole in the backup; never lost on the way |

## Left out

- Nested dictionaries updated in place: `ConfigMerge.DeepMerge`, `TycheConfig.DeepMerge` and the artifact records work on
  values, so aliasing, deep copies, comments and key order are not captured.
- LedgerClass.PrefixLedger.Observe: the limit is not negative, for which the source would raise; the request is not empty, for which it
  would raise as well; roles are strings.
- LedgerProofs.LongestIsScan: the digest is the framed prefix, so SHA-256 collisions are excluded.
- Framing.FrameInjective: roles are system, user and assistant, as in every request the client builds.
- Conversations.LLM.Complete: usage numbers, latency, purposes, sampling parameters and the values of hints are not modelled, only
  whether there are hints.
- Conversations.Conversation.Ask: one conversation is never asked twice at the same time.
- ConversationRuns.NoFalseAlarm: an exported conversation is saved and loaded unaltered; the writer's own indices that travel with it are
  not modelled.
- LedgerProofs.RecentMeansSent: texts hide no message header.
- ConfigReads.SafeIffStampsTellApart: file contents are opaque documents, and a malformed file is retried without its waiting times.
- ConfigWrites.NoLostUpdates: only writers that go through `update_config` are modelled; the unlocked updaters of the same file are not.
- ModelDefaults.InferIsDefault: model names are strings.
- Document keys are strings, in `Trees`, `TycheConfig` and `ConfigMerge` alike.
- TycheConfig.ParseOverride: the parsing of an override's value answers for every text; a YAML error there is not modelled.
- TycheConfig.Load: validation of the required sections and YAML parsing are not modelled.
- Stages.NeverStaleIff: one process works on a run at a time.
- Artifacts.Workspace.Save: an entry of the provenance log is written whole or not at all.
- Artifacts.DriftIff: a recorded file that became a directory, on which the source would raise, is excluded; what SHA-256 tells apart
  is asked of the inputs of that record only.
- TreeDigest.Sha256Tree: symbolic links, file names that are not text, and the file system's limits on the length of names are not
  modelled.
- ArtifactNames.PathIsInjective: names are single path components and suffixes start with a dot, as in all calls.
- Packaging.Run.MakePackage: the run record, the provenance file, the report, and failures of the file system while the package is
  written are not modelled; by-products of recompilation are those named after the main file.
- Packaging.Run.Review: the reviewers, the revision loop and compilation are an arbitrary result.
- CronRound.Round.Drain: the two seconds of waiting are the queue of events that arrive in them; lower-casing is exact only for the
  ASCII words it is compared with.
- Download.Installer.DownloadWheel: waiting between attempts, progress reports and a failing removal of a partial file are not modelled.
- RuntimeSwap.Runtime.Replace: existence checks do not fail, and nobody else renames the directories.
- Cache profile detection, hint tables, wheel extraction, model and network calls, the writing, survey and experiment stages,
  memory, and all user interfaces would only add finite lookups or oracles.
