# Verified model of a language-learning server's cores

The server teaches Greek through generated stories, adaptive conversations and tasks. This project models the parts of
it that are state machines, schedulers or text transformations, and proves what they keep over whole runs. Every claim
below is a contract that `dafny verify dfyconfig.toml` checks; nothing is assumed and nothing of the server is executed.

| module | what it models |
|---|---|
| `Conversation`, `ConversationRuns` | the repair stack of a conversation, its optimistic commit, and several browser tabs racing through separate row read, transcript read and commit steps |
| `WaveScheduler`, `WaveTheory` | validation and wave-by-wave execution of generation DAGs with goroutines finishing in any order |
| `RefreshTokens`, `RefreshTheory` | rotation, replay detection and revocation of refresh tokens, with refresh requests in flight |
| `Sentences`, `SentenceTheory`, `Paging` | sentence segmentation of story tokens, reader pages, and how pages treat sentences |
| `WordTimings` | matching spoken word timings to the words of a sentence |
| `SpeechCache` | the byte- and entry-bounded cache of sentence audio |
| `JsonText`, `Placeholders`, `Text` | control characters in model-written JSON (section 7 of RFC 8259), extraction of the JSON object, SQL placeholder numbering, trimming |
| `Balancer`, `BalancerTheory` | the gateway's endpoint balancer in 64-bit nanoseconds and the retry loop around it |
| `Limiter` | the fixed-window limiter and its pruning |
| `ReportCap` | the per-session regeneration cap under a row lock, with concurrent reporters and workers |
| `Dictionary` | the dictionary import's merge of entries and form aliases |
| `Acquisition` | acquisition stages and the algorithmic score over real numbers |
| `Wrappers`, `Numbers` | `Option`, `Result`, maximum and minimum |

Where the code changes state, a class or a loop with the source's branches is proved equal to a specification function
on values, and the properties are lemmas about that function or about runs of it.

## Findings

The code is modelled as it is. These expectations do not hold of it for every input; each entry names what does hold.

- **A stale repair stack can be stored.** A responder reads the conversation row before the transcript. A commit between
  the two reads lets it write a stack that the transcript does not justify (`StaleStackLosesFrame`). What survives every
  interleaving is proved in `RunKeepsSound` and `MissingParentUnreachable`; what needs both reads to see the same state
  is in `UndisturbedRunReplays`; `StaleCommitReplaysIff` says exactly which stale stacks keep the replay.
- **An old main summary can come back.** The same commit can put a summary back over a newer one even where stack and
  transcript stay in step (`StaleSummaryReturns`). It stores the right summary exactly when it continues the story or
  read the summary it stores over (`StaleCommitKeepsSummaryIff`). Over a whole interleaving the stored summary is at every
  moment that of the story continued last exactly when every commit is like that (`SummaryFollowsIff`), as all undisturbed
  commits are (`UndisturbedRunKeepsSummary`).
- **A replay can be missed around the expiry.** A refresh reads the clock before its rotation. A replayed token whose
  request read it at the family's expiry revokes nothing, and a request on the live token that read it just before is
  still refreshed afterwards (`LateReplayMissed`). A replay is final exactly when it was stamped before the expiry or no
  such request is in flight (`ReplayIsFinalIff`), and at most one refresh slips through (`OneLateRefresh`).
- **Logging out with an already replaced token signs nothing out**; exactly the live token does (`LogoutEndsFamilyIff`).
- **Repeated step ids pass validation and can hide a dependency cycle** from a run that completes
  (`RepeatedIdHidesCycle`): a further step under an id already there stalls nothing, whatever it waits for. Repeated ids
  or not, a run in which no body fails completes exactly when rounds can be assigned so that every id has a step waiting
  for earlier rounds only, which is exactly when no set of ids deadlocks, every step of it waiting for one of the set
  (`NothingStuckIff`, `CompletesIffFounded`). Acyclic graphs always complete; for distinct ids only they do
  (`CompletesIffAcyclic`).
- **Cooldowns vanish after 35 failures in a row.** The doubled cooldown leaves a signed 64-bit integer, so from the 35th
  consecutive failure on an endpoint is picked again at once, except for eight failure counts (`RestIsBackoffIff`,
  `OutOfServiceIff`).
- **A page can cut a sentence.** It does exactly when the sentence reaches over the page's 800th token from before it and
  over its 1200th (`PageCutsIff`, `WholeIffNotOverreaching`). A sentence of 401 tokens never does (`NoSentenceCut`), one
  of 402 can (`BoundIsSharp`).
- **Control characters right behind a backslash survive the sanitizer**, and nothing else does (`CleanIffNoneEscaped`).
- **Placeholder numbering is not injective.** Every query with a placeholder, or with a written `$1` outside literals,
  shares its numbered form with another query, and no other query does (`SharesFormIff`). Of the queries that share a form
  exactly one never spells out the number its next placeholder would get (`OneClearQuery`, `SharingNeedsClash`); queries
  without a dollar sign outside literals are always told apart, digits or not (`NumberingInjective`).
- **One extra spoken word shifts all later highlights**, against the comment in the code that one mismatch does not
  (`ExtraWordShiftsAll`); every timing lands right exactly when the spoken words are a subsequence of the written ones
  (`AllRightIffSubsequence`). A mismatch spares all later highlights exactly when the words spoken behind it are a
  subsequence of those written behind the word it took (`RightBehindIff`).
- **The limiter's bound depends on the order of locking.** An attempt reads the clock before it takes the lock, so attempts
  can be decided in any order of their stamps under a clock that never runs back (`EveryOrderReachable`). Locked in order,
  fewer than twice the limit pass per window (`LessThanTwiceTheLimit`); for every order that holds exactly for limits of
  at most one (`BoundForEveryOrderIff`).
- **Forgotten hosts can show.** Over all reachable orders of attempts of some hosts the limiter decides like one that
  never forgets exactly when the limit is at most one or the hosts fit the table, which the constructor sizes for 10,000
  (`PruningIsInvisibleIff`). With more hosts and a limit of two or more, an attempt overtaken by a pruning with a later
  stamp passes where it should not (`PruningShowsOutOfOrder`); a run without such an overtaking is not affected
  (`PruningIsInvisible`).
- **The regeneration cap rests on updates staying out of the counted outcomes.** It is exceeded by at most the number of
  updates that enter them (`CapHoldsUpToEntries`), and for every cap of at least one and every number of such updates by
  that many, when a worker takes up reports whose enqueueing was reported as failed (`LateUpdatesExceedCap`).
- **Merging a text of several parts again appends it again**, unless the limit on parts is reached (`MergeTwiceIff`).

## Model

| member | source | states |
|---|---|---|
| Conversation.HighestIndexed | internal/db/sql_conversations.go:151-157 | the row `ORDER BY turn_index DESC LIMIT 1` returns: no stored turn has a higher index |
| Conversation.LatestAssistantTurn | internal/conversation/service.go:228-235 | the backward search finds the last assistant turn of the transcript, or none |
| Conversation.FindTurn | internal/conversation/service.go:237-244 | the search finds the first turn with the id, or none |
| Conversation.ConversationStore.constructor | internal/db/sql_conversations.go:19-62 | a new conversation stores one assistant root turn with index 0 and an empty stack |
| Conversation.ConversationStore.Append | internal/db/sql_conversations.go:127-193 | the transaction stores both turns, the summary and the stack, or changes nothing: inactive, conflict and reused ids leave the contents as they were |
| Conversation.Respond | internal/conversation/service.go:129-217 | the imperative response is the atomic transition on the stored contents, and a failure changes nothing |
| ConversationRuns.CommitStoresReply | internal/conversation/service.go:160-216 | a committed response appends a learner turn holding the input once, as typed or as spoken, and an assistant turn holding the reply; kinds follow assessment and depth |
| ConversationRuns.ResponseErrors | internal/conversation/service.go:129-217 | with nothing in between, an answer is refused as bad exactly for a missing passage, prompt or summary, a generic prompt, an unknown assessment, or a gap without focus or feedback; the other errors are inactivity and reused ids; every other answer commits |
| ConversationRuns.ResponseStores | internal/conversation/service.go:160-216 | every field of both turns and of the row after a committed answer: both kinds of gap push the newest passage, an understood answer continues the story or retries the top passage |
| ConversationRuns.ClosedStays | internal/db/sql_conversations.go:127-150 | nothing is stored in a closed conversation over any run, whatever tabs read before; a tab that finds it closed gives up |
| ConversationRuns.RootStands | internal/conversation/service.go:68-95 | the conversation starts with the reply's summary, and through any run its first turn is the reply's passage, feedback and prompt |
| ConversationRuns.LastIsHighest | internal/db/sql_conversations.go:151-164 | in a reply chain the turn the commit compares with is the last one, and it is the assistant's |
| ConversationRuns.CommitMeansUpToDate | internal/db/sql_conversations.go:162-164 | an exchange built on an old transcript conflicts; one that commits was built on the current transcript |
| ConversationRuns.AppendKeepsChain | internal/db/sql_conversations.go:165-170 | a committed exchange extends the alternating reply chain with consecutive indexes and fresh ids |
| ConversationRuns.PlanFacts | internal/conversation/service.go:188-216 | a plan on a sound snapshot fails only for an inactive row or a bad reply, answers the newest turn read, and pushes, pops or keeps the stack by its action |
| ConversationRuns.CommitFacts | internal/conversation/service.go:188-216 | committing any plan made from a sound snapshot keeps the database sound or conflicts |
| ConversationRuns.HigherIsLater | internal/conversation/service.go:211-211 | a higher repair frame names a later turn |
| ConversationRuns.RolesByParity | internal/conversation/service.go:162-187 | even positions of a reply chain are the assistant's, odd ones the learner's |
| ConversationRuns.ClimbingSurvivesAppend | internal/conversation/service.go:196-202 | frames that resolve in a transcript resolve in every longer one |
| ConversationRuns.CommitKeepsClimbing | internal/conversation/service.go:188-211 | pushing the current passage, popping the top or keeping the stack leaves frames naming assistant turns with increasing indexes |
| ConversationRuns.StepKeepsSound | internal/conversation/service.go:129-217 | one step of one tab (row read, transcript read, commit) or a close keeps reply chain, frames and what every other tab holds |
| ConversationRuns.RunKeepsSound | internal/conversation/service.go:129-217 | every interleaving of any number of tabs keeps the transcript an append-only alternating reply chain with consecutive indexes, and frames naming earlier assistant turns with increasing indexes |
| ConversationRuns.StartIsSound | internal/conversation/service.go:55-96 | the state after a conversation starts satisfies the invariant |
| ConversationRuns.MissingParentUnreachable | internal/conversation/service.go:199-202 | from the root, in any interleaving, no response fails for a missing repair parent or a transcript without assistant turn |
| ConversationRuns.SwappedReadsMissParent | internal/conversation/service.go:131-138 | reading the transcript before the row would make the missing-parent error reachable |
| ConversationRuns.UndisturbedFinishIsAtomic | internal/conversation/service.go:131-216 | a commit whose two reads saw the same transcript is a whole response taken at the moment of the commit |
| ConversationRuns.AtomicResponseReplays | internal/conversation/service.go:188-216 | an atomic response keeps the stored stack equal to the replay of the transcript, and changes the summary only at depth 0 |
| ConversationRuns.UndisturbedRunReplays | internal/conversation/service.go:129-217 | over any run whose commits all had undisturbed reads, the stored stack is the replay of the transcript |
| ConversationRuns.StaleCommitReplaysIff | internal/conversation/service.go:188-216 | a commit built on an older stack keeps the replay exactly when the two stacks are interchangeable for its transition |
| ConversationRuns.StaleCommitKeepsSummaryIff | internal/conversation/service.go:188-216 | a commit built on an older row stores the right main summary, the reply's when it continues the story and the stored one otherwise, exactly when it continues the story or read the stored summary |
| ConversationRuns.SummaryFollowsIff | internal/conversation/service.go:129-217 | over any interleaving the stored summary is at every moment that of the story continued last exactly when every commit continued the story or read the summary then stored |
| ConversationRuns.UndisturbedRunKeepsSummary | internal/conversation/service.go:129-217 | over any run whose commits all had undisturbed reads, the stored summary is at every moment that of the story continued last |
| ConversationRuns.StaleSummaryReturns | internal/conversation/service.go:131-216 | an understood answer between the two reads of a partial one: stack and transcript stay in step, and the summary it replaced comes back |
| ConversationRuns.DepthZeroPlanCommits | internal/conversation/service.go:190-195 | a plan made at depth 0 commits inside a repair, and the replay is lost |
| ConversationRuns.StaleStackLosesFrame | internal/conversation/service.go:131-216 | a concrete interleaving of two tabs stores a continued main story and drops the repair frame |
| ConversationRuns.OwedSurvivesAppend | internal/conversation/service.go:196-206 | what the frames owe does not change as the transcript grows |
| ConversationRuns.PopStep | internal/conversation/service.go:196-206 | an understood answer inside a repair retries the top frame's passage and focus and pops it |
| ConversationRuns.UnderstoodAnswersUnwind | internal/conversation/service.go:190-207 | from depth k, k understood answers retry the parents' passages in reverse order, keep the summary and end at depth 0 |
| ConversationRuns.UnderstoodAnswersCommit | internal/conversation/service.go:190-216 | those answers all commit while the conversation is active, replies are acceptable and ids are new |
| WaveScheduler.Validate | internal/llm/dag.go:85-115 | no problem exactly when every step dependency names a step and every required output is produced; otherwise a true problem, unknown steps first |
| WaveScheduler.StepDepsReady | internal/llm/runner.go:113-122 | ready exactly when every step dependency has a result; data dependencies never hold back |
| WaveScheduler.SplitPending | internal/llm/runner.go:53-61 | one pass splits the pending steps into the ready ones and the rest, in order |
| WaveScheduler.SplitMembers | internal/llm/runner.go:53-61 | the split sorts every pending step by its readiness |
| WaveScheduler.SplitConserves | internal/llm/runner.go:53-61 | the split keeps every pending step exactly once |
| WaveScheduler.RunWave | internal/llm/runner.go:79-103 | whatever order goroutines finish in, each id of the wave ends with the output of one of its steps and nothing else changes, or the wave fails with some failing step's error |
| WaveScheduler.RunDag | internal/llm/runner.go:44-109 | for any steps, repeated ids included, the loop terminates with an outcome and goroutines the wave semantics permits; for distinct ids they are those of the level schedule |
| WaveScheduler.PermitsIsAllows | internal/llm/runner.go:51-108 | with distinct ids the permitted goroutines and snapshots are unique, and the outcome too unless a body fails |
| WaveTheory.ScheduleIsLayered | internal/llm/runner.go:51-106 | each step of a wave has its dependencies in earlier waves and one in the wave just before |
| WaveTheory.ScheduleConserves | internal/llm/runner.go:51-106 | waves and leftover steps together are the pending steps, each once |
| WaveTheory.StuckIsBlocked | internal/llm/runner.go:63-69 | a step left over waits for something no wave provides |
| WaveTheory.WaveIsLongestChain | internal/llm/runner.go:51-106 | a step's wave number is the length of its longest dependency chain |
| WaveTheory.NoScheduleIsShorter | internal/llm/runner.go:51-106 | no assignment of rounds that respects dependencies runs a step earlier than its wave |
| WaveTheory.CompleteMeansAcyclic | internal/llm/runner.go:51-108 | if no step is left over the dependency relation has no cycle |
| WaveTheory.StalledMeansCycle | internal/llm/runner.go:63-69 | if steps of a validated DAG are left over, they contain a dependency cycle; ids may repeat |
| WaveTheory.RunFollowsSchedule | internal/llm/runner.go:51-108 | a run in which no body fails completes exactly when the level schedule leaves nothing over, has an output for every id, and starts the steps of the waves in order; repeated ids included |
| WaveTheory.EachStepRunsOnce | internal/llm/runner.go:51-108 | in a completed run each step runs once, in its wave, sees exactly the outputs of earlier waves, and its own output is what the results hold |
| WaveTheory.ResultsAreUnique | internal/llm/runner.go:79-108 | two completed runs return the same results and start the same goroutines, whatever order they finish in |
| WaveTheory.FailsIffSomeBodyFails | internal/llm/runner.go:79-103 | repeated ids or not, a run fails exactly when a goroutine it started failed, with the error of one that did |
| WaveTheory.ResultsComeFromCalls | internal/llm/runner.go:79-108 | every result of a completed run is the output of one of its goroutines for that id |
| WaveTheory.CompletesIffAcyclic | internal/llm/runner.go:44-109 | for distinct ids, a run of a validated DAG in which no body fails returns an output for every step exactly when its dependencies are acyclic, and otherwise reports the steps left over |
| WaveTheory.NothingStuckIff | internal/llm/runner.go:51-108 | ids repeated or not, no step of a validated DAG is left over exactly when every id has a step founded in rounds, exactly when no set of ids deadlocks |
| WaveTheory.CompletesIffFounded | internal/llm/runner.go:44-109 | so a run in which no body fails returns an output for every id exactly then, and always for an acyclic graph |
| WaveTheory.RepeatedIdHidesCycle | internal/llm/dag.go:85-101 | a further step under an id already there passes the dependency check and leaves nothing over, though it closes a dependency cycle |
| RefreshTokens.TokenStore.Create | internal/db/sql.go:217-224 | a token row is inserted, or refused for a hash already there |
| RefreshTokens.TokenStore.RotateToken | internal/db/sql.go:252-306 | the transaction's branches: unknown, expired, replayed (family revoked), revoked, mismatched, rotated; and the whole table afterwards |
| RefreshTokens.TokenStore.Revoke | internal/db/sql.go:308-313 | one token is marked revoked unless it was already |
| RefreshTokens.TokenStore.RevokeAll | internal/db/sql.go:315-320 | every token of the user is marked revoked unless it was already |
| RefreshTokens.Refresh | internal/auth/service.go:111-145 | the service call is a read, a clock reading and a rotation step of the state machine; it succeeds exactly when the rotation does |
| RefreshTheory.RotationExtendsChain | internal/db/sql.go:293-305 | a rotation appends one token to the family's replacement chain |
| RefreshTheory.LoginStartsChain | internal/auth/service.go:166-188 | a login starts a chain of its own |
| RefreshTheory.RevocationsKeepChains | internal/db/sql.go:308-320 | revocations change no chain |
| RefreshTheory.StepKeepsIdentity | internal/db/sql.go:252-320 | tokens are never deleted and never change family, user or expiry |
| RefreshTheory.StepKeepsSound | internal/auth/service.go:111-156 | one step of login, refresh (read, clock reading or rotation, each on its own), logout or logout-all keeps every family one linear chain and every request in flight current |
| RefreshTheory.RunKeepsSound | internal/auth/service.go:85-156 | any run keeps that |
| RefreshTheory.EveryRunIsChained | internal/auth/service.go:85-156 | after any run from the empty table each family is one linear replacement chain sharing user and expiry, and every replaced token is revoked |
| RefreshTheory.AtMostOneLive | internal/db/sql.go:274-300 | two unrevoked tokens of a family are the same token |
| RefreshTheory.LiveIsLast | internal/db/sql.go:293-305 | an unrevoked token is the last of its chain |
| RefreshTheory.RefreshSucceedsIff | internal/db/sql.go:274-305 | a refresh succeeds exactly for the unrevoked token, stamped before its expiry, with an unused next hash; the family/user mismatch is never the reason it fails |
| RefreshTheory.FinishStores | internal/db/sql.go:252-305 | the whole table after a rotation in each case: the live token replaced, the family revoked at the replay's time, or nothing changed |
| RefreshTheory.BeginningStores | internal/auth/service.go:111-124 | reading the token and the clock changes no token; an unknown token or a missing user ends the request |
| RefreshTheory.LoginLastsThirtyDays | internal/auth/service.go:166-176 | a session is refreshable at exactly the times before 2,592,000 seconds after its login |
| RefreshTheory.DeadForever | internal/db/sql.go:274-293 | a family without a token that the clock or a request in flight can still rotate is never refreshed in any continuation, and no login revives it |
| RefreshTheory.DeadIffNeverRefreshed | internal/db/sql.go:274-305 | and those are exactly the families no continuation refreshes |
| RefreshTheory.ReplayEndsFamilyIff | internal/db/sql.go:274-293 | a replay stamped before the expiry ends its family; one stamped later changes no token and ends it exactly when no earlier-stamped request on the live token is in flight; other families are left alone |
| RefreshTheory.ReplayIsFinalIff | internal/db/sql.go:271-293 | after a replay no continuation refreshes the family, under exactly that condition |
| RefreshTheory.OneLateRefresh | internal/auth/service.go:128-135 | a family past its expiry is refreshed at most once more |
| RefreshTheory.LateReplayMissed | internal/auth/service.go:128-135 | from any state with a rotated and a live token, a replay stamped at the expiry is refused without effect and a refresh stamped just before it still goes through |
| RefreshTheory.SameExpiry | internal/auth/service.go:124-127 | all tokens of a family share user and expiry, so the family expires at once |
| RefreshTheory.LogoutEndsFamilyIff | internal/auth/service.go:147-152 | a logout ends the family exactly when the token is the live one or the family was over |
| RefreshTheory.LogoutTouchesOne | internal/db/sql.go:308-313 | a logout revokes the row of its token, if not revoked yet, and changes no other row |
| RefreshTheory.LogoutLeavesOthers | internal/auth/service.go:147-152 | any other family can be refreshed afterwards exactly if it could before |
| RefreshTheory.LogoutAllTouchesUser | internal/db/sql.go:315-320 | logout-all revokes exactly the user's rows not revoked yet |
| RefreshTheory.LogoutAllEndsUser | internal/auth/service.go:154-156 | logout-all ends every family of the user for good and touches nobody else's tokens |
| Sentences.IncludeClosingPunctuation | internal/reader/sentences.go:97-109 | the loop stops at the end of the longest run of terminators and closers |
| Sentences.AppendSpan | internal/reader/sentences.go:73-87 | a span is appended for a run with visible text and for no other |
| Sentences.SentenceSpans | internal/reader/sentences.go:29-61 | the loop yields exactly one span for each segment, in order |
| Sentences.VisibleText | internal/reader/sentences.go:89-95 | a run that starts with a visible token has a non-empty text |
| Sentences.MarksIff | internal/reader/sentences.go:111-121 | six characters end a sentence; closing punctuation is what trimming nine characters off both ends leaves nothing of |
| Sentences.ParagraphBreakIff | internal/reader/sentences.go:127-129 | a paragraph breaks exactly at two consecutive line feeds |
| Sentences.TrailsIff | internal/reader/sentences.go:97-109 | a sentence goes on behind its terminator with non-words that are terminators or closing punctuation |
| SentenceTheory.EverySentenceShaped | internal/reader/sentences.go:33-60 | every sentence starts visibly, is body tokens, then the end or a paragraph break left out, or a terminator and the longest run of trailing punctuation |
| SentenceTheory.SentencesOrdered | internal/reader/sentences.go:33-60 | sentences follow each other without overlap |
| SentenceTheory.NoTokenMissed | internal/reader/sentences.go:33-60 | every token that is neither blank nor a paragraph break lies in a sentence |
| SentenceTheory.CoversIffHolds | internal/reader/sentences.go:64-71 | over increasing positions, covering a token's position and holding its index agree |
| SentenceTheory.SpansDisjoint | internal/reader/sentences.go:29-87 | the spans are numbered consecutively, non-empty, visible, ordered and disjoint |
| SentenceTheory.EachTokenInOneSpan | internal/reader/sentences.go:29-61 | every token that is neither blank nor a paragraph break lies in exactly one span |
| SentenceTheory.SentenceAt | internal/reader/sentences.go:64-71 | the search finds a span covering the position or reports truly that there is none; over increasing positions the span is the only one |
| SentenceTheory.SpanTextIsWritten | internal/reader/sentences.go:89-95 | white space, the span's text and white space together are the surfaces of its tokens, each at the sum of the lengths before it; the text neither starts nor ends with white space |
| Paging.StoryTokenPages | internal/handler/reader.go:162-187 | the nested loops produce the specified pages |
| Paging.ExtendedEnd | internal/handler/reader.go:170-179 | the page is extended to the end of the first sentence it would cut, or to the longest length |
| Paging.PagesPartition | internal/handler/reader.go:162-187 | pages follow each other from the first token to the last, each with 1 to 1200 tokens and at least 800 unless last |
| Paging.PageEndsCleanly | internal/handler/reader.go:168-183 | a page ends at the story's end, outside every sentence's interior, or at exactly 1200 tokens |
| Paging.PageEndIs | internal/handler/reader.go:158-186 | a page ends with the story, at its 800th token if no sentence lies across it, and else at that sentence's end or at the 1200th token |
| Paging.PageCutsIff | internal/handler/reader.go:168-183 | a page cuts a sentence exactly when the sentence reaches over its 800th token from before it and over its 1200th |
| Paging.CutSentenceIsLong | internal/handler/reader.go:168-183 | so a page that cuts a sentence has 1200 tokens and the sentence at least 402 |
| Paging.WholeIffNotOverreaching | internal/handler/reader.go:162-187 | the page a sentence starts on holds all of it exactly when it does not reach over that page so |
| Paging.NoSentenceCut | internal/handler/reader.go:162-187 | a sentence of at most 401 tokens lies wholly on one page |
| Paging.BoundIsSharp | internal/handler/reader.go:162-187 | a sentence of 402 tokens is cut: 401 cannot be raised |
| Paging.StoryTokenPageAt | internal/handler/reader.go:189-196 | the first page whose last token is at or past the position, the last page if none, -1 without pages |
| Paging.PageOfToken | internal/handler/reader.go:101-103 | looking up a token's position gives the page that holds the token |
| Paging.SentenceSpansForWindow | internal/handler/reader.go:198-206 | the loop keeps exactly the overlapping spans in order |
| Paging.WindowMembers | internal/handler/reader.go:198-206 | a span is kept exactly when it is one of the spans and overlaps the window |
| Paging.WindowInOrder | internal/handler/reader.go:198-206 | the kept spans stay ordered and disjoint |
| Paging.PageShowsWholeSentences | internal/handler/reader.go:101-107 | for sentences of at most 401 tokens, the page response lists a sentence exactly when the page holds all of it |
| WordTimings.ReaderWordTimings | internal/handler/reader_speech.go:425-463 | the loops place timing k on the k-th chosen word of the sentence, one for one when counts agree |
| WordTimings.FindWord | internal/handler/reader_speech.go:448-458 | the next word with the normal form, or failing that the next word |
| WordTimings.TimingsInOrder | internal/handler/reader_speech.go:425-463 | placed positions rise strictly and lie inside the sentence: no word is timed twice |
| WordTimings.TimingsCarryTimes | internal/handler/reader_speech.go:465-467 | each placed timing has its own start and end and the position and surface of a word of the sentence |
| WordTimings.EqualCountsAlign | internal/handler/reader_speech.go:433-438 | as many timings as words are taken one for one |
| WordTimings.TimingTakes | internal/handler/reader_speech.go:443-462 | otherwise a timing takes the nearest word with its text behind the one taken before, or failing that the next, until words or timings run out |
| WordTimings.FirstMatchSuffices | internal/handler/reader_speech.go:450-455 | taking the first matching word loses no later match |
| WordTimings.MatchedIffSubsequence | internal/handler/reader_speech.go:440-461 | matching forward places every timing on a word with its text exactly when the spoken words are a subsequence of the words left |
| WordTimings.AllRightIffSubsequence | internal/handler/reader_speech.go:425-463 | in either branch, every timing lands on a word with its text exactly when the spoken words are a subsequence of the written ones |
| WordTimings.RightBehindIff | internal/handler/reader_speech.go:440-462 | whatever became of a timing, all behind it land right exactly when their words are a subsequence of those behind the word it took |
| WordTimings.ExtraWordShiftsAll | internal/handler/reader_speech.go:440-461 | in a sentence of any number of different words, an extra spoken word in front puts each later timing on the wrong word and drops the last |
| SpeechCache.ReaderSpeechAssetSize | internal/handler/reader_speech.go:91-97 | the size is the bytes of audio, content type and words with sixteen more per word |
| SpeechCache.SizeGrows | internal/handler/reader_speech.go:91-97 | every byte of audio, content type and text counts one, every word sixteen more, and nothing else counts |
| SpeechCache.ReaderSpeechCache.Get | internal/handler/reader_speech.go:53-58 | the asset listed for the key, or none |
| SpeechCache.ReaderSpeechCache.Forget | internal/handler/reader_speech.go:63-72 | an existing entry leaves map, order and byte counter together |
| SpeechCache.ReaderSpeechCache.MakeRoom | internal/handler/reader_speech.go:78-84 | the loop drops oldest entries until the new one fits or none is left |
| SpeechCache.ReaderSpeechCache.Put | internal/handler/reader_speech.go:60-89 | the new list is the old one without the key, evicted from the front, with the entry at the end; an oversize asset only removes; order, map and counter stay consistent |
| SpeechCache.EvictsShortestPrefix | internal/handler/reader_speech.go:78-84 | eviction drops the shortest oldest prefix that makes room: with one entry fewer a limit would break |
| SpeechCache.DropsOnlyWhatMustGo | internal/handler/reader_speech.go:74-88 | with one of the entries dropped kept, and those behind it, the new list would break a limit; an oversize asset drops nothing but its own key |
| SpeechCache.NothingDroppedThatFits | internal/handler/reader_speech.go:74-88 | nothing is dropped when the other entries and the new one are within the limits |
| SpeechCache.RemoveKeepsOthers | internal/handler/reader_speech.go:63-72 | the other entries keep their order |
| SpeechCache.InsertKeepsLimits | internal/handler/reader_speech.go:74-88 | both limits hold after every put if they held before |
| SpeechCache.InsertReads | internal/handler/reader_speech.go:60-89 | after a put the key reads the asset, or nothing if oversize; any other key reads what it did or nothing |
| SpeechCache.RunKeepsSound | internal/handler/reader_speech.go:53-89 | after any puts both limits hold, keys are distinct, and a key reads the last asset put for it or nothing |
| JsonText.SanitizeJSONControlChars | internal/llm/responses.go:258-295 | the loop computes the specified rewriting |
| JsonText.EscapeReads | internal/llm/responses.go:280-289 | a strict reader reads each escape written as the character it replaced |
| JsonText.EscapesAre | internal/llm/responses.go:276-290 | line feed, carriage return and tab get short escapes, the other control characters four lower-case hex digits |
| JsonText.OnlyBareReplaced | internal/llm/responses.go:258-295 | position by position, exactly the control characters in strings not behind a backslash are replaced |
| JsonText.SanitizeKeepsMeaning | internal/llm/responses.go:258-295 | for every input, strictly reading the output gives what leniently reading the input gives, including failure |
| JsonText.CleanIffNoneEscaped | internal/llm/responses.go:264-270 | the output is free of control characters in strings exactly when the input has none right behind a backslash |
| JsonText.UnchangedIffNoBare | internal/llm/responses.go:258-295 | the text comes back unchanged exactly when no string holds a bare control character |
| JsonText.SanitizeIdempotent | internal/llm/responses.go:258-295 | sanitizing twice is sanitizing once |
| JsonText.ObjectFound | internal/llm/responses.go:244-252 | prose without an opening brace and trailing text without a closing one are dropped, and nothing of the object |
| JsonText.NoObject | internal/llm/responses.go:238-252 | without an opening brace before a closing one the whole trimmed text is taken |
| JsonText.ExtractedMeaning | internal/llm/responses.go:238-252 | a strict reader of the extracted text reads the object the model wrote |
| Placeholders.Rebind | internal/db/dialect.go:35-64 | the loop with its doubled-quote branch agrees with plain quote parity; other dialects and queries without marks pass through |
| Placeholders.ItoaIsDecimal | internal/db/dialect.go:66-72 | the digits are the number in decimal without leading zero |
| Placeholders.RewritesOnlyPlaceholders | internal/db/dialect.go:42-63 | exactly the k-th question mark behind an even number of quotes becomes a dollar sign and k; nothing else changes |
| Placeholders.ReadBackIff | internal/db/dialect.go:42-63 | the query can be read back, number after number, exactly when it nowhere spells out the number its next placeholder would get |
| Placeholders.RewriteRestored | internal/db/dialect.go:42-63 | a numbered query read back is numbered the same again |
| Placeholders.OneClearQuery | internal/db/dialect.go:42-63 | every numbered form comes from exactly one query that spells out no next number |
| Placeholders.NumberingInjective | internal/db/dialect.go:35-64 | two such queries, in particular two without a dollar sign outside literals, with one numbered form are the same query |
| Placeholders.SharesFormIff | internal/db/dialect.go:35-64 | another query has the same numbered form exactly when this one has a placeholder or a written $1 outside literals |
| Placeholders.SharingNeedsClash | internal/db/dialect.go:42-63 | two different queries share a form only if one of them spells out its next number |
| Balancer.Endpoint.CheckEligible | internal/gateway/balancer.go:177-187 | eligible exactly when enabled, serving the model and not cooling; the wait is the remaining cooldown |
| Balancer.Endpoint.SupportsModel | internal/gateway/balancer.go:194-204 | no model asked for, no list, or a listed model |
| Balancer.Endpoint.NoteSuccess | internal/gateway/balancer.go:206-211 | a success clears failures and cooldown |
| Balancer.Endpoint.NoteError | internal/gateway/balancer.go:213-238 | the whole endpoint state after each class of upstream error |
| Balancer.Endpoint.Cooldown | internal/gateway/balancer.go:240-250 | the cooldown ends after the rest the error calls for |
| Balancer.BalancedProvider.Pick | internal/gateway/balancer.go:133-165 | busy with the least remaining cooldown, or the candidate whose turn it is, or the least loaded in turn order; the counter advances only when there is a candidate |
| Balancer.BalancedProvider.HasCandidate | internal/gateway/balancer.go:167-175 | true exactly when some endpoint could take the request |
| Balancer.BalancedProvider.Complete | internal/gateway/balancer.go:84-122 | one endpoint changes as its answer calls for, a busy request changes none, and an error becomes retryable at once when another endpoint is free |
| BalancerTheory.RestAtMostAMinute | internal/gateway/balancer.go:240-249 | no cooldown exceeds 60 seconds |
| BalancerTheory.RestIsBackoffIff | internal/gateway/balancer.go:243-248 | without Retry-After the cooldown is one second doubled per failure after the first, at most a minute, exactly for failure counts up to 34 and eight above; for every other count it is not positive |
| BalancerTheory.OutOfServiceIff | internal/gateway/balancer.go:226-234 | a repeated transient failure takes the endpoint out of service exactly for those counts |
| BalancerTheory.FirstLostRest | internal/gateway/balancer.go:226-234 | the thirty-fifth failure in a row is the first that does not |
| BalancerTheory.RateLimitedUntil | internal/gateway/balancer.go:221-223 | a rate-limited endpoint is back exactly when the upstream said, or after a minute if it asked for more |
| BalancerTheory.DisabledForGood | internal/gateway/balancer.go:218-220 | an endpoint that refused key or payment never takes a request again |
| BalancerTheory.FailuresAreStreak | internal/gateway/balancer.go:206-238 | over any calls of a fresh endpoint the failures counted are the transient ones since the last response or other error, and it is disabled exactly by a refused key or payment |
| BalancerTheory.RestStarts | internal/gateway/balancer.go:206-250 | a response ends the rest, a rate limit and the second and later transient failures in a row start one, any other error leaves it |
| BalancerTheory.BusyIff | internal/gateway/balancer.go:133-204 | a request finds the balancer busy exactly when every endpoint is disabled, resting or without the model |
| BalancerTheory.TurnsVisitAll | internal/gateway/balancer.go:152-155 | below half the counter's range, as many round-robin picks in a row as there are candidates pick every one of them |
| BalancerTheory.PanicsIff | internal/gateway/balancer.go:152-154 | the index is negative exactly in the counter's upper half unless the remainder is zero |
| BalancerTheory.PickedIsLeastLoaded | internal/gateway/balancer.go:157-164 | the endpoint picked by load has no more requests in flight than any eligible one |
| BalancerTheory.PickedFirstInTurn | internal/gateway/balancer.go:157-164 | and every candidate before it in turn has more |
| BalancerTheory.RunStaysCooled | internal/gateway/balancer.go:206-250 | from fresh endpoints, after any answers in any order, no cooldown reaches more than a minute past now |
| BalancerTheory.WaitAtMostAMinute | internal/gateway/balancer.go:133-150 | so a busy balancer reports a wait between 0 and 60 seconds |
| BalancerTheory.WaitIsExact | internal/gateway/balancer.go:133-150 | with nothing else going on, an endpoint becomes eligible exactly when the reported wait is over |
| BalancerTheory.NoneServes | internal/gateway/balancer.go:133-150 | told to wait zero, a caller finds no endpoint at any later time |
| BalancerTheory.RetryBackoff | internal/gateway/gateway.go:241-247 | base, twice base, four times base and so on in wrapping arithmetic |
| BalancerTheory.ShiftIsWrapped | internal/gateway/gateway.go:241-247 | that is the base times a power of two in the low 64 bits |
| BalancerTheory.CompleteWithRetries | internal/gateway/gateway.go:200-222 | the loop's attempts one behind the other, each with its pick, answer and effect on the provider; each but the last failed and is worth retrying, and the next comes after the wait it asked for or else the backoff; the reply is the last attempt's, and the loop ends early only for one that is final |
| BalancerTheory.ReplyIs | internal/gateway/balancer.go:84-122 | an attempt's answer in each case: done, the upstream's own error, the same status worth retrying at once, or unavailable for the wait |
| BalancerTheory.BusyAttempts | internal/gateway/gateway.go:200-222 | over a whole request, behind a busy attempt with a wait the next is not busy, behind one without it is as hopeless |
| Limiter.Limiter.Allow | internal/auth/context.go:44-74 | the decision and the whole table afterwards |
| Limiter.Limiter.DropExpired | internal/auth/context.go:66-72 | the loop deletes exactly the expired entries |
| Limiter.LockOrderDecides | internal/auth/context.go:53-73 | with clock reading and locked update as two steps, the table depends on the order of locking alone |
| Limiter.EveryOrderReachable | internal/auth/context.go:53-55 | under a clock that never runs back attempts can be locked in any order of their stamps |
| Limiter.PruningIsInvisible | internal/auth/context.go:66-72 | a run in which no attempt is overtaken by a pruning with a later stamp decides like a limiter that never forgets |
| Limiter.PruningIsInvisibleIff | internal/auth/context.go:53-72 | over all reachable orders of attempts of some hosts no decision differs from a limiter that never forgets exactly when the limit is at most one, the hosts fit the table, or there is at most one of them |
| Limiter.TenThousandHosts | internal/auth/context.go:40-42 | for a limiter as constructed that is a limit of at most one or at most 10,000 hosts |
| Limiter.PruningShowsOutOfOrder | internal/auth/context.go:53-72 | for every other limit, table limit and set of hosts, a reachable run in which an overtaken attempt passes that a remembering limiter refuses |
| Limiter.LessThanTwiceTheLimit | internal/auth/context.go:55-65 | locked in the order of their stamps, fewer than twice the limit get through per host in any half-open interval of one window |
| Limiter.BoundIsReached | internal/auth/context.go:55-65 | for every limit and every window of at least two ticks that bound is attained |
| Limiter.BoundForEveryOrderIff | internal/auth/context.go:53-65 | over every reachable order of locking the bound holds exactly for limits of at most one; otherwise one instant can pass any number of times |
| ReportCap.SessionReports.CountByOutcome | internal/db/sql_pipeline.go:1085-1103 | the number of rows with a counted outcome |
| ReportCap.UsedIs | internal/handler/task_reports.go:18-23 | the number used is the number of rows queued, regenerating, regenerated or failed |
| ReportCap.SessionReports.ReportTask | internal/handler/task_reports.go:53-108 | one undisturbed report: the row stored, the outcome and the number told, also when enqueueing fails |
| ReportCap.StepKeepsSound | internal/handler/task_reports.go:53-108 | one step of any reporter or worker keeps the cap and what every reporter in its transaction has counted |
| ReportCap.RunKeepsSound | internal/handler/task_reports.go:53-108 | so does every interleaving, up to the updates that enter the counted outcomes |
| ReportCap.CapHolds | internal/handler/task_reports.go:53-108 | when no update enters the counted outcomes, at most cap reports are counted and a queued reporter is told at most cap, in every interleaving |
| ReportCap.CapHoldsUpToEntries | internal/handler/task_reports.go:53-108 | in general the cap is exceeded by at most the number of such updates |
| ReportCap.ReportRuns | internal/handler/task_reports.go:58-81 | lock, count, insert and commit with nothing in between are one report |
| ReportCap.ReportTells | internal/handler/task_reports.go:53-136 | which outcome that report stores in each case, and the number it is told |
| ReportCap.RollbackFrees | internal/handler/task_reports.go:53-82 | a report rolled back leaves no row and frees the lock |
| ReportCap.CapIsUsed | internal/handler/task_reports.go:125-136 | of k reports one after another exactly the first cap are queued |
| ReportCap.LateUpdatesExceedCap | internal/story/pipeline.go:753-758 | for every cap of at least one and every n, a run with n such updates has cap + n counted reports |
| ReportCap.UnlockedExceedsCap | internal/db/sql_pipeline.go:57-63 | without the row lock two reporters both get the last regeneration |
| Dictionary.MergeTextKeeps | internal/kaikki/importer.go:435-453 | merged text starts with what was there and ends with it or with the new text |
| Dictionary.SplitJoined | internal/kaikki/importer.go:443-452 | splitting a merged text gives the parts of both texts |
| Dictionary.PartsAreWhole | internal/kaikki/importer.go:443-448 | no part contains a separator, trimmed or not |
| Dictionary.MergeTwiceIff | internal/kaikki/importer.go:435-453 | merging the same text again changes nothing exactly when it is a single part, nothing else is there, or the limit on parts keeps it out |
| Dictionary.ImportForms | internal/kaikki/importer.go:130-151 | the loop merges an alias for each usable form with a key of its own, up to a failure |
| Dictionary.Import | internal/kaikki/importer.go:93-156 | the loop merges exactly the planned definitions and reports whether it got through |
| Dictionary.LineDefinitions | internal/kaikki/importer.go:93-151 | the definitions of a line are its headword's, first, and one with the form's note for each usable form with a key of its own; and when a line fails |
| Dictionary.BuiltText | internal/kaikki/importer.go:412-453 | over a whole import, glosses, notes and related words of a key are merged in order up to 6, 4 and 8 parts, and of the other fields the first one written stays |
| Dictionary.BuiltLinked | internal/kaikki/importer.go:412-433 | a key's link is empty if a headword was merged under it, else that of the first definition merged |
| Dictionary.LinksNeverChain | internal/kaikki/importer.go:412-433 | a link leads to a present definition without a link |
| Dictionary.ImportNeverChains | internal/kaikki/importer.go:93-156 | that holds for any lines and wherever the import stops |
| Dictionary.AliasIffNoHeadword | internal/kaikki/importer.go:125-151 | the keys are the headwords and usable forms, and a key is an alias exactly when no headword resolved to it |
| Dictionary.OrderDoesNotMatter | internal/kaikki/importer.go:93-156 | neither the order of the lines nor repeated lines change whether the import gets through, which keys are defined and which are aliases |
| Acquisition.Engine.Refresh | internal/acquire/acquire.go:208-227 | the stored row carries the new score and the higher stage |
| Acquisition.Engine.ApplyTaskSignal | internal/acquire/acquire.go:270-292 | the loop grades every target once per occurrence, in order |
| Acquisition.StageReachedIff | internal/acquire/acquire.go:77-124 | a stage is reached exactly when its own gate and all gates below it are passed, gates stated without divisions |
| Acquisition.RefreshTakesTheHigher | internal/acquire/acquire.go:212-217 | the stored stage becomes the higher of stored and evaluated |
| Acquisition.ConfidenceBounded | internal/predictor/algorithmic.go:84-84 | confidence is between 0 and 1 |
| Acquisition.RunAdvances | internal/acquire/acquire.go:208-292 | over any run of grades and reader updates no stage falls and correct answers stay at most answers |
| Acquisition.SignalCounts | internal/acquire/acquire.go:279-285 | a signal adds one answer per occurrence of the item, correct exactly when demonstrated, and touches no reader counter |
| Acquisition.LastGradeScores | internal/acquire/acquire.go:270-292 | a graded row is seen and scored at the times of its last occurrence |
| Acquisition.TasksAloneStayUnseen | internal/acquire/acquire.go:270-292 | an item met in tasks alone has no exposures and stays unseen |
| Acquisition.StrengthIs | internal/predictor/algorithmic.go:54-76 | exposures and variety up to their saturations, less lookups per exposure, plus accuracy, each with its weight, stated without divisions |
| Acquisition.ScoreFades | internal/predictor/algorithmic.go:76-84 | the score is that strength times the fading since last seen, cut off at zero and one |
| Acquisition.StageMonotone | internal/acquire/acquire.go:77-124 | the evaluated stage is monotone in answers, accuracy and confidence |
| Acquisition.StrengthMonotone | internal/predictor/algorithmic.go:58-76 | fewer lookups and more variety never lower the score before fading |
| Acquisition.AccuracyRises | internal/predictor/algorithmic.go:71-74 | one more demonstrated answer does not lower the accuracy |
| Acquisition.DemonstrationNeverHurts | internal/predictor/algorithmic.go:54-90 | a demonstrated target has at least the confidence and evaluated stage of rescoring at the same instant, if it has not faded more |
| Acquisition.DemonstratedNow | internal/acquire/acquire.go:270-292 | seen and scored at one instant, with any fading factor in (0,1], a demonstrated target can only gain |

## Left out

- HTTP handlers, event streams, cookies, JSON mapping, SQL text, migrations, object storage and prompts: plumbing around the cores. Model replies, upstream answers and step bodies are arbitrary inputs.
- Each SQL transaction is one atomic step, except in `ReportCap`, which splits it into lock, count, insert and commit. Isolation levels of Postgres are not modelled.
- Storage and network failures inside an operation are not modelled where they only abort it. In `RefreshTokens.Refresh` this includes a failure to issue the access token after the rotation has been stored.
- Random ids and hashes: a login draws a family no token carries; reused turn ids and token hashes are modelled as the constraint violations they cause.
- `Conversation.Respond`: trimming and the wording test for generic prompts are inputs of the reply; prompt building, history limits, timestamps and the remaining columns do not affect the protocol. One conversation is modelled at a time.
- Wave scheduler: `RunDAGStep`'s single retry after a parse error is part of the step body, which is any function of the step and its snapshot. Layering, chain length and one run per step are stated for distinct ids; validation, the run, its completion and the cycle among leftover steps for any.
- RefreshTheory.ReplayEndsFamilyIff: a replay whose user lookup fails never reaches the rotation and is not covered.
- Strings are sequences of Unicode characters: invalid UTF-8 bytes, which Go turns into the replacement character, are not modelled. `Placeholders` reads bytes as characters.
- `WordTimings`: the normal form of a word is an arbitrary function; lower-casing and character classes are not modelled.
- `SpeechCache.ReaderSpeechAssetSize`: text lengths count the characters of the model's strings, which stand for bytes.
- Balancer: a pick and the noting of an answer are atomic; interleavings of concurrent requests inside them, cancellation of a sleeping request and model listing are not modelled. The index panic after 2^63 picks is modelled.
- `BalancerTheory.CompleteWithRetries`: time is a mathematical integer; only durations wrap.
- The clock is taken never to run back between refreshes and between attempts; a login's or logout's time may be any.
- Limiter: the extraction of the host from the remote address.
- Report cap: the report's note, snapshot and messages; reading an existing report; the worker itself beyond the outcomes it writes.
- Dictionary: choosing glosses, notes and forms from an entry, and the statistics; resolving keys is an input.
- Acquisition: FSRS scoring and state, the asynchronous prediction cache and the self-confidence of a prediction. Floating point is modelled by real numbers, the exponential by any function, and the saturations are positive, as configured.
