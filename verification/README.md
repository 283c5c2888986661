# Jux verification

Jux is a coding agent for the terminal: a run loop calls a language model, executes its tools, enters skill
subflows, pauses for a person and resumes later from what its store recorded. This project models the parts of it
whose correctness is least visible in any one function, and proves what they promise each other. `dafny verify
dfyconfig.toml` checks all of it.

**The run loop.** The whole state of a run is an append-only log of typed steps. A resumed run has only that log: it
searches it for the pending question, replays the skill's transcript, counts the skill's iterations and looks for
calls that still lack a result. `RunModel` has the step types and tool calls, `RunLog` the functions that read a log
(prompts, transcripts, pending questions), `Prompts` what those functions mean, said of the messages, items and questions
themselves, `RunSummary` a one-pass summary of a log with its declarative meaning,
`RunInvariant` the phases a log goes through and what each recorded step does to them, `Provenance` where its tool
calls and skill starts come from, `Exchanges` what is known about every model call ever made, `RunLoop` the loop itself
as a class over a store and a provider, and `RunTheorems` what follows for every reachable session. The model and the
tools are oracles: `Provider` may answer anything at all. Every model call is kept as an `Exchange` together with the
log it was made from and the skills that were configured, so that statements about "every request ever sent" can be
made. `SessionValid` is the invariant: `RunLoop.RunLoop.Run` keeps it, starting from the empty session, and the theorems
of `RunTheorems` hold in every state that satisfies it.

**Ids.** `Ids` and `IdStore` have the zero-padded hierarchical ids, their text order, and the run and step tables whose
next number is recomputed from the greatest id; `IdHistory` follows the tables over any history of insertions. Through
999,999 entries text order is append order. Number 1,000,000 is still given out, sorts before its predecessor, and makes
the append after it fail as a duplicate.

**Globs and paths.** `Glob` has the loop that turns a wildcard pattern into regex text, a parser and a language
semantics for the fragments it emits, and the documented meaning of wildcards. `PathPolicy` has the path normaliser and
the ordered filesystem rules that use both.

**Mouse reports.** `SgrMouse` has the xterm SGR encoding (mode 1006, "Extended coordinates" in xterm Control Sequences)
and its decoder; `EventDecoder` the timed buffer that puts reports back together from key presses.

**Virtual list.** `VirtualList` has the height cache and the window computation, against a layout of every row.

**Transformations.** `DistributionSlot` has the metadata slot patched into executables, `JsoncStrip` the comment
stripper, `ShrinkWidths` the column shrinker.

**Code changes.** `CodeChange` has the review of a proposed change, from preparing to writing files.

`Prelude` and `Decimal` are shared helpers. Every lemma switches Dafny's automatic induction off: where a proof is by
induction, its recursive call is written out.

## Assumptions

- The ids of a model's tool calls are new in their run and none begins with the prefix of explicit skill calls
  (`FreshReply` in `RunModel`). Results are looked up by id, so the loop depends on this.
- One execution at a time works on a session.
- Two statements compare a model call with an earlier one of the same run only when the session context is unchanged;
  across a pause, also only when the skill's definition is. Their `requires` say so.
- `RunLoop` reads the steps of a run and of a session in append order; `IdHistory` proves that order up to 999,999.
- The session ids of one workspace have equally many dashes, and steps are appended to runs that exist, as in
  `RunLoop` (`WellFormed` in `IdHistory`).

## Findings

Where the code does less than its documentation or than one would expect, the model follows the code and the exact
condition is a theorem.

- Calls beside `human_input`, or after a skill that pauses, are never answered. Every call is paired with a result
  exactly when neither happens (`RunTheorems.CallsArePairedExactly`); `RunTheorems.UnpairedSession` is a session in
  which the model is asked while a call has no result.
- A wildcard pattern means what its documentation says on inputs without a newline; with one, `**` does not match
  (`Glob.FaithfulExactlyWithoutNewline`). It fails to compile exactly when it ends in an odd number of backslashes
  (`Glob.CompilesUnlessEscapeDangles`).
- A policy of workdir rules does not confine absolute paths to its workdirs when one of those normalises to the empty
  path: that is a prefix of everything. Confinement holds exactly when none does, or the root is a workdir anyway
  (`PathPolicy.StaysBelowExactly`). The default workspace of `jux run` is `.` (crates/jux-cli/src/main.rs:157), whose
  default policy then lets every absolute path be read (`PathPolicy.DotWorkspaceReadsEverything`).
- A report that arrives without its Escape is recognised unless other text is held when its `[` arrives; then it leaks
  as key presses (`EventDecoder.ReportWithoutEscape`).
- Heights taken over with `use_cached_measurements` have no revisions; a later `measure` keeps one whose item's
  revision is the largest 64-bit number (`VirtualList.CachedMeasurementsAreKept`, with an input in
  `VirtualList.StaleHeightIsKept`).
- `use_cached_measurements` cuts the scroll position to the height of the list and not to its last full window, so the
  position is inside the list exactly under `FitsInside` (`VirtualList.VirtualListState.UseCachedMeasurements`); past it
  the viewport is not filled. The conversation view, its only caller, counts padding as rows and so takes over such a
  position when it shows its end (`VirtualList.ConversationFits`, `VirtualList.ConversationLeavesGap`).
- A slot reads back only when the version and commit are valid, which `to_slot` does not check
  (`DistributionSlot.SlotReadsBack`); a commit `z` is written and then refused (`DistributionSlot.OddCommitIsWritten`).

## Model

| member | source | states |
|---|---|---|
| RunModel.ExplicitIdsInjective | crates/jux-core/src/main_loop/mod.rs:1496-1498 | Different positions in the list of requested skills have different call ids. |
| RunModel.ItemsSnoc | crates/jux-core/src/main_loop/mod.rs:1521-1561 | The tool calls and the text of a response are those of its items, in order. |
| RunModel.ParseSkillArguments | crates/jux-core/src/main_loop/mod.rs:625-632 | The name and task are read exactly from an object with these two text fields, or from the array of both texts. |
| RunModel.FindSkill | crates/jux-core/src/main_loop/mod.rs:633-638 | The first configured skill of the name is found, if there is one. |
| RunLog.MainRequestIgnoresAuxiliary | crates/jux-core/src/main_loop/mod.rs:1089-1135 | Deleting every skill, error and checkpoint step from a log leaves the main request unchanged. |
| RunLog.EqualResultsEqualPrompts | crates/jux-core/src/main_loop/mod.rs:1576-1602 | Two logs that differ only in such steps send equal main requests. |
| RunLog.ParentIsStable | crates/jux-core/src/main_loop/mod.rs:1386-1403 | Appending steps never changes the parent messages of a skill call already recorded. |
| RunLog.ParentIsTheCallingPrompt | crates/jux-core/src/main_loop/mod.rs:779-814 | The parent messages of a skill call are the main request that was answered by it. |
| RunLog.PreambleFromCaller | crates/jux-core/src/main_loop/mod.rs:760-814 | A skill's prompt begins with its caller's request, its instructions injected, then the task. |
| RunLog.SkillMessagesSnoc | crates/jux-core/src/main_loop/mod.rs:1434-1470 | One more step extends a skill's message list by exactly its own entry, or makes it fail. |
| RunLog.ReplayAcrossPause | crates/jux-core/src/main_loop/mod.rs:1434-1470 | After a pause and its answer, the rebuilt message list is the old one, the pausing response and the answer. |
| RunLog.CallsAreShown | crates/jux-core/src/main_loop/mod.rs:1614-1627 | A response with a tool call is never an empty message, so replaying it cannot fail. |
| Prompts.ReferencesAreCarried | crates/jux-core/src/main_loop/mod.rs:1652-1656 | The shown text is the recorded one, cut at every `@{/workspace/` and glued with `@{`, and then the same for `@/workspace/` and `@`. |
| Prompts.TextIsFixed | crates/jux-core/src/main_loop/mod.rs:1652-1656 | There is only one such text, and it is the recorded one when neither reference occurs. |
| Prompts.ItemIsCarried | crates/jux-core/src/main_loop/mod.rs:1629-1686 | A text is shown as it is and a call with its ids, name and arguments, where only paths in the `args` of `exec` lose the workspace; reasoning is not shown. |
| Prompts.ChatIsCarried | crates/jux-core/src/main_loop/mod.rs:1576-1627 | The chat has exactly one message for every visible step with content, in step order; a user message carries the text, a result its ids and value, a response its texts and calls in order. |
| Prompts.MainRequestShowsSession | crates/jux-core/src/main_loop/mod.rs:1089-1135 | A main request is the system prompts of the context, then the chat of the steps, and offers the tools of the context in order. |
| Prompts.InstructionsAreInjected | crates/jux-core/src/main_loop/mod.rs:1417-1432 | The instructions are appended to the first system message, or stand in front when there is none. |
| Prompts.SkillMessagesShowSkill | crates/jux-core/src/main_loop/mod.rs:760-814 | A replayed skill prompt is the chat before the first response that holds the call, with the instructions, then the task, then one message for every response and result of the invocation, in order. |
| Prompts.ReplyIsTaken | crates/jux-core/src/main_loop/mod.rs:1521-1561 | The items of a reply are its texts, calls and non-empty reasonings, its calls are those it makes and its answer is its texts joined, each in the order of the reply. |
| Prompts.LatestQuestionMeaning | crates/jux-core/src/main_loop/mod.rs:1315-1364 | The search returns the open `human_input` call that no other open one follows, in a later step or later in its step, and nothing exactly when no question is open. |
| RunSummary.SettledMeansPaired | crates/jux-core/src/main_loop/mod.rs:181-225 | The summary has no open and no lost call exactly when every call has a result before the next response. |
| RunSummary.ResultsMeaning | crates/jux-core/src/main_loop/mod.rs:884-909 | The summary's result count says exactly that no call has two results. |
| RunSummary.LatestCallsMeaning | crates/jux-core/src/main_loop/mod.rs:560-610 | The summary's latest calls are those of the log's last response. |
| RunSummary.MisplacedMeaning | crates/jux-core/src/main_loop/mod.rs:205-222 | The summary's flag says exactly that some pausing call was not the last of its response. |
| RunInvariant.ResponseRecorded | crates/jux-core/src/main_loop/mod.rs:541-558 | Recording a response to a main request starts its calls, or pauses the run on `human_input`. |
| RunInvariant.ExplicitCallRecorded | crates/jux-core/src/main_loop/mod.rs:515-529 | Recording a response whose only call has the next requested id, whatever it calls, keeps the requested ids in request order and leaves that call to execute. |
| RunInvariant.ResultRecorded | crates/jux-core/src/main_loop/mod.rs:600-608 | Recording the result of the first open call leaves the others to execute, or the run quiet. |
| RunInvariant.SkillStartRecorded | crates/jux-core/src/main_loop/mod.rs:646-663 | A recorded start for the first open call, whatever skill and task it names, begins an empty transcript and leaves the calls open. |
| RunInvariant.SkillResponseRecorded | crates/jux-core/src/main_loop/mod.rs:697-708 | A skill's response counts one iteration and opens exactly its own tool calls. |
| RunInvariant.SkillToolRecorded | crates/jux-core/src/main_loop/mod.rs:731-754 | A skill's tool result resolves that call of the invocation and no other. |
| RunInvariant.ResumedSkillResultRecorded | crates/jux-core/src/main_loop/mod.rs:866-882 | The result of a resumed skill closes the call that had started it. |
| RunInvariant.MainAnswerRecorded | crates/jux-core/src/main_loop/mod.rs:304-318 | The answer to a main question makes the run ready for the model again. |
| RunInvariant.MainQuestionIsLast | crates/jux-core/src/main_loop/mod.rs:1315-1364 | In a log paused by the main loop the search finds the last `human_input` call of the last step; no later call of the response asks a person. |
| RunInvariant.SkillQuestionIsLast | crates/jux-core/src/main_loop/mod.rs:1315-1384 | In a log paused inside a skill it finds that skill's only call, with the invocation that was started. |
| Provenance.StartHasCall | crates/jux-core/src/main_loop/mod.rs:646-663 | For every skill start in a log there is a recorded call with its id whose arguments name its skill and its task. |
| Provenance.StartStays | crates/jux-core/src/main_loop/mod.rs:1366-1384 | The invocation found for an id in the log is found again in every longer log. |
| Provenance.RecordedOnce | crates/jux-core/src/main_loop/mod.rs:541-558 | A call id is recorded by one step only, and once in it. |
| Provenance.RequestedCallAt | crates/jux-core/src/main_loop/mod.rs:515-529 | A response that holds the k-th requested id is that one call of `call_skill`, for the k-th requested skill with the request of the run as its task. |
| Exchanges.ReplyJoinsTrace | crates/jux-core/src/main_loop/mod.rs:541-558 | Recording a reply keeps the session invariant and the record of all requests. |
| Exchanges.SkillPromptIsReady | crates/jux-core/src/main_loop/mod.rs:760-814 | For a log inside a skill the rebuilt message list exists: none of its error branches is reached. |
| Exchanges.PauseIsResumable | crates/jux-core/src/main_loop/mod.rs:717-724 | A skill paused at a question can be rebuilt from the log. |
| Exchanges.PausedPrompts | crates/jux-core/src/main_loop/mod.rs:816-864 | For the same invocation id and an unchanged skill definition, the request after an answer is for the same invocation and skill, and is the last one before it, the response that asked, and the answer under the id of the question with exactly the text given. |
| Exchanges.StartBegins | crates/jux-core/src/main_loop/mod.rs:646-663 | A start recorded for the first open call with the skill and the task of its arguments is the one the log is searched for from then on, with the configured skill of that name. |
| Exchanges.InheritedPrompt | crates/jux-core/src/main_loop/mod.rs:779-814 | A skill's request is the request answered by its call, the instructions and the task of the invocation it is recorded for, and the transcript, whatever else was recorded. |
| Exchanges.AnswersDiffer | crates/jux-core/src/main_loop/mod.rs:288-318 | Different answers to a question are recorded as different steps. |
| Exchanges.AnswersReachTheModel | crates/jux-core/src/main_loop/mod.rs:277-319 | Logs that differ only in the answer to their last question, in the main loop or in a skill, send different requests next. |
| Exchanges.SessionStepsMeaning | crates/jux-core/src/main_loop/mod.rs:1112-1122 | The steps of a session are the steps of its runs, one run after the other. |
| RunLoop.AssistantTurnFromResponse | crates/jux-core/src/main_loop/mod.rs:1521-1561 | The loop over a reply takes its texts, calls and non-empty reasonings as items, its calls and its joined text, all in the order of the reply, and refuses images. |
| RunLoop.LatestPendingHumanInput | crates/jux-core/src/main_loop/mod.rs:1315-1353 | The two passes over a log return the latest `human_input` call without an answer in the log, of the main loop or of a started skill, and nothing exactly when there is none. |
| RunLoop.ParentMessagesBeforeSkillCall | crates/jux-core/src/main_loop/mod.rs:1386-1403 | The loop returns the messages of the steps before the first that holds the call, or fails if none does. |
| RunLoop.AppendSkillTranscript | crates/jux-core/src/main_loop/mod.rs:1434-1470 | The loop appends one message per step of the invocation, and fails at an empty response. |
| RunLoop.InjectSkillInstructions | crates/jux-core/src/main_loop/mod.rs:1417-1432 | Instructions extend the first system message and no other, or become one in front. |
| RunLoop.RunLoop.BuildCompletionRequest | crates/jux-core/src/main_loop/mod.rs:1089-1135 | The request is the system prompts, then one message for every visible step with content of earlier runs and of this one, in order, each saying what its step recorded, with all tools. |
| RunLoop.RunLoop.SkillCompletionContext | crates/jux-core/src/main_loop/mod.rs:760-814 | What a subflow starts from is the replay of the log: the chat before its call, the instructions, the task and its own transcript, with every tool but `call_skill`. |
| RunLoop.RunLoop.AskInSkill | crates/jux-core/src/main_loop/mod.rs:678-708 | One skill request is recorded with its prompt and its reply, counts as one iteration, and may be cut off. |
| RunLoop.RunLoop.ExecuteSkillTools | crates/jux-core/src/main_loop/mod.rs:731-754 | A skill's calls run in order, each result is recorded and appended to the live messages, and a skill call is refused. |
| RunLoop.RunLoop.RunSkillIteration | crates/jux-core/src/main_loop/mod.rs:678-754 | One turn of a subflow goes on with the live messages still equal to the replay, or ends it as its reply demands. |
| RunLoop.RunLoop.RunSkillSubflow | crates/jux-core/src/main_loop/mod.rs:666-758 | The subflow ends in a result, a question of its last step, or a cut; it fails only by its cap of eight or by its last reply. |
| RunLoop.RunLoop.ExecuteSkillCall | crates/jux-core/src/main_loop/mod.rs:625-664 | A skill call records a start with the name and the task of its arguments and sends requests only for the configured skill of that name; bad arguments or an unknown skill record and send nothing; it fails for these or with its subflow. |
| RunLoop.RunLoop.ExecuteToolCall | crates/jux-core/src/main_loop/mod.rs:560-610 | One call ends with its result recorded, being what its tool or subflow returned or a justified error, or with the run paused. |
| RunLoop.RunLoop.ExecuteToolCalls | crates/jux-core/src/main_loop/mod.rs:215-223 | The calls of a response run one after the other, each with its result recorded as its tool or subflow returned it, until all have results or one pauses or is cut off. |
| RunLoop.RunLoop.AskInMain | crates/jux-core/src/main_loop/mod.rs:183-203 | One main request is recorded with its prompt and its reply; it stops the run only when the reply is an error, an image or a cut. |
| RunLoop.RunLoop.RunMainIteration | crates/jux-core/src/main_loop/mod.rs:177-224 | One turn makes one main request; it leaves the run ready for the next, or ends it as the reply demands. |
| RunLoop.RunLoop.ContinueRun | crates/jux-core/src/main_loop/mod.rs:176-232 | At most eight main requests, and at most eight requests beside those of skills that started; the run completes with the text of its last response, waits at a question, fails only when the model does or after exactly eight main requests, or is cut off at one. |
| RunLoop.RunLoop.RunRequestedSkills | crates/jux-core/src/main_loop/mod.rs:500-539 | The next requested skills are called in order, each for the skill at its place with the request as the task; when all are done the run is ready for the model. |
| RunLoop.RequestedCallIsSourced | crates/jux-core/src/main_loop/mod.rs:515-529 | The call made for the next requested skill is the one its place in the list demands. |
| RunLoop.RunLoop.ContinueRequestedSkills | crates/jux-core/src/main_loop/mod.rs:500-539 | The requested skills without a result run before the main loop; their calls are in request order, each for the skill at its place with the request as the task; at most eight main requests follow. |
| RunLoop.RunLoop.ResumeSubflow | crates/jux-core/src/main_loop/mod.rs:816-857 | The paused skill goes on from its replay and its count, with requests only for the configured skill of the recorded name; without such a skill nothing is recorded or sent; it fails only then or with its subflow. |
| RunLoop.RunLoop.FinishResumedSkill | crates/jux-core/src/main_loop/mod.rs:816-882 | The skill's call gets what its subflow reported, or a justified error, unless it stops again. |
| RunLoop.RunLoop.ContinueResumedSkill | crates/jux-core/src/main_loop/mod.rs:816-864 | After the resumed skill the requested skills and the main loop go on. |
| RunLoop.RunLoop.LatestWaitingRun | crates/jux-core/src/main_loop/mod.rs:234-250 | It is the last run, if that waits. |
| RunLoop.RunLoop.ResumeWaitingRun | crates/jux-core/src/main_loop/mod.rs:277-319 | A valid answer is recorded for the latest open question, under its ids, as an object with exactly the text of the answer; an invalid one changes nothing. |
| RunLoop.RunLoop.ResumeAt | crates/jux-core/src/main_loop/mod.rs:144-152 | An answered main question leads to the main loop with at most eight requests of its own, one inside a skill to that skill and then the main loop, with at most sixteen. |
| RunLoop.RunLoop.StartRun | crates/jux-core/src/main_loop/mod.rs:466-498 | A new run begins with the request and names the requested skills in the order of the request; the context is the configured system prompt and exactly the configured tools, in order, with `call_skill` when there are skills. |
| RunLoop.ConfigIsShown | crates/jux-core/src/main_loop/mod.rs:1716-1752 | A prompt over that context has the configured system prompt as its only one and offers exactly those tools. |
| RunLoop.RequestedAreCalled | crates/jux-core/src/main_loop/mod.rs:500-529 | In a log that names the requested skills, the call under the k-th explicit id is alone in its response and asks for the k-th requested skill with the request as its task. |
| RunLoop.RunLoop.CancelLatestRunningRun | crates/jux-core/src/main_loop/mod.rs:252-275 | The last run, if it is still running, is marked canceled; nothing else changes. |
| RunLoop.RunLoop.Fail | crates/jux-core/src/main_loop/mod.rs:1063-1087 | A failure is recorded as an error step and closes the run. |
| RunLoop.RunLoop.Close | crates/jux-core/src/main_loop/mod.rs:972-1026 | Completing or waiting changes the run's status; every other field, run and step is as before. |
| RunLoop.RunLoop.RunWithEvents | crates/jux-core/src/main_loop/mod.rs:138-157 | One request answers the pending question with its text if there is one, and otherwise starts a run for the skills requested with it, which are called in that order, by name and with the request as the task. |
| RunLoop.RunLoop.Run | crates/jux-core/src/main_loop/mod.rs:92-127 | Every request, canceled or not, leaves a valid session, rewrites no step, ends only for a reason in its model calls, and makes at most eight main requests; in all it makes at most 8 (resumed in a skill: 16) of its own plus 8 per skill started; it never runs `human_input` or `call_skill` as a tool; a canceled run keeps what was streamed. |
| RunLoop.AnswerRecorded | crates/jux-core/src/main_loop/mod.rs:277-319 | The recorded answer leaves a log the main loop or the paused skill can go on from. |
| RunLoop.PausedQuestion | crates/jux-core/src/main_loop/mod.rs:1315-1384 | A paused log always has a pending question, asked by its last step. |
| RunLoop.CancellationIsValid | crates/jux-core/src/main_loop/mod.rs:252-275 | A run cut off at any model call and then canceled, its streamed text kept as a checkpoint or not, leaves a valid session. |
| RunLoop.ServedKeepsHistory | crates/jux-core/src/main_loop/mod.rs:138-157 | Serving a request keeps every recorded step, the skills requested for every run, and every closed run as it was. |
| RunTheorems.EmptySessionIsValid | crates/jux-core/src/main_loop/mod.rs:67-75 | A session without runs satisfies the invariant. |
| RunTheorems.WaitingRunAsksLast | crates/jux-core/src/main_loop/mod.rs:138-157 | A waiting run is the last of its session, and its pending question is an unanswered call of its last step. |
| RunTheorems.CallsArePairedExactly | crates/jux-core/src/main_loop/mod.rs:181-225 | At every main request no call has two results, and every call has one before the next response if and only if each pausing call came last. |
| RunTheorems.UnpairedSession | crates/jux-core/src/main_loop/mod.rs:205-222 | A valid session in which the model is asked while a call beside an answered `human_input` has no result. |
| RunTheorems.SkillCapSpansPauses | crates/jux-core/src/main_loop/mod.rs:845-849 | No invocation has more than eight responses over any number of resumes. |
| RunTheorems.LiveSkillPromptEqualsReplay | crates/jux-core/src/main_loop/mod.rs:666-777 | Every prompt a skill was ever sent is the replay of the log at that moment, up to message ids: the chat before its call, the instructions, the task and the transcript, for the invocation recorded in that log and the configured skill of its name; a recorded call asked for exactly that skill and task. |
| RunTheorems.ResumeExtendsLastRequest | crates/jux-core/src/main_loop/mod.rs:816-864 | With unchanged context and skill definition, the first request after an answer is for the invocation that ran before the pause, and is the last request before it, the response that asked, and the answer with exactly the text given. |
| RunTheorems.SkillInheritsCallingRequest | crates/jux-core/src/main_loop/mod.rs:779-814 | Every request of a skill begins with the main request that called it, then the instructions of the configured skill and the task that the call names. |
| RunTheorems.RepliesAreRecorded | crates/jux-core/src/main_loop/mod.rs:198-203 | Every usable reply is the step right after the log it was asked for, with its texts, calls and non-empty reasonings in order. |
| RunTheorems.MainRequestsShowTheirSession | crates/jux-core/src/main_loop/mod.rs:1089-1135 | Every main request ever sent shows the earlier runs of its session and the log of its own run, as they were recorded. |
| RunTheorems.AnswersReachRequests | crates/jux-core/src/main_loop/mod.rs:277-319 | Two valid sessions that differ in the answer to one question send different requests after it. |
| RunTheorems.ExplicitSkillsRunOnce | crates/jux-core/src/main_loop/mod.rs:500-539 | At every main request each requested skill has exactly one call and one result, both in strict request order over any pauses; its call is a response of its own for the skill at its place with the request as the task, and a subflow started for it is for that skill and task. |
| RunTheorems.RequestedSkillsRunOnce | crates/jux-core/src/main_loop/mod.rs:500-539 | At every main request the skills requested when the run started have been called exactly once each, in the order of the request, by their own names and with the request as the task, and answered exactly once. |
| RunTheorems.RequestedStay | crates/jux-core/src/main_loop/mod.rs:482-494 | The skills requested for a run stay the same while the session goes on. |
| RunTheorems.RequestedStart | crates/jux-core/src/main_loop/mod.rs:515-529 | A skill started for the k-th requested call has the name at the k-th place and the request as its task. |
| RunTheorems.CalledByReply | crates/jux-core/src/main_loop/mod.rs:541-558 | A call of a reply that a later log knows was recorded by that reply and not before. |
| Ids.ParentOfChild | crates/jux-core/src/state/ids.rs:54-123 | Taking a child id apart gives its parent back. |
| Ids.SiblingOrder | crates/jux-core/src/state/ids.rs:71-83 | Below one million, siblings are in text order exactly when their numbers are. |
| Ids.LimitSortsEarly | crates/jux-core/src/state/ids.rs:71-83 | Number one million sorts before its predecessor. |
| Ids.SiblingsDiffer | crates/jux-core/src/state/ids.rs:71-73 | Different numbers have different ids, without any bound. |
| Ids.CousinOrder | crates/jux-core/src/state/ids.rs:100-113 | Steps are in text order exactly when they are ordered by run and then by step. |
| Ids.PrefixSelectsOwnChildren | crates/jux-core/src/state/store.rs:609-619 | A prefix selects the children of its own parent and of no other. |
| Ids.NextAfterChild | crates/jux-core/src/state/store.rs:621-632 | The number after an id is its own plus one. |
| Decimal.ParseUnsignedMeaning | crates/jux-core/src/state/store.rs:625-631 | A number is read exactly from its digits, with or without a plus sign, up to the largest one. |
| IdStore.LatestIdWithPrefix | crates/jux-core/src/state/store.rs:609-619 | The query returns the greatest id with the prefix in text order. |
| IdStore.NextNumber | crates/jux-core/src/state/store.rs:594-632 | The next number is the count plus one, and one million again once one million is reached. |
| IdStore.NumberingGrows | crates/jux-core/src/state/store.rs:594-607 | The next id is new, and numbering stays gapless for its parent and for all others. |
| IdStore.SqliteStore.CreateRun | crates/jux-core/src/state/store.rs:229-253 | A run gets the next number of its session; after one million the insert fails and changes nothing. |
| IdStore.SqliteStore.AppendStep | crates/jux-core/src/state/store.rs:255-277 | The same for the steps of a run. |
| IdStore.SqliteStore.UpdateRunStatus | crates/jux-core/src/state/store.rs:355-368 | One run's status changes, or the run is missing and nothing does. |
| IdStore.SqliteStore.LoadStepIds | crates/jux-core/src/state/store.rs:384-410 | The ordered selection below a prefix. |
| IdStore.SqliteStore.LoadRunIds | crates/jux-core/src/state/store.rs:370-382 | The ordered selection of a session's runs. |
| IdStore.OrderByIdIsAppendOrder | crates/jux-core/src/state/store.rs:398-410 | Ordering by id gives append order if and only if there are fewer than one million entries. |
| IdStore.SessionOrderIsAppendOrder | crates/jux-core/src/state/store.rs:384-396 | A table that holds exactly the numbered steps of the runs of a session, fewer than a million of each, is ordered by run, then by step. |
| IdHistory.PrefixSelectsOwnSession | crates/jux-core/src/state/store.rs:384-396 | The prefix of a session selects its own steps and none of another session. |
| IdHistory.HistoryIsNumbered | crates/jux-core/src/state/store.rs:229-277 | From the empty store, after any runs created and steps appended in any sessions, every session has its runs and the steps of each run numbered without gaps, as often as they were added, up to one million. |
| IdHistory.LoadedInRunOrder | crates/jux-core/src/state/store.rs:384-396 | After any such history, below one million of each, loading the steps of a session yields its runs one after the other, each in append order. |
| IdHistory.LoadedInAppendOrder | crates/jux-core/src/state/store.rs:384-396 | When steps are only appended to the latest run, the steps of a session are loaded in exactly the order they were appended. |
| Glob.WildcardToRegex | crates/jux-core/src/policy/match_pattern.rs:79-103 | The loop over the pattern pushes the text of the compiled fragments, or reports a dangling escape. |
| Glob.RenderedTextParses | crates/jux-core/src/policy/match_pattern.rs:79-111 | The emitted text parses back to exactly the fragments meant, by a reader that knows which characters are syntax and which may be escaped, so escaping is sufficient. |
| Glob.RegexTextMeans | crates/jux-core/src/policy/match_pattern.rs:66-77 | The emitted text accepts what its fragments accept. |
| Glob.CompilationPreservesMeaning | crates/jux-core/src/policy/match_pattern.rs:72-103 | For inputs without a newline, or patterns without `**`, the fragments accept exactly what the documented meaning accepts. |
| Glob.CompilesUnlessEscapeDangles | crates/jux-core/src/policy/match_pattern.rs:79-111 | A pattern compiles if and only if it does not end in an odd number of backslashes. |
| Glob.WildcardMeansItsDocumentation | crates/jux-core/src/policy/match_pattern.rs:14-29 | On inputs without a newline a pattern matches exactly what its documentation says. |
| Glob.FaithfulExactlyWithoutNewline | crates/jux-core/src/policy/match_pattern.rs:14-29 | An input is treated as documented by every pattern if and only if it has no newline. |
| Glob.SegmentPatternsAreFaithful | crates/jux-core/src/policy/match_pattern.rs:14-29 | Patterns without `**` are faithful on every input. |
| Glob.FullyEscapedMatchesItself | crates/jux-core/src/policy/match_pattern.rs:105-111 | A string with every character escaped matches itself and nothing else. |
| PathPolicy.NormalizePath | crates/jux-core/src/policy/wasm/filesystem.rs:334-347 | The stack loop computes the normal form. |
| PathPolicy.NormalFormsHaveOnlyNames | crates/jux-core/src/policy/wasm/filesystem.rs:334-347 | A normal form has no `.`, no `..` and no separator in a name. |
| PathPolicy.NormalizeIsIdempotent | crates/jux-core/src/policy/wasm/filesystem.rs:334-347 | Normalising the text of a normal form changes nothing. |
| PathPolicy.NormalizeBaseFirst | crates/jux-core/src/policy/wasm/filesystem.rs:69-77 | Normalising a base before joining a relative path changes nothing. |
| PathPolicy.JoinWalksOn | crates/jux-core/src/policy/wasm/filesystem.rs:69-77 | A joined relative path goes on from the base's normal form. |
| PathPolicy.RedundantSpellings | crates/jux-core/src/policy/wasm/filesystem.rs:334-347 | Doubled separators, `.` and `name/..` inside a path do not change its normal form. |
| PathPolicy.MatchesWorkdirPath | crates/jux-core/src/policy/wasm/filesystem.rs:243-253 | The first workdir above the path decides whose rest, the names that follow those of the workdir, matches or fails. |
| PathPolicy.MatchesAny | crates/jux-core/src/policy/wasm/filesystem.rs:227-241 | The first requested path that matches or fails decides. |
| PathPolicy.CollectRequestedPaths | crates/jux-core/src/policy/wasm/filesystem.rs:69-77 | An absolute path asks for itself, a relative one for its place below every workdir. |
| PathPolicy.DecidePathAccess | crates/jux-core/src/policy/wasm/filesystem.rs:53-67 | The loop over the rules computes the decision. |
| PathPolicy.FirstMatchDecides | crates/jux-core/src/policy/wasm/filesystem.rs:53-67 | The first rule that does not mismatch decides: by its error, or by whether it has every permission that the access needs; no match denies. |
| PathPolicy.Allows | crates/jux-core/src/policy/wasm/filesystem.rs:304-310 | Reading needs the read permission, writing the write permission, and both need both. |
| PathPolicy.PermissionIsNeeded | crates/jux-core/src/policy/wasm/filesystem.rs:53-67 | Without a rule with the write permission no write is allowed, and likewise for reading. |
| PathPolicy.AllowedExactly | crates/jux-core/src/policy/wasm/filesystem.rs:53-67 | For paths of one line and patterns that compile, an access is allowed if and only if the first rule that speaks of a requested path, or of its rest below a workdir, by the documented meaning of its pattern, grants it. |
| PathPolicy.SpellingsAgree | crates/jux-core/src/policy/wasm/filesystem.rs:53-77 | All spellings of an absolute path get the same decision. |
| PathPolicy.WorkdirSpellingsAgree | crates/jux-core/src/policy/wasm/filesystem.rs:227-254 | So do all spellings of the workdirs. |
| PathPolicy.OnlyWorkdirsAreAllowed | crates/jux-core/src/policy/wasm/filesystem.rs:53-77 | When no workdir normalises to the empty path, a policy of workdir rules allows only paths whose normal form is below a normalised workdir. |
| PathPolicy.StaysBelowExactly | crates/jux-core/src/policy/wasm/filesystem.rs:243-253 | Over a list of workdirs every policy of workdir rules allows only absolute paths below one of them if and only if no workdir normalises to the empty path or the root is one. |
| PathPolicy.DotWorkspaceReadsEverything | crates/jux-core/src/policy/wasm/filesystem.rs:41-46 | The read-only policy of the workdir `.` allows reading every absolute path of one line, none of which is below it. |
| SgrMouse.ButtonByteDecodes | crates/jux-cli/src/tui/terminal.rs:501-553 | The button byte made of a kind and modifiers decodes to both. |
| SgrMouse.DecodingInvertsEncoding | crates/jux-cli/src/tui/terminal.rs:488-553 | Parsing the SGR encoding of any encodable mouse event gives that event. |
| SgrMouse.ButtonByteMeaning | crates/jux-cli/src/tui/terminal.rs:523-553 | For every button byte: whether it is refused, and else which button, motion or wheel direction it names. |
| SgrMouse.DecodedIsEncodable | crates/jux-cli/src/tui/terminal.rs:488-521 | Whatever text is decoded gives an event that decodes from its own encoding. |
| SgrMouse.EncodingIsInjective | crates/jux-cli/src/tui/terminal.rs:488-521 | Different mouse events have different encodings. |
| SgrMouse.EncodingPrefixes | crates/jux-cli/src/tui/terminal.rs:472-486 | Every proper prefix of an encoding keeps the decoder buffering, and only its last character ends it. |
| EventDecoder.TerminalEventDecoder.Push | crates/jux-cli/src/tui/terminal.rs:378-409 | The new decoder state for every event and time. |
| EventDecoder.TerminalEventDecoder.Next | crates/jux-cli/src/tui/terminal.rs:412-415 | What is handed out, and the new state. |
| EventDecoder.TerminalEventDecoder.PollTimeout | crates/jux-cli/src/tui/terminal.rs:418-422 | The wait ends at the deadline and no earlier, unless the maximum cuts it short. |
| EventDecoder.TerminalEventDecoder.StartOrQueue | crates/jux-cli/src/tui/terminal.rs:424-450 | With nothing held, the event is neither lost nor reordered: exactly Escape and `[` are held, for 25 ms and no longer, and all else is ready. |
| EventDecoder.TerminalEventDecoder.FlushExpired | crates/jux-cli/src/tui/terminal.rs:452-464 | Afterwards nothing is held past its deadline, the ready and the held events are together what they were, in order, what is still held is untouched, and only a lone Escape opens the recovery window. |
| EventDecoder.TerminalEventDecoder.FlushPending | crates/jux-cli/src/tui/terminal.rs:466-469 | The Escape is queued before the keys. |
| EventDecoder.PushConserves | crates/jux-cli/src/tui/terminal.rs:378-409 | One push queues exactly what it takes from the held and the new event. |
| EventDecoder.InputIsConserved | crates/jux-cli/src/tui/terminal.rs:376-469 | For any pushes and requests at any times, what came out, each mouse event replaced by its keys, and what is held are the pushed events in order; at most 33 are held. |
| EventDecoder.NothingIsHeldPastItsDeadline | crates/jux-cli/src/tui/terminal.rs:452-464 | After every operation a held sequence has between 1 and 25 ms left. |
| EventDecoder.IsolatedEscapeIsDelayed | crates/jux-cli/src/tui/terminal.rs:412-464 | A lone Escape is handed out if and only if 25 ms have passed. |
| EventDecoder.ReportCompletes | crates/jux-cli/src/tui/terminal.rs:378-409 | From any part of a report held, pushing the rest promptly adds exactly its event, with any polling in between. |
| EventDecoder.ReportAfterEscape | crates/jux-cli/src/tui/terminal.rs:378-450 | Escape and a report with gaps under 25 ms add exactly the mouse event, from any state. |
| EventDecoder.ReportWithoutEscape | crates/jux-cli/src/tui/terminal.rs:378-450 | Without its Escape a report adds exactly its event unless other text is held; then its `[` leaks. |
| VirtualList.VirtualListState.Measure | crates/jux-cli/src/tui/ui/virtual_list.rs:59-88 | The new cache for any items, width and renderer; a position still inside the list is kept, one past the bottom goes exactly to the bottom, and a sticking one stays there. |
| VirtualList.VirtualListState.UseCachedMeasurements | crates/jux-cli/src/tui/ui/virtual_list.rs:43-57 | The position taken over is inside the list exactly when it is within the last full window, and at it if sticking; when the viewport or the list is empty, any position is cut to it. |
| VirtualList.VirtualListState.ScrollBy | crates/jux-cli/src/tui/ui/virtual_list.rs:98-108 | The position moves by exactly the amount within the list, stops at both ends, sticks exactly at the bottom, and is inside the list afterwards unless it was past the bottom and a step up did not reach it. |
| VirtualList.VirtualListState.ScrollToTop | crates/jux-cli/src/tui/ui/virtual_list.rs:110-113 | It is inside the list, and the same as scrolling up by any amount that reaches the top. |
| VirtualList.VirtualListState.ScrollToBottom | crates/jux-cli/src/tui/ui/virtual_list.rs:115-118 | It is inside the list, and the same as scrolling down by any amount that reaches the bottom. |
| VirtualList.VirtualListState.VisibleItems | crates/jux-cli/src/tui/ui/virtual_list.rs:120-160 | The visible items draw exactly the window of the full layout, each row on its own line, up to the last line a `u16` can name. |
| VirtualList.CallsStayInside | crates/jux-cli/src/tui/ui/virtual_list.rs:43-118 | From any state, exactly when each call leaves the position inside the list: measuring and jumping always, scrolling unless it stays below the bottom, a take-over when it fits; from inside, all but a take-over. |
| VirtualList.MeasuringIsFresh | crates/jux-cli/src/tui/ui/virtual_list.rs:59-88 | With a sound cache, measuring gives the heights of a full layout. |
| VirtualList.CacheRefinesFullLayout | crates/jux-cli/src/tui/ui/virtual_list.rs:43-118 | After any calls the cached heights are those of a full layout or the ones taken over since, provided no item has the largest revision or nothing is taken over; later measurements keep only right heights. |
| VirtualList.RunsStayInside | crates/jux-cli/src/tui/ui/virtual_list.rs:43-118 | After any calls the position is inside the list, and at the bottom if sticking, when every position taken over fits. |
| VirtualList.ScrollsAdd | crates/jux-cli/src/tui/ui/virtual_list.rs:98-108 | Two scrolls are one by their sum, unless the first was cut short and the second goes back. |
| VirtualList.WindowFillsViewport | crates/jux-cli/src/tui/ui/virtual_list.rs:120-160 | Inside the list the window is as tall as the viewport or the list, without gap, and ends with the last row at the bottom. |
| VirtualList.WindowIsFullExactly | crates/jux-cli/src/tui/ui/virtual_list.rs:120-160 | The window has as many rows as fit if and only if the list is empty or the position is not past the last full window. |
| VirtualList.ConversationFits | crates/jux-cli/src/tui/ui/components/conversation.rs:703-727 | Exactly when the position the conversation view takes over is inside the list: its padding counts as rows to scroll to. |
| VirtualList.ConversationLeavesGap | crates/jux-cli/src/tui/ui/components/conversation.rs:703-730 | At its end, a conversation of ten rows in a viewport of four takes over row 8, outside the list, and draws two rows. |
| VirtualList.CachedMeasurementsAreKept | crates/jux-cli/src/tui/ui/virtual_list.rs:43-57 | Exactly when measuring after a take-over gives fresh heights. |
| VirtualList.StaleHeightIsKept | crates/jux-cli/src/tui/ui/virtual_list.rs:43-88 | An item of the largest revision is measured as 3 rows, as taken over, where a full layout gives 7. |
| DistributionSlot.BlankSlot | crates/jux-core/src/distribution.rs:26-38 | The two loops leave the marker followed by zeros. |
| DistributionSlot.WriteText | crates/jux-core/src/distribution.rs:307-318 | The text replaces bytes at its offset and no others; one that does not fit or has a zero changes nothing. |
| DistributionSlot.ToSlot | crates/jux-core/src/distribution.rs:188-215 | The in-place writes produce the fields one after the other, each padded with zeros, or the first error. |
| DistributionSlot.PairsAreDetermined | crates/jux-core/src/distribution.rs:274-295 | An installer belongs to exactly one channel, every channel has an installer, and package ids tell channels apart. |
| DistributionSlot.CommitMeaning | crates/jux-core/src/distribution.rs:297-305 | Valid commits are the hexadecimal numerals of at most 40 digits, in either case. |
| DistributionSlot.SlotReadsBack | crates/jux-core/src/distribution.rs:157-186 | A written slot reads back as the same metadata if and only if its version and commit are valid. |
| DistributionSlot.OddCommitIsWritten | crates/jux-core/src/distribution.rs:157-215 | With any version that can be written, a commit `z` is written by `to_slot`, and refused by `new` and by reading. |
| DistributionSlot.NewRoundTrips | crates/jux-core/src/distribution.rs:122-144 | Metadata built by `new` can be written and reads back as itself. |
| DistributionSlot.ReadMetadataCanBeWritten | crates/jux-core/src/distribution.rs:157-215 | Metadata read from a branded slot can be written, and then reads the same. |
| DistributionSlot.FindSlotMeaning | crates/jux-core/src/distribution.rs:241-254 | An offset is found if and only if it is the only one where a marker begins. |
| DistributionSlot.InjectDistributionMetadata | crates/jux-core/src/distribution.rs:222-239 | The output is the input with the slot overwritten in place, or the first error. |
| DistributionSlot.ShiftedMarkerDiffers | crates/jux-core/src/distribution.rs:266-272 | A marker moved by any distance over a written slot meets a differing byte. |
| DistributionSlot.NoSecondMarker | crates/jux-core/src/distribution.rs:241-272 | After injection no marker begins at any other offset, for any metadata that can be written. |
| DistributionSlot.InjectionWritesTheSlot | crates/jux-core/src/distribution.rs:222-239 | Injection changes the 1024 slot bytes only and leaves exactly one slot, at the same offset, with the new fields. |
| DistributionSlot.InjectedMetadataReadsBack | crates/jux-core/src/distribution.rs:157-239 | The injected slot reads back as the metadata injected. |
| DistributionSlot.LastInjectionWins | crates/jux-core/src/distribution.rs:222-239 | Injecting twice is injecting the second metadata alone. |
| JsoncStrip.StripJsoncComments | crates/jux-core/src/config/mod.rs:754-805 | The loop with its string state computes the stripped text or the error. |
| JsoncStrip.ConsumeLineComment | crates/jux-core/src/config/mod.rs:807-818 | A line comment is consumed through its newline, which is kept. |
| JsoncStrip.ConsumeBlockComment | crates/jux-core/src/config/mod.rs:820-833 | A block comment is consumed through its first closing pair, the opening star not counted. |
| JsoncStrip.StripTokens | crates/jux-core/src/config/mod.rs:754-833 | For every sequence of tokens of the grammar, stripping its text gives exactly what the tokens keep. |
| JsoncStrip.StripsExactlyTheComments | crates/jux-core/src/config/mod.rs:754-833 | Every input has such tokens; stripping removes precisely the comments, or fails exactly when a block comment is never closed. |
| JsoncStrip.StrippingIsIdempotent | crates/jux-core/src/config/mod.rs:754-763 | Stripping the output again returns it unchanged. |
| ShrinkWidths.LastMaximum | crates/jux-cli/src/tui/ui/components/markdown.rs:436-438 | The column taken from is the last of the widest. |
| ShrinkWidths.LevelDrops | crates/jux-cli/src/tui/ui/components/markdown.rs:435-443 | Taking one from it keeps the columns level. |
| ShrinkWidths.ShrinkWidths | crates/jux-cli/src/tui/ui/components/markdown.rs:433-444 | The columns end level; if any shrank the table fits exactly, or every width is at most 3 and one is 3, and none below 3 shrank. |
| ShrinkWidths.LevelingIsDetermined | crates/jux-cli/src/tui/ui/components/markdown.rs:433-444 | Levelled columns are decided by their total. |
| ShrinkWidths.ShrinkingIsDetermined | crates/jux-cli/src/tui/ui/components/markdown.rs:433-444 | The stated result is the only one there is. |
| ShrinkWidths.TableBorder | crates/jux-cli/src/tui/ui/components/markdown.rs:446-458 | A border line is exactly as wide as the width that the columns are shrunk for, with its corners at both ends. |
| CodeChange.CodeChangeReview.Approve | crates/jux-core/src/code_change/mod.rs:62-71 | It succeeds if and only if the review is pending and not denied, and only then becomes approved; a decided review is refused as such, before the policy is looked at; a failure changes nothing. |
| CodeChange.CodeChangeReview.Reject | crates/jux-core/src/code_change/mod.rs:73-79 | It succeeds if and only if the review is pending, and then refuses it; a failure changes nothing. |
| CodeChange.CodeChangeReview.RequestChanges | crates/jux-core/src/code_change/mod.rs:81-87 | It succeeds if and only if the review is pending, and then refuses it with the feedback; a failure changes nothing. |
| CodeChange.OneDecision | crates/jux-core/src/code_change/mod.rs:62-87 | Over any calls and edits at most one decision is ever accepted. |
| CodeChange.RefusalIsFinal | crates/jux-core/src/code_change/mod.rs:73-87 | After a rejection or a request for changes the status stays as it is and nothing is applied any more, whatever is called. |
| CodeChange.CodeChangeReview.Apply | crates/jux-core/src/code_change/mod.rs:89-123 | An approved review applies exactly when every listed file, found by its normal form, has its recorded content; then each gets its last listed content and no other file changes, and otherwise nothing is written. |
| CodeChange.KeyOf | crates/jux-core/src/code_change/mod.rs:178-211 | A path leads to the names of its normal form. |
| CodeChange.SameFileExactly | crates/jux-core/src/code_change/mod.rs:178-211 | Two paths name one file if and only if they have one normal form. |
| CodeChange.NoConflicts | crates/jux-core/src/code_change/mod.rs:93-108 | There is no conflict if and only if every listed file has its recorded content. |
| CodeChange.ConflictsHaveChanged | crates/jux-core/src/code_change/mod.rs:93-113 | Every path of a conflict names a listed file that has changed. |
| CodeChange.WrittenMeaning | crates/jux-core/src/code_change/mod.rs:114-121 | The file at the normal form of each listed path has its last listed content, and every other file is untouched. |
| CodeChange.WritesAtMostOnceAfterApproval | crates/jux-core/src/code_change/mod.rs:62-123 | Over any calls with edits between them a review writes at most once, after an approval that was not denied, with every original in place. |
| CodeChange.OtherCallsWriteNothing | crates/jux-core/src/code_change/mod.rs:62-123 | No other call changes a file. |
| CodeChange.AppliesUnlessChanged | crates/jux-core/src/code_change/mod.rs:89-123 | An approved review applies if and only if nothing it lists has changed; otherwise it is closed as a conflict. |
| CodeChange.PreparedFiles | crates/jux-core/src/code_change/mod.rs:137-211 | A proposal is made if and only if every path consists of names, and records each file's content. |
| CodeChange.SensitivePathMeaning | crates/jux-core/src/code_change/mod.rs:299-314 | A path is sensitive if and only if, ignoring case, its file name is or a piece before a separator is `.ssh` or `.aws`. |
| CodeChange.SensitiveNameMeaning | crates/jux-core/src/code_change/mod.rs:299-314 | The names that are sensitive, by what they begin with, end in or hold. |
| CodeChange.CaseDoesNotMatter | crates/jux-core/src/code_change/mod.rs:299-314 | Changing the case of ASCII letters never changes whether a path is sensitive. |
| CodeChange.SensitiveFilesAreRecognised | crates/jux-core/src/code_change/mod.rs:299-314 | No spelling of a path hides a sensitive file. |
| CodeChange.SensitiveFilesAreNeverWritten | crates/jux-core/src/code_change/mod.rs:137-166 | A prepared proposal that lists a sensitive file never writes, whatever is called. |
| CodeChange.PreparedChangesApply | crates/jux-core/src/code_change/mod.rs:62-193 | Prepared, approved and applied without edits between, a change is written. |

## Left out

- The language model, its transport, streaming and token usage: `Provider` answers arbitrarily, or cuts the call off.
- Tools: their results are arbitrary text; the JSON of a result is not modelled.
- `validate_human_input`: a parameter decides whether an answer is accepted.
- Store I/O errors, the missing workspace and the refresh of session context before a run.
- In `RunLoop`, several sessions and switching between them; session creation, which numbers by count, and deletion.
- A process that dies and leaves a run marked as running; cancellation before a request's first model call.
- Events, timestamps, tracing and the texts of messages shown to a person.
- Overflow of `usize` and `u64`, where counts stay far below.
- `IdStore` keeps ids and statuses in maps and takes `like 'prefix%'` as a prefix test, which holds for workspace ids in
  hexadecimal; payload encoding is not modelled.
- Patterns of kind `Regex`, and the regex engine beyond the fragments a wildcard emits: `PathPolicy` takes the engine as
  a parameter.
- Windows path prefixes and separators other than `\` in matched text.
- `Renderer` in `VirtualList` is a function of item and width; a renderer with state of its own is not modelled, nor
  is drawing itself.
- UTF-8 validity, `semver` and the package version are parameters of `DistributionSlot`; reading, copying and patching
  a file are one update of its bytes.
- JSON parsing after comments are stripped.
- The rest of the Markdown renderer: widths of text, cells and rows.
- Diffs, risk levels and reasons of a code change; I/O errors while it is checked or written, which could leave a part
  of it written; deserialised reviews that do not begin as pending.
- HTTP rules, capabilities, native policy, skill discovery, updates, the clipboard and all other user interface.
