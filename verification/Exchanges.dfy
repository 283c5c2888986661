// The session state and the record of every request the model has received.
module Exchanges {
  import opened Prelude
  import opened RunModel
  import opened RunLog
  import opened Prompts
  import opened RunSummary
  import opened RunInvariant
  import opened Provenance

  datatype Target = MainLoop | SkillLoop(invocation: SkillInvocation, skill: Skill)

  /** One model call, with the configured skills and what was persisted when it was made. */
  datatype Exchange = Exchange(run: nat, target: Target, skills: seq<Skill>, context: seq<ContextItem>,
                               prior: seq<Step>, log: seq<Step>, request: Request, reply: ModelReply)

  datatype ToolRun = ToolRun(name: string, arguments: Json, result: Result<Json, string>)

  /** All steps of a session in the order of their ids. */
  function SessionSteps(runs: seq<RunRecord>): seq<Step> {
    if runs == [] then [] else SessionSteps(runs[..|runs| - 1]) + runs[|runs| - 1].steps
  }

  function StepsOf(runs: seq<RunRecord>): (steps: seq<seq<Step>>)
    ensures |steps| == |runs| && forall r :: 0 <= r < |runs| ==> steps[r] == runs[r].steps
  {
    seq(|runs|, r requires 0 <= r < |runs| => runs[r].steps)
  }

  lemma {:induction false} SessionStepsMeaning(runs: seq<RunRecord>)
    ensures SessionSteps(runs) == Concat(StepsOf(runs))
  {
    if runs != [] {
      var n := |runs| - 1;
      SessionStepsMeaning(runs[..n]);
      ConcatSnoc(StepsOf(runs[..n]), runs[n].steps);
      assert StepsOf(runs) == StepsOf(runs[..n]) + [runs[n].steps];
    }
  }

  /** The log has started this invocation, and its skill is the configured one of that name. */
  predicate Serves(log: seq<Step>, skills: seq<Skill>, invocation: SkillInvocation, skill: Skill) {
    InvocationStarted(log, invocation.id) == Some(invocation) && FindSkill(skills, invocation.skillName) == Some(skill)
  }

  /**
   * The request is what the persisted log determines: a main request is the projection of the
   * visible steps, made when every call is accounted for; a skill request is the replay of the
   * transcript, up to assistant message ids, for the invocation that the log says was started
   * and the configured skill of its name.
   */
  ghost predicate PromptOk(e: Exchange) {
    match e.target
    case MainLoop =>
      ReadyForModel(e.log) && e.request == MainRequest(e.context, e.prior + e.log)
    case SkillLoop(invocation, skill) =>
      var replay := SkillMessages(e.context, e.prior, e.log, e.run, invocation, skill);
      && InSkill(e.log, invocation.id)
      && Serves(e.log, e.skills, invocation, skill)
      && CountResponses(e.log, invocation.id) < MAX_LOOP_ITERATIONS
      && replay.Ok?
      && EraseIds(e.request.messages) == EraseIds(replay.value)
      && e.request.tools == SkillTools(e.context)
  }

  /** The step that records a usable reply. */
  function ResponseStep(run: nat, target: Target, reply: ModelReply): Step
    requires Usable(reply)
  {
    var items := ItemsOf(reply.choice);
    match target
    case MainLoop => Step(run, AssistantResponseKind, AssistantResponse(reply.messageId, items))
    case SkillLoop(invocation, _) =>
      Step(run, SkillExecutionKind, SkillAssistantResponse(invocation.id, reply.messageId, items))
  }

  /**
   * Earlier runs are as they were at the call, and the log still extends what was persisted
   * then, first of all by the reply itself. The requested skills were known.
   */
  ghost predicate RecordedIn(e: Exchange, runs: seq<RunRecord>) {
    && e.run < |runs|
    && e.prior == SessionSteps(runs[..e.run])
    && e.log <= runs[e.run].steps
    && RequestedSkillNames(e.log) == RequestedSkillNames(runs[e.run].steps)
    && (Usable(e.reply) ==>
          e.log + [ResponseStep(e.run, e.target, e.reply)] <= runs[e.run].steps)
  }

  ghost predicate TraceOk(exchanges: seq<Exchange>, runs: seq<RunRecord>) {
    forall e :: e in exchanges ==> PromptOk(e) && RecordedIn(e, runs)
  }

  predicate Final(status: RunStatus) {
    status == Completed || status == Failed || status == Canceled
  }

  /** The steps of run `r` are labelled by it and start with its request. */
  predicate Written(r: nat, record: RunRecord) {
    && record.steps != []
    && record.steps[0].payload == UserMessage(record.request)
    && forall s :: s in record.steps ==> s.run == r && s.kind == KindOf(s.payload)
  }

  ghost predicate SessionOk(runs: seq<RunRecord>) {
    && (forall r :: 0 <= r < |runs| ==>
          Written(r, runs[r]) && LogOk(runs[r].steps) && Sourced(runs[r].steps, runs[r].request))
    && (forall r :: 0 <= r < |runs| - 1 ==> Final(runs[r].status))
  }

  /** The run stopped at a question of its last step. */
  ghost predicate Paused(steps: seq<Step>) {
    || PausedMain(steps)
    || (steps != [] && steps[|steps| - 1].payload.SkillAssistantResponse? &&
        PausedSkill(steps, steps[|steps| - 1].payload.invocationId))
  }

  /** Every state a caller can observe between two `run` calls. */
  ghost predicate SessionValid(runs: seq<RunRecord>, exchanges: seq<Exchange>) {
    && SessionOk(runs)
    && TraceOk(exchanges, runs)
    && (forall r :: 0 <= r < |runs| ==> runs[r].status != Running)
    && (runs != [] && runs[|runs| - 1].status == WaitingForHumanInput ==> Paused(runs[|runs| - 1].steps))
  }

  /** Only the last run may have changed, and its steps only by appending; the skills it requests stay as they are. */
  ghost predicate Grew(before: seq<RunRecord>, after: seq<RunRecord>, run: nat) {
    && run + 1 == |before| == |after|
    && after[..run] == before[..run]
    && after[run].request == before[run].request
    && before[run].steps <= after[run].steps
    && RequestedSkillNames(after[run].steps) == RequestedSkillNames(before[run].steps)
  }

  function Appended(runs: seq<RunRecord>, run: nat, step: Step): seq<RunRecord>
    requires run < |runs|
  {
    runs[run := runs[run].(steps := runs[run].steps + [step])]
  }

  lemma {:induction false} GrewTransitive(a: seq<RunRecord>, b: seq<RunRecord>, c: seq<RunRecord>, run: nat)
    requires Grew(a, b, run) && Grew(b, c, run)
    ensures Grew(a, c, run)
  {
  }

  /** Growth never invalidates what was recorded about earlier calls. */
  lemma {:induction false} TraceSurvivesGrowth(exchanges: seq<Exchange>, before: seq<RunRecord>, after: seq<RunRecord>, run: nat)
    requires TraceOk(exchanges, before) && Grew(before, after, run)
    ensures TraceOk(exchanges, after)
  {
    forall e | e in exchanges
      ensures RecordedIn(e, after)
    {
      if e.run < run {
        assert after[e.run] == after[..run][e.run] == before[..run][e.run] == before[e.run];
      }
      assert after[..e.run] == after[..run][..e.run] == before[..run][..e.run] == before[..e.run];
    }
  }

  lemma {:induction false} SessionSurvivesStep(exchanges: seq<Exchange>, runs: seq<RunRecord>, run: nat, step: Step)
    requires SessionOk(runs) && TraceOk(exchanges, runs)
    requires run + 1 == |runs|
    requires step.run == run && step.kind == KindOf(step.payload) && !step.payload.SkillsRequested?
    requires LogOk(runs[run].steps + [step]) && StepSourced(runs[run].steps, runs[run].request, step)
    ensures SessionOk(Appended(runs, run, step))
    ensures TraceOk(exchanges, Appended(runs, run, step))
    ensures Grew(runs, Appended(runs, run, step), run)
  {
    hide LogOk;
    hide PromptOk;
    hide StepSourced;
    var after := Appended(runs, run, step);
    assert after[..run] == runs[..run];
    NamesSnoc(runs[run].steps, step);
    TraceSurvivesGrowth(exchanges, runs, after, run);
    SourcedSnoc(runs[run].steps, step, runs[run].request);
    hide Sourced;
    assert Written(run, after[run]);
  }

  lemma {:induction false} SessionSurvivesStatus(exchanges: seq<Exchange>, runs: seq<RunRecord>, run: nat, status: RunStatus)
    requires SessionOk(runs) && TraceOk(exchanges, runs)
    requires run + 1 == |runs|
    ensures var after := runs[run := runs[run].(status := status)];
            SessionOk(after) && TraceOk(exchanges, after) && Grew(runs, after, run)
  {
    hide LogOk;
    hide PromptOk;
    hide Sourced;
    var after := runs[run := runs[run].(status := status)];
    assert after[..run] == runs[..run];
    TraceSurvivesGrowth(exchanges, runs, after, run);
    assert Written(run, after[run]);
  }

  /** A usable reply joins the trace together with the step that records it. */
  lemma {:induction false} ReplyJoinsTrace(exchanges: seq<Exchange>, e: Exchange, runs: seq<RunRecord>, run: nat)
    requires SessionOk(runs) && TraceOk(exchanges, runs)
    requires run + 1 == |runs| && e.run == run && e.log == runs[run].steps && e.prior == SessionSteps(runs[..run]) && PromptOk(e)
    requires Usable(e.reply)
    requires LogOk(e.log + [ResponseStep(run, e.target, e.reply)])
    requires StepSourced(e.log, runs[run].request, ResponseStep(run, e.target, e.reply))
    ensures var after := Appended(runs, run, ResponseStep(run, e.target, e.reply));
            SessionOk(after) && TraceOk(exchanges + [e], after) && Grew(runs, after, run)
  {
    hide LogOk;
    hide PromptOk;
    hide StepSourced;
    hide Sourced;
    SessionSurvivesStep(exchanges, runs, run, ResponseStep(run, e.target, e.reply));
    hide SessionOk;
  }

  /** A reply with new calls is accounted for. */
  lemma {:induction false} ReplyIsSourced(log: seq<Step>, request: string, run: nat, target: Target, reply: ModelReply)
    requires Usable(reply) && FreshReply(reply, Summarize(log).taken) && LogOk(log)
    ensures StepSourced(log, request, ResponseStep(run, target, reply))
  {
    hide Summarize;
    hide Calls;
    hide ItemsOf;
    hide IsExplicitId;
  }

  /** A reply that cannot be recorded leaves no step. */
  lemma {:induction false} UnusableReplyJoinsTrace(exchanges: seq<Exchange>, e: Exchange, runs: seq<RunRecord>, run: nat)
    requires TraceOk(exchanges, runs)
    requires run + 1 == |runs| && e.run == run && e.log == runs[run].steps && e.prior == SessionSteps(runs[..run]) && PromptOk(e)
    requires !Usable(e.reply)
    ensures TraceOk(exchanges + [e], runs)
  {
  }

  lemma {:induction false} RecordedStep(steps: seq<Step>, id: string) returns (k: nat)
    requires id in Summarize(steps).recorded
    ensures k < |steps| && ContainsToolCall(steps[k], id)
  {
    var front := steps[..|steps| - 1];
    if id in Summarize(front).recorded {
      k := RecordedStep(front, id);
      assert front[k] == steps[k];
    } else {
      k := |steps| - 1;
      assert id in IdSet(Calls(steps[k].payload.items));
    }
  }

  lemma {:induction false} TranscriptBeforeResponses(steps: seq<Step>, id: string)
    requires CountResponses(steps, id) == 0
    ensures Transcript(steps, id).Ok?
  {
    if steps != [] {
      TranscriptBeforeResponses(steps[..|steps| - 1], id);
    }
  }

  /** Rebuilding a skill prompt cannot fail: the call is found and no response is empty. */
  lemma {:induction false} SkillPromptExists(context: seq<ContextItem>, prior: seq<Step>, record: RunRecord, run: nat,
                                             invocation: SkillInvocation, skill: Skill)
    requires Written(run, record)
    requires invocation.id in Summarize(record.steps).recorded
    requires Transcript(record.steps, invocation.id).Ok?
    ensures SkillMessages(context, prior, record.steps, run, invocation, skill).Ok?
    ensures SkillMessages(context, prior, record.steps, run, invocation, skill).value != []
  {
    var k := RecordedStep(record.steps, invocation.id);
    var all := prior + record.steps;
    assert all[|prior| + k] == record.steps[k];
    assert record.steps[k] in record.steps;
  }

  lemma {:induction false} ChatIsNotEmpty(steps: seq<Step>, k: nat)
    requires k < |steps| && steps[k].payload.UserMessage? && steps[k].kind == UserMessageKind
    ensures Chat(steps) != []
  {
    if k < |steps| - 1 {
      ChatIsNotEmpty(steps[..|steps| - 1], k);
    }
  }

  lemma {:induction false} MainPromptExists(context: seq<ContextItem>, runs: seq<RunRecord>)
    requires runs != [] && Written(|runs| - 1, runs[|runs| - 1])
    ensures MainRequest(context, SessionSteps(runs)).messages != []
  {
    var prior, last := SessionSteps(runs[..|runs| - 1]), runs[|runs| - 1].steps;
    assert (prior + last)[|prior|] == last[0] && last[0] in last;
    ChatIsNotEmpty(prior + last, |prior|);
  }

  lemma {:induction false} EraseConcat(a: seq<Message>, b: seq<Message>)
    ensures EraseIds(a + b) == EraseIds(a) + EraseIds(b)
  {
  }

  /** `messages` is what the log replays to, up to assistant message ids. */
  ghost predicate ReplayOf(context: seq<ContextItem>, prior: seq<Step>, steps: seq<Step>, run: nat,
                           invocation: SkillInvocation, skill: Skill, messages: seq<Message>)
  {
    var replay := SkillMessages(context, prior, steps, run, invocation, skill);
    replay.Ok? && EraseIds(messages) == EraseIds(replay.value) && messages != []
  }

  /** Recording a step and pushing its message keep the live list equal to the replay. */
  lemma {:induction false} ReplayExtends(context: seq<ContextItem>, prior: seq<Step>, steps: seq<Step>, step: Step, run: nat,
                      invocation: SkillInvocation, skill: Skill, messages: seq<Message>, recorded: Message, live: Message)
    requires ReplayOf(context, prior, steps, run, invocation, skill, messages)
    requires TranscriptEntry(step, invocation.id) == Ok([recorded])
    requires EraseId(recorded) == EraseId(live)
    ensures ReplayOf(context, prior, steps + [step], run, invocation, skill, messages + [live])
  {
    SkillMessagesSnoc(context, prior, steps, step, run, invocation, skill);
    var replay := SkillMessages(context, prior, steps, run, invocation, skill).value;
    EraseConcat(messages, [live]);
    EraseConcat(replay, [recorded]);
    assert EraseIds([live]) == EraseIds([recorded]);
  }

  predicate ToolRanFor(toolRun: ToolRun, step: Step, call: ToolCall, id: string) {
    && toolRun.name == call.name
    && toolRun.arguments == call.arguments
    && step.payload.SkillToolResult? && step.payload.invocationId == id
    && step.payload.id == call.id && step.payload.callId == call.callId
    && IsToolContent(toolRun.result, step.payload.result)
  }

  /** Every call ran once, in order, and its output was recorded under its id. */
  predicate ToolsRan(toolRuns: seq<ToolRun>, steps: seq<Step>, calls: seq<ToolCall>, id: string) {
    |toolRuns| == |steps| == |calls| && forall k :: 0 <= k < |calls| ==> ToolRanFor(toolRuns[k], steps[k], calls[k], id)
  }

  /** A tool's output is recorded as it is, its failure as an error. */
  predicate IsToolContent(result: Result<Json, string>, content: Json) {
    match result
    case Ok(output) => content == output
    case Err(message) => IsError(content, message)
  }

  function ToolContent(result: Result<Json, string>): (content: Json)
    ensures IsToolContent(result, content)
  {
    match result
    case Ok(output) => output
    case Err(message) => ErrorJson(message)
  }

  /** A live list that equals its replay is an acceptable skill prompt. */
  lemma {:induction false} ReplayIsPrompt(e: Exchange, invocation: SkillInvocation, skill: Skill)
    requires e.target == SkillLoop(invocation, skill) && Serves(e.log, e.skills, invocation, skill)
    requires InSkill(e.log, invocation.id) && CountResponses(e.log, invocation.id) < MAX_LOOP_ITERATIONS
    requires ReplayOf(e.context, e.prior, e.log, e.run, invocation, skill, e.request.messages)
    requires e.request.tools == SkillTools(e.context)
    ensures PromptOk(e)
  {
  }

  /** A subflow that stops at a question can be rebuilt from the log. */
  lemma {:induction false} PauseIsResumable(context: seq<ContextItem>, prior: seq<Step>, steps: seq<Step>, run: nat,
                                            invocation: SkillInvocation, skill: Skill, messages: seq<Message>)
    requires ReplayOf(context, prior, steps, run, invocation, skill, messages)
    ensures Transcript(steps, invocation.id).Ok?
  {
  }

  /** The prompt of a subflow whose transcript is readable can be built and starts from the log. */
  lemma {:induction false} SkillPromptIsReady(context: seq<ContextItem>, prior: seq<Step>, runs: seq<RunRecord>, run: nat,
                                              invocation: SkillInvocation, skill: Skill)
    requires run + 1 == |runs| && SessionOk(runs)
    requires InSkill(runs[run].steps, invocation.id)
    requires Transcript(runs[run].steps, invocation.id).Ok? || CountResponses(runs[run].steps, invocation.id) == 0
    ensures var replay := SkillMessages(context, prior, runs[run].steps, run, invocation, skill);
            replay.Ok? && ReplayOf(context, prior, runs[run].steps, run, invocation, skill, replay.value)
  {
    if CountResponses(runs[run].steps, invocation.id) == 0 {
      TranscriptBeforeResponses(runs[run].steps, invocation.id);
    }
    SkillPromptExists(context, prior, runs[run], run, invocation, skill);
  }

  /** A subflow that does not pause leaves the other calls of its response as they were. */
  lemma {:induction false} SubflowLeavesCalls(u: Summary, v: Summary, w: Summary, rest: seq<ToolCall>)
    requires rest != [] && CallsLeft(u, rest) && u.open <= u.taken
    requires v == AbsorbStart(u, rest[0].id)
    requires SameLedger(v, w) && MentionsOnlyNew(v, w, rest[0].id)
    ensures CallsLeft(w, rest)
  {
  }

  /** Everything the store and the provider hold at one moment. */
  datatype Snapshot = Snapshot(runs: seq<RunRecord>, context: seq<ContextItem>, exchanges: seq<Exchange>, toolRuns: seq<ToolRun>)

  /** What ran since are tools: questions and skill calls are never handed to one. */
  predicate ToolsOnly(toolRuns: seq<ToolRun>, since: nat) {
    forall k :: since <= k < |toolRuns| ==> IsTool(toolRuns[k])
  }

  predicate IsTool(toolRun: ToolRun) {
    toolRun.name != "human_input" && toolRun.name != "call_skill"
  }

  /** Only the log of the last run and the two traces moved, and only forward. */
  ghost predicate Advanced(before: Snapshot, after: Snapshot, run: nat) {
    && Grew(before.runs, after.runs, run)
    && after.context == before.context
    && before.exchanges <= after.exchanges
    && before.toolRuns <= after.toolRuns
    && ToolsOnly(after.toolRuns, |before.toolRuns|)
  }

  lemma {:induction false} AdvancedTransitive(a: Snapshot, b: Snapshot, c: Snapshot, run: nat)
    requires Advanced(a, b, run) && Advanced(b, c, run)
    ensures Advanced(a, c, run)
  {
    GrewTransitive(a.runs, b.runs, c.runs, run);
  }

  lemma {:induction false} StillServes(a: Snapshot, b: Snapshot, run: nat, skills: seq<Skill>, invocation: SkillInvocation, skill: Skill)
    requires Advanced(a, b, run) && Serves(a.runs[run].steps, skills, invocation, skill)
    ensures Serves(b.runs[run].steps, skills, invocation, skill)
  {
    StartStaysIn(a.runs[run].steps, b.runs[run].steps, invocation.id);
  }

  /** A skill's start is accounted for by its call, and makes it the running invocation. */
  lemma {:induction false} StartBegins(steps: seq<Step>, rest: seq<ToolCall>, step: Step, request: string, skills: seq<Skill>,
                                       invocation: SkillInvocation, skill: Skill)
    requires rest != [] && Executing(steps, rest) && HasCall(steps, rest[0]) && AsksFor(rest[0], invocation)
    requires FindSkill(skills, invocation.skillName) == Some(skill)
    requires step.payload == SkillStarted(invocation.id, invocation.callId, invocation.skillName, invocation.task)
    ensures StepSourced(steps, request, step)
    ensures Serves(steps + [step], skills, invocation, skill)
  {
    hide CallsLeft;
    hide HasCall;
    hide AsksFor;
    assert invocation.id !in Summarize(steps).started by {
      assert AsksFor(rest[0], invocation) ==> rest[0].id == invocation.id by { AsksForId(rest[0], invocation); }
    }
    NotStarted(steps, invocation.id);
    StartIsFound(steps, step, invocation);
    hide Summarize;
  }

  lemma {:induction false} AsksForId(call: ToolCall, invocation: SkillInvocation)
    requires AsksFor(call, invocation)
    ensures call.id == invocation.id
  {
  }

  lemma {:induction false} HasCallStays(a: Snapshot, b: Snapshot, run: nat, call: ToolCall)
    requires Advanced(a, b, run) && HasCall(a.runs[run].steps, call)
    ensures HasCall(b.runs[run].steps, call)
  {
    hide HoldsCall;
    var i :| 0 <= i < |a.runs[run].steps| && HoldsCall(a.runs[run].steps[i], call);
    assert b.runs[run].steps[i] == a.runs[run].steps[i];
  }

  /** Every model call since then was made for this invocation and this skill. */
  predicate AskedFor(exchanges: seq<Exchange>, since: nat, skills: seq<Skill>, invocation: SkillInvocation, skill: Skill) {
    && since <= |exchanges|
    && forall k :: since <= k < |exchanges| ==>
         exchanges[k].target == SkillLoop(invocation, skill) && exchanges[k].skills == skills
  }

  lemma {:induction false} AskedForOn(b: Snapshot, c: Snapshot, run: nat, since: nat, skills: seq<Skill>, invocation: SkillInvocation, skill: Skill)
    requires Advanced(b, c, run)
    requires AskedFor(b.exchanges, since, skills, invocation, skill)
    requires AskedFor(c.exchanges, |b.exchanges|, skills, invocation, skill)
    ensures AskedFor(c.exchanges, since, skills, invocation, skill)
  {
  }

  lemma {:induction false} AdvancedReflexive(a: Snapshot, run: nat)
    requires run + 1 == |a.runs|
    ensures Advanced(a, a, run)
  {
  }

  lemma {:induction false} AdvancedByTool(a: Snapshot, b: Snapshot, c: Snapshot, run: nat, toolRun: ToolRun)
    requires Advanced(a, b, run) && c == b.(toolRuns := b.toolRuns + [toolRun]) && IsTool(toolRun)
    ensures Advanced(a, c, run)
  {
  }

  lemma {:induction false} AdvancedByCall(a: Snapshot, c: Snapshot, run: nat, e: Exchange, runs: seq<RunRecord>)
    requires run + 1 == |a.runs|
    requires c == Snapshot(runs, a.context, a.exchanges + [e], a.toolRuns)
    requires runs == a.runs || Grew(a.runs, runs, run)
    ensures Advanced(a, c, run)
  {
  }

  lemma {:induction false} CurrentRunIsWritten(runs: seq<RunRecord>, run: nat)
    requires SessionOk(runs) && run < |runs|
    ensures Written(run, runs[run]) && LogOk(runs[run].steps) && Sourced(runs[run].steps, runs[run].request)
  {
  }

  lemma {:induction false} MainPromptIsOk(e: Exchange)
    requires e.target == MainLoop && ReadyForModel(e.log)
    requires e.request == MainRequest(e.context, e.prior + e.log)
    ensures PromptOk(e)
  {
  }

  lemma {:induction false} SkillPauseIsPause(steps: seq<Step>, id: string)
    requires PausedSkill(steps, id)
    ensures Paused(steps)
  {
  }

  /** How a `run` call ends. `Interrupted` leaves the run to the cancellation handler. */
  datatype Outcome =
    | Answer(answer: string)
    | Question
    | Failure(message: string)
    | InvalidAnswer(message: string)
    | Interrupted

  /** Run `run` is the last of the session and being executed. */
  ghost predicate Executes(s: Snapshot, run: nat) {
    && run + 1 == |s.runs|
    && s.runs[run].status == Running
    && SessionOk(s.runs)
    && TraceOk(s.exchanges, s.runs)
  }

  /** The state a finished execution leaves behind, by the way it ended. */
  ghost predicate Ended(s: Snapshot, run: nat, outcome: Outcome) {
    && run + 1 == |s.runs|
    && SessionOk(s.runs)
    && TraceOk(s.exchanges, s.runs)
    && s.runs[run].steps != []
    && var steps, status := s.runs[run].steps, s.runs[run].status;
       var last := steps[|steps| - 1].payload;
       match outcome
       case Answer(answer) =>
         status == Completed && last.AssistantResponse? && Calls(last.items) == [] && answer == TextOf(last.items)
       case Question => status == WaitingForHumanInput && Paused(steps)
       case Failure(message) => status == Failed && last == Error(message)
       case InvalidAnswer(_) => false
       case Interrupted => status == Running
  }

  function Started(s: Snapshot, run: nat): nat
    requires run < |s.runs|
  {
    Summarize(s.runs[run].steps).startCount
  }

  /**
   * The execution moved forward with at most `own` model calls, plus eight for every skill
   * started in between.
   */
  ghost predicate Progress(a: Snapshot, b: Snapshot, run: nat, own: nat) {
    && Advanced(a, b, run)
    && Started(a, run) <= Started(b, run)
    && |b.exchanges| <= |a.exchanges| + own + MAX_LOOP_ITERATIONS * (Started(b, run) - Started(a, run))
  }

  lemma {:induction false} ProgressNone(a: Snapshot, run: nat)
    requires run + 1 == |a.runs|
    ensures Progress(a, a, run, 0)
  {
  }

  lemma {:induction false} ProgressTransitive(a: Snapshot, b: Snapshot, c: Snapshot, run: nat, m: nat, n: nat)
    requires Progress(a, b, run, m) && Progress(b, c, run, n)
    ensures Progress(a, c, run, m + n)
  {
    AdvancedTransitive(a, b, c, run);
  }

  lemma {:induction false} ProgressWeaken(a: Snapshot, b: Snapshot, run: nat, m: nat, n: nat)
    requires Progress(a, b, run, m) && m <= n
    ensures Progress(a, b, run, n)
  {
  }

  /** Steps that start no skill cost nothing. */
  lemma {:induction false} ProgressByStep(a: Snapshot, b: Snapshot, run: nat, step: Step)
    requires run < |a.runs| && Advanced(a, b, run) && b.exchanges == a.exchanges
    requires b.runs[run].steps == a.runs[run].steps + [step] && !step.payload.SkillStarted?
    ensures Progress(a, b, run, 0)
  {
    SummarizeSnoc(a.runs[run].steps, step);
  }

  lemma {:induction false} ProgressByTool(a: Snapshot, b: Snapshot, run: nat, toolRun: ToolRun)
    requires run + 1 == |a.runs|
    requires b == a.(toolRuns := a.toolRuns + [toolRun]) && IsTool(toolRun)
    ensures Progress(a, b, run, 0)
  {
  }

  lemma {:induction false} InterruptedIsEnded(s: Snapshot, run: nat)
    requires Executes(s, run)
    ensures Ended(s, run, Interrupted)
  {
  }

  lemma {:induction false} EndedIsNotInvalid(s: Snapshot, run: nat, outcome: Outcome)
    requires Ended(s, run, outcome)
    ensures !outcome.InvalidAnswer? && run + 1 == |s.runs|
  {
  }

  /** A new run joins a session whose runs are all over. */
  lemma {:induction false} SessionStarts(exchanges: seq<Exchange>, runs: seq<RunRecord>, request: string, steps: seq<Step>)
    requires SessionOk(runs) && TraceOk(exchanges, runs)
    requires forall r :: 0 <= r < |runs| ==> Final(runs[r].status)
    requires Written(|runs|, RunRecord(request, Running, steps)) && LogOk(steps) && Sourced(steps, request)
    ensures var after := runs + [RunRecord(request, Running, steps)];
            SessionOk(after) && TraceOk(exchanges, after)
  {
    hide LogOk;
    hide PromptOk;
    hide Sourced;
    var after := runs + [RunRecord(request, Running, steps)];
    forall e | e in exchanges
      ensures RecordedIn(e, after)
    {
      assert after[..e.run] == runs[..e.run];
    }
  }

  /** The earlier steps of a session belong to earlier runs. */
  lemma {:induction false} SessionStepsBelong(runs: seq<RunRecord>, n: nat)
    requires SessionOk(runs) && n <= |runs|
    ensures forall s :: s in SessionSteps(runs[..n]) ==> s.run < n
  {
    if n > 0 {
      assert runs[..n][..n - 1] == runs[..n - 1];
      SessionStepsBelong(runs, n - 1);
    }
  }

  /** A skill that starts may make as many calls as an iteration cap allows. */
  lemma {:induction false} SkillCosts(a: Snapshot, b: Snapshot, c: Snapshot, run: nat)
    requires Advanced(a, b, run) && Advanced(b, c, run) && b.exchanges == a.exchanges
    requires Started(a, run) < Started(b, run) <= Started(c, run)
    requires |c.exchanges| <= |b.exchanges| + MAX_LOOP_ITERATIONS
    ensures Progress(a, c, run, 0)
  {
    AdvancedTransitive(a, b, c, run);
  }

  lemma {:induction false} ProgressKeepsSteps(a: Snapshot, b: Snapshot, run: nat, own: nat)
    requires Progress(a, b, run, own)
    ensures run + 1 == |a.runs| == |b.runs| && a.runs[run].steps <= b.runs[run].steps
    ensures a.runs[run].request == b.runs[run].request && b.runs[..run] == a.runs[..run]
    ensures a.exchanges <= b.exchanges && b.context == a.context
    ensures Started(a, run) <= Started(b, run)
    ensures |b.exchanges| <= |a.exchanges| + own + MAX_LOOP_ITERATIONS * (Started(b, run) - Started(a, run))
  {
  }

  /** A resumed skill goes on with the invocation that was running, whatever was recorded since. */
  lemma {:induction false} SameInvocation(e: Exchange, f: Exchange)
    requires PromptOk(e) && PromptOk(f) && e.target.SkillLoop? && f.target.SkillLoop?
    requires e.target.invocation.id == f.target.invocation.id && e.log <= f.log
    ensures f.target.invocation == e.target.invocation
  {
    hide InSkill;
    hide SkillMessages;
    hide CountResponses;
    hide InvocationStarted;
    StartStaysIn(e.log, f.log, e.target.invocation.id);
  }

  /** After the earlier messages come the response that asked, without its id, and the text of the answer. */
  ghost predicate AddsAnswer(earlier: seq<Message>, later: seq<Message>, items: seq<ResponseItem>, input: string) {
    && |later| == |earlier| + 2
    && later[..|earlier|] == earlier
    && CarriesResponse(None, items, later[|earlier|])
    && Calls(items) != []
    && var answer, question := later[|earlier| + 1], Calls(items)[0];
    answer.ToolOutput? && answer.id == question.id && answer.callId == question.callId && IsInput(answer.output, input)
  }

  /** The same for whole requests: the next one adds the pausing response and the answer. */
  lemma {:induction false} PausedPrompts(e: Exchange, f: Exchange, input: string)
    requires PromptOk(e) && PromptOk(f) && e.target.SkillLoop? && f.target.SkillLoop?
    requires e.target.invocation.id == f.target.invocation.id
    requires var name := e.target.invocation.skillName; FindSkill(f.skills, name) == FindSkill(e.skills, name)
    requires f.run == e.run && f.context == e.context && f.prior == e.prior
    requires Usable(e.reply) && PausesSkill(ItemsOf(e.reply.choice))
    requires var question := Calls(ItemsOf(e.reply.choice))[0];
             f.log == e.log + [ResponseStep(e.run, e.target, e.reply)] +
                      [AnswerStep(e.run, SkillQuestion(e.target.invocation, question), input)]
    ensures f.target == e.target
    ensures AddsAnswer(EraseIds(e.request.messages), EraseIds(f.request.messages), ItemsOf(e.reply.choice), input)
  {
    hide CarriesResponse;
    hide InSkill;
    hide SkillMessages;
    hide Contents;
    hide Calls;
    hide ItemsOf;
    hide CountResponses;
    hide InvocationStarted;
    SameInvocation(e, f);
    assert f.target == e.target;
    var items := ItemsOf(e.reply.choice);
    var question := Calls(items)[0];
    ReplayAcrossPause(e.context, e.prior, e.log, e.run, e.target.invocation, e.target.skill, e.reply.messageId, items, input);
    var before := SkillMessages(e.context, e.prior, e.log, e.run, e.target.invocation, e.target.skill).value;
    var shown := Assistant(e.reply.messageId, Contents(items));
    var output := ToolOutput(question.id, question.callId, InputJson(input));
    EraseConcat(before, [shown, output]);
    assert EraseIds([shown, output]) == [EraseId(shown), output];
    ErasedResponse(items);
  }

  lemma {:induction false} ErasedResponse(items: seq<ResponseItem>)
    ensures CarriesResponse(None, items, Assistant(None, Contents(items)))
  {
    ItemsAreCarried(items);
  }

  // Answers

  /** Different answers are recorded differently. */
  lemma {:induction false} AnswersDiffer(a: Step, b: Step, run: nat, question: Pending, input: string, other: string)
    requires RecordsAnswer(a, run, question, input) && RecordsAnswer(b, run, question, other) && input != other
    ensures a != b
  {
  }

  /** The same call with different answers makes the next requests differ. */
  lemma {:induction false} AnswersReachTheModel(e: Exchange, f: Exchange, steps: seq<Step>, a: Step, b: Step, question: Pending,
                                                input: string, other: string)
    requires PromptOk(e) && PromptOk(f) && e.target == f.target
    requires e.run == f.run && e.context == f.context && e.prior == f.prior
    requires e.log == steps + [a] && f.log == steps + [b]
    requires RecordsAnswer(a, e.run, question, input) && RecordsAnswer(b, e.run, question, other) && input != other
    requires match question {
               case MainQuestion(_) => e.target == MainLoop
               case SkillQuestion(invocation, _) => e.target.SkillLoop? && e.target.invocation == invocation
             }
    ensures e.request.messages != f.request.messages
  {
    hide InSkill;
    hide ReadyForModel;
    hide CountResponses;
    hide Serves;
    hide SkillMessages;
    hide MainRequest;
    match question {
      case MainQuestion(call) =>
        assert e.prior + e.log == e.prior + steps + [a] && f.prior + f.log == f.prior + steps + [b];
        MainRequestsDiffer(e.context, e.prior + steps, a, b);
      case SkillQuestion(invocation, call) =>
        ReplaysDiffer(e.context, e.prior, steps, a, b, e.run, invocation, e.target.skill);
    }
  }

  lemma {:induction false} MainRequestsDiffer(context: seq<ContextItem>, steps: seq<Step>, a: Step, b: Step)
    requires a.kind == b.kind == ToolResultKind && a.payload.ToolResult? && b.payload.ToolResult? && a.payload != b.payload
    ensures MainRequest(context, steps + [a]).messages != MainRequest(context, steps + [b]).messages
  {
    hide *;
    EndsWithResult(context, steps, a);
    EndsWithResult(context, steps, b);
    LastDiffers(MainRequest(context, steps).messages,
                ToolOutput(a.payload.id, a.payload.callId, a.payload.result),
                ToolOutput(b.payload.id, b.payload.callId, b.payload.result));
  }

  lemma {:induction false} EndsWithResult(context: seq<ContextItem>, steps: seq<Step>, step: Step)
    requires step.kind == ToolResultKind && step.payload.ToolResult?
    ensures MainRequest(context, steps + [step]).messages ==
            MainRequest(context, steps).messages + [ToolOutput(step.payload.id, step.payload.callId, step.payload.result)]
  {
    ChatSnoc(steps, step);
    ResultIsVisible(step);
    hide Chat;
    hide ContextMessages;
    hide VisibleMessage;
  }

  lemma {:induction false} ResultIsVisible(step: Step)
    requires step.kind == ToolResultKind && step.payload.ToolResult?
    ensures VisibleMessage(step) == [ToolOutput(step.payload.id, step.payload.callId, step.payload.result)]
  {
  }

  lemma {:induction false} LastDiffers(messages: seq<Message>, x: Message, y: Message)
    requires x != y
    ensures messages + [x] != messages + [y]
  {
    assert (messages + [x])[|messages|] == x && (messages + [y])[|messages|] == y;
  }

  lemma {:induction false} ReplaysDiffer(context: seq<ContextItem>, prior: seq<Step>, steps: seq<Step>, a: Step, b: Step, run: nat,
                                         invocation: SkillInvocation, skill: Skill)
    requires a.payload.SkillToolResult? && b.payload.SkillToolResult? && a.payload != b.payload
    requires a.payload.invocationId == b.payload.invocationId == invocation.id
    requires SkillMessages(context, prior, steps + [a], run, invocation, skill).Ok?
    requires SkillMessages(context, prior, steps + [b], run, invocation, skill).Ok?
    ensures EraseIds(SkillMessages(context, prior, steps + [a], run, invocation, skill).value) !=
            EraseIds(SkillMessages(context, prior, steps + [b], run, invocation, skill).value)
  {
    ReplayBefore(context, prior, steps, a, run, invocation, skill);
    SkillMessagesSnoc(context, prior, steps, a, run, invocation, skill);
    SkillMessagesSnoc(context, prior, steps, b, run, invocation, skill);
    hide SkillMessages;
    var before := SkillMessages(context, prior, steps, run, invocation, skill).value;
    var x := ToolOutput(a.payload.id, a.payload.callId, a.payload.result);
    var y := ToolOutput(b.payload.id, b.payload.callId, b.payload.result);
    assert TranscriptEntry(a, invocation.id) == Ok([x]) && TranscriptEntry(b, invocation.id) == Ok([y]);
    EraseConcat(before, [x]);
    EraseConcat(before, [y]);
    assert EraseIds([x]) == [x] && EraseIds([y]) == [y];
    LastDiffers(EraseIds(before), x, y);
  }

  /** A tool result is not the call, so the replay without it exists too. */
  lemma {:induction false} ReplayBefore(context: seq<ContextItem>, prior: seq<Step>, steps: seq<Step>, step: Step, run: nat,
                                        invocation: SkillInvocation, skill: Skill)
    requires step.payload.SkillToolResult?
    requires SkillMessages(context, prior, steps + [step], run, invocation, skill).Ok?
    ensures SkillMessages(context, prior, steps, run, invocation, skill).Ok?
  {
    TranscriptSnoc(steps, step, invocation.id);
    var all := prior + steps;
    assert prior + (steps + [step]) == all + [step] && (all + [step])[..|all|] == all;
  }

  /** A skill prompt starts from the request that called the skill. */
  lemma {:induction false} InheritedPrompt(e: Exchange, f: Exchange, response: Step, invocation: SkillInvocation, skill: Skill)
    requires f.target == SkillLoop(invocation, skill) && PromptOk(f)
    requires e.request == MainRequest(e.context, e.prior + e.log)
    requires f.run == e.run && f.context == e.context && f.prior == e.prior
    requires response.run == e.run && e.log + [response] <= f.log
    requires ContainsToolCall(response, invocation.id) && invocation.id !in Summarize(e.log).recorded
    requires forall s :: s in e.prior ==> s.run != e.run
    ensures Transcript(f.log, invocation.id).Ok?
    ensures EraseIds(f.request.messages) ==
            EraseIds(InjectInstructions(e.request.messages, skill.instructions) + [User(invocation.task)] +
                     Transcript(f.log, invocation.id).value)
  {
    hide InSkill;
    hide Summarize;
    hide ContainsToolCall;
    hide MainRequest;
    hide Transcript;
    hide InjectInstructions;
    hide EraseIds;
    hide CountResponses;
    hide SkillPreamble;
    var before, rest := e.prior + e.log, f.log[|e.log| + 1..];
    NotCalledBefore(e.prior, e.log, e.run, invocation.id);
    PreambleFromCaller(e.context, before, response, rest, e.run, invocation, skill);
    assert f.prior + f.log == before + [response] + rest;
  }

  lemma {:induction false} NotCalledBefore(prior: seq<Step>, log: seq<Step>, run: nat, id: string)
    requires id !in Summarize(log).recorded
    requires forall s :: s in prior ==> s.run != run
    ensures forall s :: s in prior + log ==> !(s.run == run && ContainsToolCall(s, id))
  {
    NotRecorded(log, id);
    hide ContainsToolCall;
    hide Summarize;
  }

  lemma {:induction false} NotRecorded(steps: seq<Step>, id: string)
    requires id !in Summarize(steps).recorded
    ensures forall s :: s in steps ==> !ContainsToolCall(s, id)
  {
    if steps != [] {
      var front, last := steps[..|steps| - 1], steps[|steps| - 1];
      NotRecorded(front, id);
      assert steps == front + [last];
      assert last.payload.AssistantResponse? ==> id !in IdSet(Calls(last.payload.items));
    }
  }


  /** The step is the result of the call that asked, and holds exactly the text of the answer. */
  predicate RecordsAnswer(step: Step, run: nat, question: Pending, input: string) {
    && step.run == run
    && match question
       case MainQuestion(call) =>
         && step.kind == ToolResultKind && step.payload.ToolResult?
         && step.payload.id == call.id && step.payload.callId == call.callId && IsInput(step.payload.result, input)
       case SkillQuestion(invocation, call) =>
         && step.kind == SkillExecutionKind && step.payload.SkillToolResult? && step.payload.invocationId == invocation.id
         && step.payload.id == call.id && step.payload.callId == call.callId && IsInput(step.payload.result, input)
  }

  function AnswerStep(run: nat, question: Pending, input: string): (step: Step)
    ensures RecordsAnswer(step, run, question, input)
  {
    Step(run, KindOf(AnswerPayload(question, input)), AnswerPayload(question, input))
  }

  // Why an execution ends

  /** What each model call of the main loop streamed, in order. */
  function MainStreams(exchanges: seq<Exchange>): seq<string> {
    if exchanges == [] then []
    else
      var last := exchanges[|exchanges| - 1];
      MainStreams(exchanges[..|exchanges| - 1]) + if last.target == MainLoop then [last.reply.streamed] else []
  }

  lemma {:induction false} MainStreamsSnoc(exchanges: seq<Exchange>, e: Exchange)
    ensures MainStreams(exchanges + [e]) == MainStreams(exchanges) + if e.target == MainLoop then [e.reply.streamed] else []
  {
    assert (exchanges + [e])[..|exchanges|] == exchanges;
  }

  /** The last of the new model calls was cut off. */
  predicate CutOffBy(exchanges: seq<Exchange>, since: nat) {
    |exchanges| > since && exchanges[|exchanges| - 1].reply.Aborted?
  }

  /** The last of the new model calls, made by the main loop, failed with this message or answered with an image. */
  predicate RefusedBy(exchanges: seq<Exchange>, since: nat, message: string) {
    && |exchanges| > since
    && exchanges[|exchanges| - 1].target == MainLoop
    && match exchanges[|exchanges| - 1].reply
       case ModelError(failure, _) => message == failure
       case Reply(_, choice, _) => ImageChoice in choice
       case Aborted(_) => false
  }

  /** At most eight main calls were made since. */
  predicate FewMainCalls(exchanges: seq<Exchange>, earlier: seq<Exchange>) {
    |MainStreams(exchanges)| <= |MainStreams(earlier)| + MAX_LOOP_ITERATIONS
  }

  /**
   * An execution makes at most eight main calls. It fails only when the model does or after
   * exactly eight of them, and is cut off only at a call.
   */
  predicate EndsFor(outcome: Outcome, exchanges: seq<Exchange>, earlier: seq<Exchange>) {
    && FewMainCalls(exchanges, earlier)
    && match outcome
       case Interrupted => CutOffBy(exchanges, |earlier|)
       case Failure(message) =>
         || RefusedBy(exchanges, |earlier|, message)
         || |MainStreams(exchanges)| == |MainStreams(earlier)| + MAX_LOOP_ITERATIONS
       case _ => true
  }

  lemma {:induction false} NothingToExplain(outcome: Outcome, exchanges: seq<Exchange>, earlier: seq<Exchange>)
    requires !outcome.Failure? && outcome != Interrupted && FewMainCalls(exchanges, earlier)
    ensures EndsFor(outcome, exchanges, earlier)
  {
  }

  /** How a main call that gives no turn ends the execution. */
  predicate StopsAt(outcome: Outcome, exchanges: seq<Exchange>, since: nat) {
    match outcome
    case Interrupted => CutOffBy(exchanges, since)
    case Failure(message) => RefusedBy(exchanges, since, message)
    case _ => false
  }

  lemma {:induction false} ReplyStops(earlier: seq<Exchange>, e: Exchange, message: string)
    requires e.target == MainLoop && !Usable(e.reply)
    requires e.reply.ModelError? ==> message == e.reply.message
    ensures StopsAt(if e.reply.Aborted? then Interrupted else Failure(message), earlier + [e], |earlier|)
  {
  }

  lemma {:induction false} CutOffExplains(exchanges: seq<Exchange>, since: nat, earlier: seq<Exchange>)
    requires CutOffBy(exchanges, since) && |earlier| <= since && FewMainCalls(exchanges, earlier)
    ensures EndsFor(Interrupted, exchanges, earlier)
  {
  }

  /** How a turn of the main loop ends the execution. */
  predicate TurnEnds(outcome: Outcome, exchanges: seq<Exchange>, since: nat) {
    outcome.Answer? || outcome.Question? || StopsAt(outcome, exchanges, since)
  }

  lemma {:induction false} TurnExplains(outcome: Outcome, exchanges: seq<Exchange>, since: nat, earlier: seq<Exchange>)
    requires TurnEnds(outcome, exchanges, since) && |earlier| <= since && FewMainCalls(exchanges, earlier)
    ensures EndsFor(outcome, exchanges, earlier)
  {
  }

  lemma {:induction false} EndsWithFewCalls(outcome: Outcome, exchanges: seq<Exchange>, earlier: seq<Exchange>)
    requires EndsFor(outcome, exchanges, earlier)
    ensures |MainStreams(exchanges)| <= |MainStreams(earlier)| + MAX_LOOP_ITERATIONS
  {
  }

  lemma {:induction false} EndsForEarlier(outcome: Outcome, exchanges: seq<Exchange>, middle: seq<Exchange>, earlier: seq<Exchange>)
    requires EndsFor(outcome, exchanges, middle)
    requires |earlier| <= |middle| && MainStreams(earlier) == MainStreams(middle)
    ensures EndsFor(outcome, exchanges, earlier)
  {
  }

  lemma {:induction false} ProgressGrows(a: Snapshot, b: Snapshot, run: nat, own: nat)
    requires Progress(a, b, run, own)
    ensures a.exchanges <= b.exchanges
  {
  }

  /** The text has grown by what was streamed since. */
  predicate StreamedOn(earlier: seq<string>, streams: seq<string>, before: string, after: string) {
    earlier <= streams && after == before + Concat(streams[|earlier|..])
  }

  lemma {:induction false} StreamedNothing(streams: seq<string>, text: string)
    ensures StreamedOn(streams, streams, text, text)
  {
    assert streams[|streams|..] == [] && text + [] == text;
  }

  lemma {:induction false} StreamedMore(earlier: seq<string>, streams: seq<string>, before: string, after: string, more: string)
    requires StreamedOn(earlier, streams, before, after)
    ensures StreamedOn(earlier, streams + [more], before, after + more)
  {
    var grown := streams + [more];
    assert grown[|earlier|..] == streams[|earlier|..] + [more];
    ConcatSnoc(streams[|earlier|..], more);
  }

  /** Calls that a skill may not make. */
  predicate Misused(calls: seq<ToolCall>) {
    if HasHumanInput(calls) then |calls| != 1 else exists c :: c in calls && c.name == CALL_SKILL_TOOL_NAME
  }

  predicate FailsSubflow(reply: ModelReply) {
    match reply
    case ModelError(_, _) => true
    case Reply(_, choice, _) => ImageChoice in choice || Misused(Calls(ItemsOf(choice)))
    case Aborted(_) => false
  }

  /** A subflow fails only by its iteration cap or by the last of its own replies. */
  predicate SubflowFails(exchanges: seq<Exchange>, since: nat, responses: nat) {
    || responses == MAX_LOOP_ITERATIONS
    || (|exchanges| > since && FailsSubflow(exchanges[|exchanges| - 1].reply))
  }
}
